/** The two `str` operations the request path relies on: slicing a leading
    prefix (`s[:n]`) and `s.strip()` with no argument. */
module PyStr {

  /** The characters CPython's `str.isspace` accepts, which are exactly the ones
      `str.strip()` removes when called without an argument. */
  predicate IsSpace(c: char) {
    || '\t' <= c <= '\r'
    || '\U{1C}' <= c <= ' '
    || c == '\U{85}' || c == '\U{A0}' || c == '\U{1680}'
    || '\U{2000}' <= c <= '\U{200A}'
    || c == '\U{2028}' || c == '\U{2029}' || c == '\U{202F}' || c == '\U{205F}' || c == '\U{3000}'
  }

  ghost predicate AllSpace(s: string) {
    forall i :: 0 <= i < |s| ==> IsSpace(s[i])
  }

  /** Neither end of `s` is whitespace. */
  predicate Trimmed(s: string) {
    s == [] || (!IsSpace(s[0]) && !IsSpace(s[|s| - 1]))
  }

  function Min(a: int, b: int): int {
    if a <= b then a else b
  }

  /** `s[:n]` for a non-negative `n`: the leading `n` characters, or all of `s`
      when it is shorter. */
  function Prefix(s: string, n: nat): (r: string)
    ensures |r| == Min(|s|, n)
    ensures r == s[..|r|]
  {
    if |s| <= n then s else s[..n]
  }

  /** Only the first `n` characters of `s` decide `s[:n]`. */
  lemma PrefixAgrees(s: string, t: string, n: nat)
    requires |s| >= n && |t| >= n && s[..n] == t[..n]
    ensures Prefix(s, n) == Prefix(t, n)
  {
  }

  /** `s.lstrip()`: `s` without its leading whitespace. */
  function LStrip(s: string): (r: string)
    ensures |r| <= |s| && r == s[|s| - |r|..]
    ensures AllSpace(s[..|s| - |r|])
    ensures r == [] || !IsSpace(r[0])
  {
    if s == [] || !IsSpace(s[0]) then s
    else
      var r := LStrip(s[1..]);
      assert s[..|s| - |r|] == [s[0]] + s[1..][..|s| - 1 - |r|];
      r
  }

  /** `s.rstrip()`: `s` without its trailing whitespace. */
  function RStrip(s: string): (r: string)
    ensures |r| <= |s| && r == s[..|r|]
    ensures AllSpace(s[|r|..])
    ensures r == [] || !IsSpace(r[|r| - 1])
  {
    if s == [] || !IsSpace(s[|s| - 1]) then s
    else
      var r := RStrip(s[..|s| - 1]);
      assert s[|r|..] == s[..|s| - 1][|r|..] + [s[|s| - 1]];
      r
  }

  /** `s.strip()`: the result never starts or ends with whitespace. */
  function Strip(s: string): (r: string)
    ensures |r| <= |s|
    ensures Trimmed(r)
  {
    RStrip(LStrip(s))
  }

  /** `s.lstrip()` stops at the first non-whitespace character. */
  lemma {:induction false} LStripAt(s: string, i: nat)
    requires i <= |s| && AllSpace(s[..i])
    requires i == |s| || !IsSpace(s[i])
    ensures LStrip(s) == s[i..]
  {
    if i > 0 {
      assert IsSpace(s[..i][0]);
      assert s[1..][..i - 1] == s[1..i];
      LStripAt(s[1..], i - 1);
    }
  }

  /** `s.rstrip()` stops at the last non-whitespace character. */
  lemma {:induction false} RStripAt(s: string, j: nat)
    requires j <= |s| && AllSpace(s[j..])
    requires j == 0 || !IsSpace(s[j - 1])
    ensures RStrip(s) == s[..j]
  {
    if j < |s| {
      assert IsSpace(s[j..][|s| - 1 - j]);
      var u := s[..|s| - 1];
      assert u[j..] == s[j..|s| - 1];
      assert u[..j] == s[..j];
      RStripAt(u, j);
    }
  }

  /** `s.strip()` is the one slice `s[i:j]` with whitespace-only text before and
      after it and no whitespace at either of its ends. */
  lemma {:induction false} StripAt(s: string, i: nat, j: nat)
    requires i <= j <= |s|
    requires AllSpace(s[..i]) && AllSpace(s[j..])
    requires Trimmed(s[i..j])
    ensures Strip(s) == s[i..j]
  {
    if i == j {
      StripAllSpace(s, i);
    } else {
      LStripAt(s, i);
      var t := s[i..];
      assert t[..j - i] == s[i..j];
      assert t[j - i..] == s[j..];
      RStripAt(t, j - i);
    }
  }

  /** A string made of whitespace only strips to the empty string. */
  lemma {:induction false} StripAllSpace(s: string, i: nat)
    requires i <= |s| && AllSpace(s[..i]) && AllSpace(s[i..])
    ensures Strip(s) == []
  {
    assert s == s[..i] + s[i..];
    AllSpaceConcat(s[..i], s[i..]);
    assert s[..|s|] == s;
    LStripAt(s, |s|);
  }

  lemma {:induction false} AllSpaceConcat(x: string, y: string)
    requires AllSpace(x) && AllSpace(y)
    ensures AllSpace(x + y)
  {
  }

  /** Stripping twice changes nothing more. */
  lemma {:induction false} StripIdempotent(s: string)
    ensures Strip(Strip(s)) == Strip(s)
  {
    var t := Strip(s);
    assert t[..0] == [] && t[|t|..] == [];
    assert t[0..|t|] == t;
    StripAt(t, 0, |t|);
  }
}
