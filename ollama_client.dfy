/** `generate`: one text-generation request to the Gemini REST API. The key
    check, the URL, the JSON payload and the projection of the reply onto its
    text are modelled; the HTTP round trip itself is a parameter `post` that
    maps the request to what came back. */
module OllamaClient {
  import opened PyValues
  import opened PyStr

  const GeminiUrl: string := "https://generativelanguage.googleapis.com/v1beta/models"
  const RequestTimeoutSeconds: nat := 60
  const JsonHeaders: map<string, string> := map["Content-Type" := "application/json"]

  /** What is handed to the HTTP client. */
  datatype HttpRequest = HttpRequest(url: string, headers: map<string, string>, payload: Value, timeoutSeconds: nat)

  /** What the HTTP client produced: a response whose body may or may not be
      JSON (`None` when `resp.json()` cannot decode it), or no response at all. */
  datatype HttpOutcome =
    | Response(status: int, body: Option<Value>)
    | TimedOut
    | ConnectionFailed
    | RequestFailed  // any other failure of the HTTP client (redirect loop, invalid URL, broken stream, ...)

  /** `if not GEMINI_API_KEY`: an unset or empty key is refused. */
  predicate HasKey(apiKey: Option<string>) {
    apiKey.Some? && apiKey.value != ""
  }

  function RequestUrl(model: string, apiKey: string): string {
    GeminiUrl + "/" + model + ":generateContent?key=" + apiKey
  }

  /** Position of the first colon in `s` (`|s|` when there is none). */
  function ColonIndex(s: string): nat {
    if s == [] || s[0] == ':' then 0 else 1 + ColonIndex(s[1..])
  }

  lemma {:induction false} ColonIndexAfter(m: string, rest: string)
    requires ':' !in m && rest != [] && rest[0] == ':'
    ensures ColonIndex(m + rest) == |m|
  {
    if m != [] {
      assert (m + rest)[1..] == m[1..] + rest;
      ColonIndexAfter(m[1..], rest);
    }
  }

  /** The URL determines the model and the key it was built from, as long as the
      model name has no colon: nothing else is folded into it. */
  lemma {:induction false} RequestUrlDetermines(m1: string, k1: string, m2: string, k2: string)
    requires ':' !in m1 && ':' !in m2
    requires RequestUrl(m1, k1) == RequestUrl(m2, k2)
    ensures m1 == m2 && k1 == k2
  {
    var tag := ":generateContent?key=";
    assert tag[0] == ':';
    SplitAtColon(GeminiUrl + "/", tag, m1, k1, m2, k2);
  }

  lemma {:induction false} SplitAtColon(base: string, tag: string, m1: string, k1: string, m2: string, k2: string)
    requires tag != [] && tag[0] == ':' && ':' !in m1 && ':' !in m2
    requires base + m1 + tag + k1 == base + m2 + tag + k2
    ensures m1 == m2 && k1 == k2
  {
    var u1, u2 := m1 + tag + k1, m2 + tag + k2;
    assert base + m1 + tag + k1 == base + u1;
    assert base + m2 + tag + k2 == base + u2;
    assert u1 == (base + u1)[|base|..];
    assert u2 == (base + u2)[|base|..];
    assert u1 == u2;
    assert u1 == m1 + (tag + k1) && u2 == m2 + (tag + k2);
    ColonIndexAfter(m1, tag + k1);
    ColonIndexAfter(m2, tag + k2);
    assert m1 == u1[..|m1|] && m2 == u2[..|m2|];
    assert k1 == u1[|m1| + |tag|..] && k2 == u2[|m2| + |tag|..];
  }

  /** The Gemini option a caller's option key is copied to. */
  function GeminiOptionName(key: string): string {
    if key == "num_predict" then "maxOutputTokens" else key
  }

  /** The `generationConfig` object: `temperature` is copied as it is,
      `num_predict` becomes `maxOutputTokens`, every other option is dropped. */
  function GenerationConfig(options: Option<map<string, Value>>): (config: map<string, Value>)
    ensures "temperature" in config <==> options.Some? && "temperature" in options.value
    ensures "maxOutputTokens" in config <==> options.Some? && "num_predict" in options.value
    ensures "temperature" in config ==> config["temperature"] == options.value["temperature"]
    ensures "maxOutputTokens" in config ==> config["maxOutputTokens"] == options.value["num_predict"]
    ensures config.Keys <= {"temperature", "maxOutputTokens"}
  {
    match options
    case None => map[]
    case Some(opts) =>
      map k | k in opts.Keys && k in {"temperature", "num_predict"} :: GeminiOptionName(k) := opts[k]
  }

  /** The one `contents` entry: a single part carrying the prompt. */
  function Contents(prompt: string): Value {
    JArray([JObject(map["parts" := JArray([JObject(map["text" := JString(prompt)])])])])
  }

  /** The request body: the prompt as the only part of the only `contents`
      entry, plus `generationConfig` when some option was recognised. */
  function Payload(prompt: string, options: Option<map<string, Value>>): (payload: Value)
    ensures payload.JObject? && payload.fields.Keys <= {"contents", "generationConfig"}
    ensures "contents" in payload.fields && payload.fields["contents"] == Contents(prompt)
    ensures "generationConfig" in payload.fields
        <==> options.Some? && ("temperature" in options.value || "num_predict" in options.value)
    ensures "generationConfig" in payload.fields
        ==> payload.fields["generationConfig"] == JObject(GenerationConfig(options))
  {
    var config := GenerationConfig(options);
    var body := map["contents" := Contents(prompt)];
    JObject(if config == map[] then body else body["generationConfig" := JObject(config)])
  }

  /** The payload built the way `generate` builds it: the configuration dict is
      filled key by key and attached only if it ended up non-empty. */
  method BuildPayload(prompt: string, options: Option<map<string, Value>>) returns (payload: Value)
    ensures payload == Payload(prompt, options)
  {
    var fields := map["contents" := JArray([JObject(map["parts" := JArray([JObject(map["text" := JString(prompt)])])])])];
    if options.Some? && options.value != map[] {
      var opts := options.value;
      var config: map<string, Value> := map[];
      if "temperature" in opts {
        config := config["temperature" := opts["temperature"]];
      }
      if "num_predict" in opts {
        config := config["maxOutputTokens" := opts["num_predict"]];
      }
      assert config == GenerationConfig(options);
      if config != map[] {
        fields := fields["generationConfig" := JObject(config)];
      }
    } else {
      assert GenerationConfig(options) == map[];
    }
    payload := JObject(fields);
  }

  function Request(prompt: string, model: string, apiKey: string, options: Option<map<string, Value>>): HttpRequest {
    HttpRequest(RequestUrl(model, apiKey), JsonHeaders, Payload(prompt, options), RequestTimeoutSeconds)
  }

  /** `v.strip()`: only strings have `strip`. */
  function StripText(v: Value): (r: Result<string>)
    ensures r.Ok? <==> v.JString?
    ensures r.Ok? ==> Trimmed(r.value)
  {
    match v
    case JString(s) => Ok(Strip(s))
    case _ => Err(AttributeError)
  }

  /** `parts[0].get("text", "").strip()`. */
  function PartText(parts: Value): (r: Result<string>)
    ensures r.Ok? ==> Trimmed(r.value)
  {
    var part :- First(parts);
    var text :- Get(part, "text", JString(""));
    StripText(text)
  }

  /** `candidates[0].get("content", {}).get("parts", [{}])[0].get("text", "").strip()`. */
  function CandidateText(candidates: Value): (r: Result<string>)
    ensures r.Ok? ==> Trimmed(r.value)
  {
    var candidate :- First(candidates);
    var content :- Get(candidate, "content", JObject(map[]));
    var parts :- Get(content, "parts", JArray([JObject(map[])]));
    PartText(parts)
  }

  /** `data.get("candidates", [{}])[0].get("content", {}).get("parts", [{}])[0].get("text", "").strip()`:
      absent keys fall back to their defaults, anything of the wrong shape raises. */
  function ResponseText(data: Value): (r: Result<string>)
    ensures r.Ok? ==> Trimmed(r.value)
  {
    var candidates :- Get(data, "candidates", JArray([JObject(map[])]));
    CandidateText(candidates)
  }

  /** The reply shape Gemini documents: the text of the first part of the
      first candidate comes back stripped, whatever else the reply holds. */
  lemma ResponseTextFirstPart(data: Value, candidates: seq<Value>, parts: seq<Value>, text: string)
    requires data.JObject? && "candidates" in data.fields && data.fields["candidates"] == JArray(candidates)
    requires candidates != [] && candidates[0].JObject?
    requires "content" in candidates[0].fields && candidates[0].fields["content"].JObject?
    requires "parts" in candidates[0].fields["content"].fields
    requires candidates[0].fields["content"].fields["parts"] == JArray(parts)
    requires parts != [] && parts[0].JObject?
    requires "text" in parts[0].fields && parts[0].fields["text"] == JString(text)
    ensures ResponseText(data) == Ok(Strip(text))
  {
  }

  /** Only the first candidate is read: the others may be anything. */
  lemma ResponseTextIgnoresLaterCandidates(fields: map<string, Value>, first: Value, rest1: seq<Value>, rest2: seq<Value>)
    ensures ResponseText(JObject(fields["candidates" := JArray([first] + rest1)]))
         == ResponseText(JObject(fields["candidates" := JArray([first] + rest2)]))
  {
  }

  /** Only the first part of the first candidate is read: the other parts may
      be anything, whatever else the reply and the candidate hold. */
  lemma ResponseTextIgnoresLaterParts(data: map<string, Value>, candidate: map<string, Value>, content: map<string, Value>,
                                      later: seq<Value>, first: Value, rest1: seq<Value>, rest2: seq<Value>)
    ensures ResponseText(JObject(data["candidates" := JArray([JObject(candidate["content" := JObject(content["parts" := JArray([first] + rest1)])])] + later)]))
         == ResponseText(JObject(data["candidates" := JArray([JObject(candidate["content" := JObject(content["parts" := JArray([first] + rest2)])])] + later)]))
  {
    assert ([first] + rest1)[0] == first && ([first] + rest2)[0] == first;
  }

  /** A reply without `candidates` (a blocked prompt, say) yields the empty text. */
  lemma ResponseTextNoCandidates(data: map<string, Value>)
    requires "candidates" !in data
    ensures ResponseText(JObject(data)) == Ok("")
  {
  }

  /** A first candidate without `content` (one stopped for safety, say) yields
      the empty text, whatever else the reply holds. */
  lemma ResponseTextNoContent(data: map<string, Value>, candidate: map<string, Value>, later: seq<Value>)
    requires "content" !in candidate
    ensures ResponseText(JObject(data["candidates" := JArray([JObject(candidate)] + later)])) == Ok("")
  {
    assert ([JObject(candidate)] + later)[0] == JObject(candidate);
  }

  /** A first candidate whose content has no `parts` yields the empty text. */
  lemma ResponseTextNoParts(data: map<string, Value>, candidate: map<string, Value>, content: map<string, Value>, later: seq<Value>)
    requires "parts" !in content
    ensures ResponseText(JObject(data["candidates" := JArray([JObject(candidate["content" := JObject(content)])] + later)])) == Ok("")
  {
    assert ([JObject(candidate["content" := JObject(content)])] + later)[0] == JObject(candidate["content" := JObject(content)]);
  }

  /** A first part without `text` yields the empty text. */
  lemma ResponseTextNoText(data: map<string, Value>, candidate: map<string, Value>, content: map<string, Value>,
                           later: seq<Value>, part: map<string, Value>, moreParts: seq<Value>)
    requires "text" !in part
    ensures ResponseText(JObject(data["candidates" := JArray([JObject(candidate["content" := JObject(content["parts" := JArray([JObject(part)] + moreParts)])])] + later)])) == Ok("")
  {
    assert ([JObject(part)] + moreParts)[0] == JObject(part);
  }

  /** A present but empty `candidates` list is indexed anyway and raises. */
  lemma ResponseTextEmptyCandidatesRaises(data: map<string, Value>)
    ensures ResponseText(JObject(data["candidates" := JArray([])])) == Err(IndexError)
  {
  }

  /** A present but empty `parts` list in the first candidate is indexed anyway
      and raises, whatever else the reply and the candidate hold. */
  lemma ResponseTextEmptyPartsRaises(data: map<string, Value>, candidate: map<string, Value>, content: map<string, Value>, later: seq<Value>)
    ensures ResponseText(JObject(data["candidates" := JArray([JObject(candidate["content" := JObject(content["parts" := JArray([])])])] + later)])) == Err(IndexError)
  {
    var c := JObject(candidate["content" := JObject(content["parts" := JArray([])])]);
    assert ([c] + later)[0] == c;
  }

  /** `generate(prompt, model, options)` with the environment's key and the
      HTTP client `post`. */
  function Generate(apiKey: Option<string>, prompt: string, model: string, options: Option<map<string, Value>>,
                    post: HttpRequest -> HttpOutcome): (r: Result<string>)
    ensures !HasKey(apiKey) ==> r == Err(MissingApiKey)
    ensures HasKey(apiKey) ==>
      var outcome := post(Request(prompt, model, apiKey.value, options));
      && (outcome.TimedOut? ==> r == Err(Timeout))
      && (outcome.ConnectionFailed? ==> r == Err(ConnectionError))
      && (outcome.RequestFailed? ==> r == Err(RequestException))
      && (outcome.Response? && 400 <= outcome.status < 600 ==> r == Err(HttpError(outcome.status)))
      && (outcome.Response? && !(400 <= outcome.status < 600) && outcome.body.None? ==> r == Err(JsonDecodeError))
      && (outcome.Response? && !(400 <= outcome.status < 600) && outcome.body.Some? ==> r == ResponseText(outcome.body.value))
    ensures r.Ok? ==> Trimmed(r.value)
  {
    if !HasKey(apiKey) then Err(MissingApiKey)
    else
      match post(Request(prompt, model, apiKey.value, options))
      case TimedOut => Err(Timeout)
      case ConnectionFailed => Err(ConnectionError)
      case RequestFailed => Err(RequestException)
      case Response(status, body) =>
        if 400 <= status < 600 then Err(HttpError(status))
        else if body.None? then Err(JsonDecodeError)
        else ResponseText(body.value)
  }

  /** Without a key nothing is sent: the outcome is the same whatever the HTTP
      client would have answered. */
  lemma GenerateChecksKeyFirst(apiKey: Option<string>, prompt: string, model: string, options: Option<map<string, Value>>,
                               post1: HttpRequest -> HttpOutcome, post2: HttpRequest -> HttpOutcome)
    requires !HasKey(apiKey)
    ensures Generate(apiKey, prompt, model, options, post1) == Generate(apiKey, prompt, model, options, post2)
  {
  }

  /** With a key exactly one request is sent, and it is `Request(...)`: two HTTP
      clients that answer it alike give the same outcome. */
  lemma GenerateSendsOneRequest(apiKey: Option<string>, prompt: string, model: string, options: Option<map<string, Value>>,
                                post1: HttpRequest -> HttpOutcome, post2: HttpRequest -> HttpOutcome)
    requires HasKey(apiKey)
    requires post1(Request(prompt, model, apiKey.value, options)) == post2(Request(prompt, model, apiKey.value, options))
    ensures Generate(apiKey, prompt, model, options, post1) == Generate(apiKey, prompt, model, options, post2)
  {
  }
}
