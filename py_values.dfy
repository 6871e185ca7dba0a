/** Python values as the backend sees them: optional values, raised exceptions,
    decoded JSON, and the two lookups the response projection chains together
    (`dict.get(key, default)` and `x[0]`). */
module PyValues {

  datatype Option<+T> = None | Some(value: T)

  /** The exception kinds that can leave `generate` and the request handlers. */
  datatype PyError =
    | MissingApiKey        // ValueError raised when GEMINI_API_KEY is unset or empty
    | HttpError(status: int)  // requests.HTTPError from raise_for_status()
    | Timeout              // requests.Timeout after the request timeout
    | ConnectionError      // requests.ConnectionError: no response at all
    | RequestException     // any other requests.RequestException raised by the call
    | JsonDecodeError      // resp.json() on a body that is not JSON
    | AttributeError       // .get or .strip on a value that lacks it
    | IndexError           // [0] on an empty list or string
    | KeyError             // [0] on a dict (JSON keys are strings, never 0)
    | TypeError            // [0] on a value that is not subscriptable

  /** Either a value or the exception that was raised instead. */
  datatype Result<+T> = Ok(value: T) | Err(error: PyError) {
    predicate IsFailure() {
      Err?
    }

    function PropagateFailure<U>(): Result<U>
      requires Err?
    {
      Err(error)
    }

    function Extract(): T
      requires Ok?
    {
      value
    }
  }

  /** A decoded JSON document. Numbers keep Python's int/float split; a float
      is kept as the decimal literal mantissa * 10^exponent (0.3 is JFloat(3, -1)),
      since the backend only passes floats through. */
  datatype Value =
    | JNull
    | JBool(b: bool)
    | JInt(i: int)
    | JFloat(mantissa: int, exponent: int)
    | JString(s: string)
    | JArray(items: seq<Value>)
    | JObject(fields: map<string, Value>)

  /** `v.get(key, default)`: only dicts have `get`. */
  function Get(v: Value, key: string, default: Value): (r: Result<Value>)
    ensures r.Ok? <==> v.JObject?
    ensures r.Ok? && key in v.fields ==> r.value == v.fields[key]
    ensures r.Ok? && key !in v.fields ==> r.value == default
  {
    match v
    case JObject(fields) => Ok(if key in fields then fields[key] else default)
    case _ => Err(AttributeError)
  }

  /** `v[0]`: the first element of a list, the first character of a string. */
  function First(v: Value): (r: Result<Value>)
    ensures r.Ok? <==> (v.JArray? && v.items != []) || (v.JString? && v.s != [])
    ensures r.Ok? && v.JArray? ==> r.value == v.items[0]
    ensures r == Err(IndexError) <==> v == JArray([]) || v == JString([])
  {
    match v
    case JArray(items) => if items == [] then Err(IndexError) else Ok(items[0])
    case JString(s) => if s == [] then Err(IndexError) else Ok(JString([s[0]]))
    case JObject(_) => Err(KeyError)
    case _ => Err(TypeError)
  }
}
