/** Decoded JSON values as Python's json module hands them to the program,
    and the pieces of Python semantics the record lookup relies on: truth
    values, `dict.get` and the exceptions a wrong-typed value raises. */
module PyJson {

  /** A decoded JSON value. Objects keep no key order; numbers, integral or
      not, are reals. */
  datatype Json =
    | JNull
    | JBool(b: bool)
    | JNumber(n: real)
    | JString(s: string)
    | JArray(items: seq<Json>)
    | JObject(fields: map<string, Json>)

  /** The Python exceptions the modelled code can raise. */
  datatype PyError =
    | AttributeError    // `.get` called on something that is not a dict
    | TypeError         // iterating a non-iterable, or joining a non-str path
    | OSError           // creating the output directory or writing the file failed
    | RequestException  // an HTTP request failed or returned an error status

  /** A Python call that either returns a value or raises. */
  datatype Result<T> = Ok(value: T) | Err(error: PyError)

  /** Python's truth value (`bool(v)`) of a decoded JSON value. */
  predicate Truthy(v: Json)
  {
    match v
    case JNull => false
    case JBool(b) => b
    case JNumber(n) => n != 0.0
    case JString(s) => |s| > 0
    case JArray(items) => |items| > 0
    case JObject(fields) => |fields| > 0
  }

  /** `d.get(key, default)` on a dict `d`. */
  function Get(fields: map<string, Json>, key: string, default: Json): Json
  {
    if key in fields then fields[key] else default
  }

  /** `v.get(key, default)` on a value of unknown type: only a dict has `.get`. */
  function DictGet(v: Json, key: string, default: Json): (r: Result<Json>)
    ensures r.Ok? <==> v.JObject?
    ensures r.Ok? && key in v.fields ==> r.value == v.fields[key]
    ensures r.Ok? && key !in v.fields ==> r.value == default
    ensures r.Err? ==> r.error == AttributeError
  {
    match v
    case JObject(fields) => Ok(Get(fields, key, default))
    case _ => Err(AttributeError)
  }
}
