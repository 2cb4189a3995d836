/** The parsed output of `system_profiler -json` and the cached power file:
    a JSON tree, with the few Python operations the dashboard applies to it. */
module Json {
  import opened Wrappers

  /** A decoded JSON value. Numbers are integers: the fields the dashboard reads
      are whole numbers. */
  datatype Json =
    | JNull
    | JBool(b: bool)
    | JInt(i: int)
    | JString(s: string)
    | JList(items: seq<Json>)
    | JObject(fields: map<string, Json>)

  /** One run of `system_profiler -json <type>`: either the command could not be
      run to a zero exit status (not installed, a non-zero exit, a timeout), or it
      printed text, which decodes to a JSON value or does not. */
  datatype ProfilerRun = Unavailable | Printed(parsed: Option<Json>)

  /** `v.get(key, default)`: only a dict has `.get`; on anything else Python
      raises `AttributeError`. */
  function Get(v: Json, key: string, default: Json): Outcome<Json>
  {
    match v
    case JObject(m) => Ok(if key in m then m[key] else default)
    case _ => Raised(Error)
  }

  /** `v[key]` for a string key: only a dict holding the key yields a value;
      otherwise Python raises `KeyError` or `TypeError`. */
  function Subscript(v: Json, key: string): Option<Json>
  {
    if v.JObject? && key in v.fields then Some(v.fields[key]) else None
  }

  /** Python's truthiness of a decoded value. */
  predicate Truthy(v: Json)
  {
    match v
    case JNull => false
    case JBool(b) => b
    case JInt(i) => i != 0
    case JString(s) => s != ""
    case JList(items) => items != []
    case JObject(m) => m != map[]
  }

  /** The elements of `for p in v` when the body's first act is `p.get(...)`:
      a list yields its items; an empty dict or empty string yields nothing;
      a non-empty dict or string yields strings, whose `.get` raises; any other
      value is not iterable and raises `TypeError`. */
  function DictEntries(v: Json): Outcome<seq<Json>>
  {
    match v
    case JList(items) => Ok(items)
    case JObject(m) => if m == map[] then Ok([]) else Raised(Error)
    case JString(s) => if s == "" then Ok([]) else Raised(Error)
    case _ => Raised(Error)
  }
}
