/** JSON values as Python's `json.load` returns them, with the few Python operations the
    scripts apply to them. */
module Json {
  import opened Wrappers

  /** A JSON value. Integers and floats are both numbers; an object's key order is not kept. */
  datatype Json =
    | JNull
    | JBool(b: bool)
    | JNumber(n: real)
    | JString(s: string)
    | JArray(items: seq<Json>)
    | JObject(fields: map<string, Json>)

  /** Python truthiness: `None`, `False`, zero, the empty string, list and dict are false. */
  predicate Truthy(j: Json) {
    match j
    case JNull => false
    case JBool(b) => b
    case JNumber(n) => n != 0.0
    case JString(s) => s != ""
    case JArray(items) => items != []
    case JObject(fields) => fields != map[]
  }

  /** `d.get(key, default)`. */
  function Get(d: map<string, Json>, key: string, default: Json): (r: Json)
    ensures key in d ==> r == d[key]
    ensures key !in d ==> r == default
  {
    if key in d then d[key] else default
  }

  /** The exceptions the scripts can raise on values of an unexpected shape: indexing or `in`
      on a value that does not support it, joining a part that is not a string (`TypeError`),
      and `.get` on a value that is not a dict (`AttributeError`). */
  datatype PyError = TypeError | AttributeError

  /** Whether `key` occurs in `s` as a contiguous substring. */
  predicate IsSubstring(key: string, s: string) {
    key <= s || (s != [] && IsSubstring(key, s[1..]))
  }

  /** `key in j`: key lookup in a dict, element test in a list, substring test in a string;
      any other value raises. */
  function PyIn(key: string, j: Json): Result<bool, PyError> {
    match j
    case JObject(fields) => Ok(key in fields)
    case JArray(items) => Ok(JString(key) in items)
    case JString(s) => Ok(IsSubstring(key, s))
    case _ => Err(TypeError)
  }

  /** `j[key]` after `key in j` held: only a dict can be indexed by a string. */
  function PyIndex(j: Json, key: string): Result<Json, PyError> {
    if j.JObject? && key in j.fields then Ok(j.fields[key]) else Err(TypeError)
  }
}
