/**
 * JSON values as they reach the code: request bodies parsed from the wire, the
 * inference service's response, and error bodies. An object is a map from keys to
 * values; a number is a real (JavaScript numbers are doubles, and the schemas test
 * whether they are integers).
 */
module Json {
  import opened Wrappers

  datatype Value =
    | JNull
    | JBool(b: bool)
    | JNum(n: real)
    | JStr(s: string)
    | JArr(items: seq<Value>)
    | JObj(fields: map<string, Value>)

  /** `Number.isInteger(n)` for a finite number. */
  predicate IsInteger(n: real) {
    n.Floor as real == n
  }

  /** The value under `key` when `v` is an object that has it (`key in v`). */
  function Get(v: Value, key: string): (r: Option<Value>)
    ensures r.Some? <==> v.JObj? && key in v.fields
    ensures r.Some? ==> r.value == v.fields[key]
  {
    if v.JObj? && key in v.fields then Some(v.fields[key]) else None
  }
}
