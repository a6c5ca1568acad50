/** A JSON value as `JSON.parse` produces it; an absent object key is JavaScript's `undefined`. */
module Json {
  import opened Wrappers

  datatype Json =
    | JNull
    | JBool(b: bool)
    | JNum(n: real)
    | JStr(s: string)
    | JArr(items: seq<Json>)
    | JObj(fields: map<string, Json>)

  /** The value stored under `key` of an object, `None` when the key is absent. */
  function Field(fields: map<string, Json>, key: string): (r: Option<Json>)
    ensures r.Some? <==> key in fields
    ensures r.Some? ==> r.value == fields[key]
  {
    if key in fields then Some(fields[key]) else None
  }

  /** A JavaScript number that `Number.isInteger` accepts. */
  predicate IsInteger(x: real)
  {
    x.Floor as real == x
  }
}
