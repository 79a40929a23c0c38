/**
 * The dynamically typed values that the context, the cache and the object
 * helpers store. JavaScript numbers are modelled as unbounded integers.
 */
module JsValues {

  datatype Value =
    | Undefined
    | Null
    | Bool(b: bool)
    | Number(n: int)
    | Text(s: string)
    | List(items: seq<Value>)
  {
    /** `typeof v === "number"`. */
    predicate IsNumber() { Number? }
  }

  /** `value ?? fallback`: the fallback replaces exactly `undefined` and `null`. */
  function Coalesce(value: Value, fallback: Value): (r: Value)
    ensures r == value || r == fallback
    ensures r == fallback <==> (value == Undefined || value == Null || value == fallback)
  {
    if value == Undefined || value == Null then fallback else value
  }

  /** `map.get(key)` on a JavaScript Map: `undefined` when the key is absent. */
  function Lookup(m: map<string, Value>, key: string): (r: Value)
    ensures key !in m ==> r == Undefined
    ensures key in m ==> r == m[key]
  {
    if key in m then m[key] else Undefined
  }
}
