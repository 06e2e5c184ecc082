/** Plain JavaScript objects, just far enough to give object spread
    (`{...a, ...b}`) a meaning that does not depend on the record types
    of the store. */
module JsObject {

  /** The property values the store's records hold: strings (ids, names,
      titles, texts) and numbers (a user's age). */
  datatype Value = Str(s: string) | Num(n: int)

  /** An object as its own enumerable properties: name to value. A name that
      is not a key is a property the object does not have. */
  type Object = map<string, Value>

  /** Spreading `undefined` (or `{}`) contributes no property at all. */
  const Undefined: Object := map[]

  /** `{...a, ...b}`: every property of `a` and of `b`; where both have one,
      the later spread (`b`) wins. */
  function Spread(a: Object, b: Object): (r: Object)
    ensures r.Keys == a.Keys + b.Keys
    ensures forall name :: name in b ==> r[name] == b[name]
    ensures forall name :: name in a && name !in b ==> r[name] == a[name]
  {
    a + b
  }
}
