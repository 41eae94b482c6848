/** The values a loader can return, as far as the cache looks at them. */
module JsValues {

  datatype Option<+T> = None | Some(value: T)

  /** `Other` stands for every number, string and object: the cache never looks inside those. */
  datatype Value =
    | Undefined
    | Null
    | Bool(b: bool)
    | Arr(items: seq<Value>)
    | Other(token: int)

  /** A GET that answers null or undefined is a miss. */
  predicate Present(v: Value): (r: bool)
    ensures r <==> v.Bool? || v.Arr? || v.Other?
  {
    v != Undefined && v != Null
  }

  /** Results that stand for "nothing found" are never written to the cache. */
  predicate IsCacheable(v: Value): (r: bool)
    ensures r <==> v.Other? || v == Bool(true) || (v.Arr? && |v.items| > 0)
  {
    v != Undefined && v != Null && v != Bool(false) && v != Arr([])
  }
}
