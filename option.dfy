/** JavaScript's `T | null` (and `T | undefined`) as a value. */
module Opt {

  datatype Option<T> = None | Some(value: T)

  /** `a ?? b`, and SQL's `COALESCE(a, b)`. */
  function Coalesce<T>(a: Option<T>, b: Option<T>): (r: Option<T>)
    ensures a.Some? ==> r == a
    ensures a.None? ==> r == b
  {
    if a.Some? then a else b
  }
}
