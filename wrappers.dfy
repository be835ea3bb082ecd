/** Optional values: JavaScript's `null`/`undefined` beside a present value. */
module Wrappers {

  datatype Option<+T> = None | Some(value: T)

  /** The outcome of an operation that may throw: its value, or the error message. */
  datatype Result<+T> = Success(value: T) | Failure(error: string)

  /** The identifiers held by an optional handle, as a set (empty for `None`). */
  function Handles<T>(o: Option<T>): (s: set<T>)
    ensures o.None? ==> s == {}
    ensures o.Some? ==> s == {o.value}
  {
    match o
    case None => {}
    case Some(x) => {x}
  }
}
