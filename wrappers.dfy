/** Optional values and error-carrying results used throughout the model. */
module Wrappers {
  /** A C# nullable reference or value: `None` is `null`. */
  datatype Option<T> = None | Some(value: T)
  {
    function GetOr(default: T): (r: T)
      ensures Some? ==> r == value
      ensures None? ==> r == default
    {
      match this
      case None => default
      case Some(v) => v
    }
  }

  /** A computation that either yields a value or raises the exception `error`. */
  datatype Result<T, E> = Success(value: T) | Failure(error: E)

  /** A statement that either completes or raises the exception `error`. */
  datatype Outcome<E> = Pass | Fail(error: E)
}
