/** Optional values and results, used for JavaScript's `undefined`, Python's `None`
    and the exceptions the modelled code raises. */
module Wrappers {

  /** `None` stands for an absent value (`undefined`, `null`, a missing key). */
  datatype Option<+T> = None | Some(value: T) {

    /** The wrapped value, or `default` when absent. */
    function GetOr(default: T): T {
      match this
      case Some(v) => v
      case None => default
    }
  }

  /** `Failure` stands for an exception raised instead of a value returned. */
  datatype Result<+T, +E> = Success(value: T) | Failure(error: E)
}
