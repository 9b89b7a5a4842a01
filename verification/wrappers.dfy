/** Optional values and results, standing in for `undefined` fields and early returns. */
module Wrappers {

  /** A value that may be absent (`undefined` in the source). */
  datatype Option<+T> = None | Some(value: T) {

    /** The carried value, or `default` when absent. */
    function GetOr(default: T): T {
      match this
      case Some(v) => v
      case None => default
    }
  }

  /** The outcome of an operation that either succeeds with a value or stops with an error. */
  datatype Result<+R, +E> = Success(value: R) | Failure(error: E)
}
