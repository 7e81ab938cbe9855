/** Optional values and results with an error, used wherever the source has
    `undefined`/`null` or reports a failure instead of a value. */
module Wrappers {

  /** `Some(v)` for a present value, `None` for `undefined` or `null`. */
  datatype Option<+T> = None | Some(value: T) {

    /** The value, or `default` when absent (the source's `x ?? default`). */
    function GetOr(default: T): T {
      match this
      case Some(v) => v
      case None => default
    }
  }

  /** Either a value or an error. */
  datatype Result<+R, +E> = Success(value: R) | Failure(error: E)
}
