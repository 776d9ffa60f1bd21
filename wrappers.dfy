/** Failure-compatible wrappers used throughout the model. */
module Wrappers {

  /** An optional value; the Go code's nil pointers and failed type assertions become None. */
  datatype Option<+T> = None | Some(value: T) {
    function GetOr(default: T): T {
      match this
      case Some(v) => v
      case None => default
    }
  }

  /** A value or an error, for the Go functions that return `(T, error)`. */
  datatype Result<+R, +E> = Success(value: R) | Failure(error: E)
}
