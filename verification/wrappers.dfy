/** Failure-carrying results shared by the whole model: Go's `(value, error)`
    pairs and nil-able pointers become these datatypes. */
module Wrappers {

  /** A value that may be absent (Go's nil pointer). */
  datatype Option<+T> = None | Some(value: T)

  /** Go's `(value, err)` return pair: exactly one of the two is meaningful. */
  datatype Result<+R, +E> = Success(value: R) | Failure(error: E) {

    /** The value on success, `default` on failure (Go callers that ignore
        `err` and use the nil value that came with it). */
    function GetOr(default: R): R {
      match this
      case Success(v) => v
      case Failure(_) => default
    }
  }

  /** A bare `error` return: nil (`Pass`) or an error value. */
  datatype Outcome<+E> = Pass | Fail(error: E)
}
