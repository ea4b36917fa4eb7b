/** Option and Result values used for the nullable fields and error returns of the system. */
module Wrappers {

  /** A JavaScript value that may be `null` or `undefined` (None) or present (Some). */
  datatype Option<+T> = None | Some(value: T) {
    /** `x ?? d` */
    function GetOr(default: T): T {
      match this
      case Some(v) => v
      case None => default
    }
  }

  /** The outcome of an operation that either returns a value or throws an error with a message. */
  datatype Result<+R, +E> = Success(value: R) | Failure(error: E)
}
