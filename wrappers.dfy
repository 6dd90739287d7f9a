/** Option and Result, the two shapes the core uses for "maybe absent" and "may fail". */
module Wrappers {

  /** A dictionary lookup that may find nothing (Python's `None`). */
  datatype Option<+T> = None | Some(value: T) {
    function GetOr(default: T): T {
      match this
      case Some(v) => v
      case None => default
    }
  }

  /** The value of a computation, or the exception it raised. */
  datatype Result<+R, +E> = Success(value: R) | Failure(error: E)
}
