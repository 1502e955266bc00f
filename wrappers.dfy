/** Failure-carrying values used in place of null pointers and C++ exceptions. */
module Wrappers {

  datatype Option<+T> = None | Some(value: T) {
    function GetOr(default: T): T {
      match this
      case Some(v) => v
      case None => default
    }
  }

  datatype Result<+R, +E> = Success(value: R) | Failure(error: E)

  /** A result that carries no value on success. */
  datatype Outcome<+E> = Pass | Fail(error: E)
}
