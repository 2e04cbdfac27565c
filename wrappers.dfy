/** Option and Outcome: absence of a value, and success or failure of an operation. */
module Wrappers {

  datatype Option<+T> = None | Some(value: T) {
    function GetOr(default: T): T {
      match this
      case Some(v) => v
      case None => default
    }
  }

  /** Either a value or the error the source throws. */
  datatype Result<+R, +E> = Success(value: R) | Failure(error: E)

  /** An operation without a value that either completes or throws. */
  datatype Outcome<+E> = Pass | Fail(error: E)
}
