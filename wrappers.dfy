/** Failure-compatible wrappers used by every stage of the rule pipeline. */
module Wrappers {

  datatype Option<+T> = None | Some(value: T) {
    function GetOr(default: T): T {
      match this
      case Some(v) => v
      case None => default
    }
  }

  /** A computation that yields a value or the error that aborted it. */
  datatype Result<+R, +E> = Success(value: R) | Failure(error: E)

  /** A computation that yields nothing or the error that aborted it. */
  datatype Outcome<+E> = Pass | Fail(error: E)
}
