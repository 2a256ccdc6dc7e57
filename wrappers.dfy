/** Failure-compatible wrappers shared by every module of the model. */
module Wrappers {

  /** A value that may be absent: Python's None, JavaScript's null/undefined. */
  datatype Option<+T> = None | Some(value: T) {
    function GetOr(default: T): T {
      match this
      case Some(v) => v
      case None => default
    }
  }

  /** A handler's outcome: the value it returns or the error it reports. */
  datatype Result<+R, +E> = Ok(value: R) | Err(error: E)
}
