/** Failure-compatible wrappers shared by every module of the model. */
module Wrappers {

  /** A value that may be absent: a JSON `null`, a missing dictionary key,
      a lookup that failed. */
  datatype Option<+T> = None | Some(value: T) {
    function GetOr(default: T): T {
      match this
      case Some(v) => v
      case None => default
    }
  }

  /** Either a value or the reason the source would have stopped. */
  datatype Result<+R, +E> = Ok(value: R) | Err(error: E)
}
