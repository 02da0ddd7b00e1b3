/** Option and Result datatypes shared by every module of the model. */
module Wrappers {

  datatype Option<+T> = None | Some(value: T) {
    function GetOr(default: T): T {
      match this
      case Some(v) => v
      case None => default
    }
  }

  /** A Python function that either returns a value or raises; `error` names the exception. */
  datatype Result<+T, +E> = Ok(value: T) | Err(error: E)
}
