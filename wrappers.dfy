/** Optional values and fallible results shared by every module of the model. */
module Wrappers {

  datatype Option<+T> = None | Some(value: T) {
    /** The wrapped value, or `default` when there is none (Rust's `unwrap_or`). */
    function GetOr(default: T): T {
      match this
      case Some(v) => v
      case None => default
    }
  }

  /** Either a value or the message of the error that was raised instead. */
  datatype Result<+T> = Ok(value: T) | Err(message: string)
}
