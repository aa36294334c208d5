/** Optional values (Python's `None` next to a value) and results that may carry a raised error. */
module Wrappers {

  datatype Option<+T> = None | Some(value: T) {

    /** The value, or `default` when there is none. */
    function GetOr(default: T): T
    {
      match this
      case Some(v) => v
      case None => default
    }
  }

  /** A value, or the message of the exception raised instead. */
  datatype Result<+T> = Ok(value: T) | Err(error: string)
}
