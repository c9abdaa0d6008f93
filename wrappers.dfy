/** Optional values and results, standing for Python's `None`-or-value fields and raised errors. */
module Wrappers {

  datatype Option<+T> = None | Some(value: T) {

    /** The value, or `default` when there is none. */
    function GetOr(default: T): T {
      match this
      case Some(v) => v
      case None => default
    }
  }

  /** A value, or the message of the error that was raised instead. */
  datatype Result<+T> = Ok(value: T) | Err(message: string)
}
