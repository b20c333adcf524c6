/** Option and the error-carrying result used in place of thrown exceptions. */
module Wrappers {

  datatype Option<+T> = None | Some(value: T) {

    /** The wrapped value, or `default` when there is none. */
    function GetOr(default: T): T {
      match this
      case Some(v) => v
      case None => default
    }
  }

  /** The outcome of a computation that either returns a value or throws an `Error(message)`. */
  datatype Result<+T> = Ok(value: T) | Err(message: string)
}
