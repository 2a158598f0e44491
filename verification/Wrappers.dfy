/** The two failure-carrying datatypes the other modules share. */
module Wrappers {

  /** Python's `None`, a Go map miss, or a value. */
  datatype Option<+T> = None | Some(value: T) {
    function GetOr(default: T): T {
      match this
      case Some(v) => v
      case None => default
    }
  }

  /** A normal return or a raised exception. */
  datatype Result<+T, +E> = Ok(value: T) | Err(error: E)
}
