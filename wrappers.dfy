/** Option, Result and Outcome: the error paths of the codecs and of DCCLMessageVal. */
module Wrappers {

  datatype Option<+T> = None | Some(value: T) {
    /** The value, or the given default when there is none. */
    function GetOr(default: T): T {
      match this
      case Some(v) => v
      case None => default
    }
  }

  /** A value, or the error that a C++ `throw` would have raised. */
  datatype Result<+T, +E> = Ok(value: T) | Err(error: E)

  /** The outcome of a `validate()`: it passes, or fails with a message. */
  datatype Outcome<+E> = Pass | Fail(error: E)
}
