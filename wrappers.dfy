/** Wrappers shared by the model: Kotlin's nullable values
    become Option, and an operation that either completes or throws becomes
    an Outcome carrying the exception message. */
module Wrappers {

  datatype Option<+T> = None | Some(value: T) {
    /** Kotlin's `?: default` / `orEmpty()`. */
    function GetOr(default: T): (r: T)
      ensures Some? ==> r == value
      ensures None? ==> r == default
    {
      match this
      case Some(v) => v
      case None => default
    }
  }

  /** An operation that returns normally (Pass) or throws (Fail, with the message). */
  datatype Outcome<+E> = Pass | Fail(error: E)

  /** A value, or the message of the exception raised instead. */
  datatype Result<+T, +E> = Ok(value: T) | Err(error: E)
}
