/** Small failure-carrying datatypes used across the model. */
module Wrappers {

  /** A value that may be absent (a Python `None`, a key that is missing,
      a parse that raised). */
  datatype Option<+T> = None | Some(value: T) {
    function GetOr(default: T): T {
      match this
      case Some(v) => v
      case None => default
    }
  }

  /** The outcome of a check that either passes or raises with a message. */
  datatype Outcome<+E> = Pass | Fail(error: E)
}
