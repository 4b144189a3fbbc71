/** Failure-carrying result types used throughout the model.

    Python signals "no value" with `None` and failure with an exception that
    some enclosing `try` turns into a fallback string; the model makes both
    explicit: `Option` for `None`, `Result` for a raised exception.
 */
module Wrappers {

  /** A Python value that may be `None`. */
  datatype Option<+T> = None | Some(value: T) {

    /** The wrapped value, or `default` when there is none (Python's `x or default`
        for values that are never falsy). */
    function GetOr(default: T): T {
      match this
      case Some(v) => v
      case None => default
    }
  }

  /** The outcome of Python code that may raise: `Ok` with the value it returned,
      or `Err` with the exception it raised. */
  datatype Result<+T, +E> = Ok(value: T) | Err(error: E)
}
