/** The failure-carrying values the model uses in place of Rust's `Option`
    and `anyhow::Result`. */
module Wrappers {

  /** Rust's `Option`. */
  datatype Option<+T> = None | Some(value: T) {

    /** The carried value, or `default` when there is none (`unwrap_or`). */
    function GetOr(default: T): T {
      match this
      case Some(v) => v
      case None => default
    }
  }

  /** A call that either produces a value or fails with an error. */
  datatype Result<+T, +E> = Success(value: T) | Failure(error: E)

  /** A call that produces nothing on success (`Result<()>`). */
  datatype Outcome<+E> = Pass | Fail(error: E)
}
