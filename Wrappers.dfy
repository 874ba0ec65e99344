/** Failure-compatible wrappers used throughout the model: an optional value
    and a result that carries either a value or an error. */
module Wrappers {

  datatype Option<+T> = None | Some(value: T) {

    /** The wrapped value, or `default` when there is none. */
    function GetOr(default: T): T {
      match this
      case Some(v) => v
      case None => default
    }
  }

  /** `Err` stands for a run of the generator that stops with a message
      (a `sys.exit` or an uncaught exception). */
  datatype Result<+T, +E> = Ok(value: T) | Err(error: E)
}
