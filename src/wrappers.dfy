/** Option and Result values shared by the other modules. */
module Wrappers {

  /** A value that may be missing (an empty spreadsheet cell, a failed parse). */
  datatype Option<+T> = None | Some(value: T) {
    /** The value, or `default` when there is none. */
    function GetOr(default: T): T {
      match this
      case Some(v) => v
      case None => default
    }
  }

  /** The outcome of a step that may raise an error. */
  datatype Result<+T, +E> = Success(value: T) | Failure(error: E)
}
