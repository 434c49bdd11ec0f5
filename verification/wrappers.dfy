/** Optional values and results with an error, as used throughout the model. */
module Wrappers {

  /** A value that may be absent: a registry field that is missing, empty or
      did not coerce. */
  datatype Option<+T> = None | Some(value: T) {

    /** The value, or `default` when absent. */
    function GetOr(default: T): T {
      match this
      case Some(v) => v
      case None => default
    }

    /** This option when present, otherwise `other` (first-available-wins). */
    function OrElse(other: Option<T>): Option<T> {
      if Some? then this else other
    }
  }

  /** Either a value or an error that aborts the operation. */
  datatype Result<+T, +E> = Success(value: T) | Failure(error: E)
}
