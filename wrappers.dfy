/** Optional values and results with an error message, as used throughout the printer model. */
module Wrappers {

  /** A value that may be absent (a TypeScript `?` property or `null`). */
  datatype Option<+T> = None | Some(value: T) {
    function GetOr(default: T): T {
      match this
      case Some(v) => v
      case None => default
    }
  }

  /** The outcome of an operation that may throw an `Error` with a message. */
  datatype Result<+R> = Success(value: R) | Failure(error: string)
}
