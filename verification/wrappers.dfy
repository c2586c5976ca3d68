/** Optional values and results with an error, used in place of `null` and thrown errors. */
module Wrappers {

  /** A value that may be absent (JavaScript `null`). */
  datatype Option<+T> = None | Some(value: T)

  /** The outcome of a handler that may throw. */
  datatype Result<+T, +E> = Success(value: T) | Failure(error: E)
}
