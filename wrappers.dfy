/** PHP's `null` and thrown exceptions, as values. */
module Wrappers {

  /** A value that may be PHP `null`. */
  datatype Option<+T> = None | Some(value: T)

  /** The outcome of a call that either returns a value or throws. */
  datatype Result<+T, +E> = Success(value: T) | Failure(error: E)
}
