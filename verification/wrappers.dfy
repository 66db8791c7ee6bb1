/** Failure-compatible wrappers shared by every module of the model. */
module Wrappers {

  /** A value that may be absent: JavaScript's `T | null`. */
  datatype Option<+T> = None | Some(value: T)

  /** The outcome of an operation that may throw: a value or an error. */
  datatype Result<+T, +E> = Success(value: T) | Failure(error: E)
}
