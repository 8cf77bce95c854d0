/** Failure-carrying values used across the model. */
module Wrappers {

  /** A value that may be absent: a C# reference that may be null. */
  datatype Option<+T> = None | Some(value: T)

  /** The outcome of an operation that may throw: a value or the exception raised. */
  datatype Result<+T, +E> = Success(value: T) | Failure(error: E)
}
