/** Failure-carrying wrappers used throughout the model. */
module Wrappers {

  /** A possibly-absent value (Java's Optional). */
  datatype Option<+T> = None | Some(value: T)

  /** A value, or the exception that was thrown instead of returning it. */
  datatype Result<+R, +E> = Success(value: R) | Failure(error: E)

  /** Normal completion of a void call, or the exception it threw. */
  datatype Outcome<+E> = Pass | Fail(error: E)
}
