/** The optional value and the outcome-with-error used throughout the model. */
module Wrappers {
  /** A value that may be absent: `T | null`, or an optional field. */
  datatype Option<+T> = None | Some(value: T)

  /** A value or the error that was thrown instead. */
  datatype Result<+T, +E> = Success(value: T) | Failure(error: E)
}
