/** Option and Result, the two failure-carrying value types the model uses. */
module Wrappers {

  /** A value that may be absent (JavaScript's `undefined` or `NaN`). */
  datatype Option<+T> = None | Some(value: T)

  /** The outcome of an operation that resolves with a value or rejects with an error. */
  datatype Result<+R, +E> = Success(value: R) | Failure(error: E)
}
