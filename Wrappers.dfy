/** Option and Result, the failure-carrying wrappers used throughout the model. */
module Wrappers {

  datatype Option<+T> = None | Some(value: T)

  /** A value, or the reason it could not be produced (a Python exception). */
  datatype Result<+T, +E> = Success(value: T) | Failure(error: E)
}
