/** The `Option` and `Result` datatypes used throughout the model. */
module Wrappers {

  /** A value that may be absent (Python's `None` as a return value). */
  datatype Option<+T> = None | Some(value: T)

  /** The outcome of an operation that either returns a value or raises an error. */
  datatype Result<+R, +E> = Success(value: R) | Failure(error: E)
}
