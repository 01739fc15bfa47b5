/** Failure-carrying values used where the C++ code throws or returns a null pointer. */
module Wrappers {

  /** A value that may be absent (a null pointer, an unset edge, an empty callback). */
  datatype Option<+T> = None | Some(value: T)

  /** The outcome of an operation that either yields a value or raises an error. */
  datatype Result<+T, +E> = Success(value: T) | Failure(error: E)
}
