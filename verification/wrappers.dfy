/** Option and Result, used across the clipboard model. */
module Wrappers {

  /** An optional value: the clipboard slot is either empty or holds one payload. */
  datatype Option<+T> = None | Some(value: T)

  /** The outcome of an operation that can fail with an error of type `E`. */
  datatype Result<+T, +E> = Success(value: T) | Failure(error: E)
}
