/** Failure-carrying wrappers used across the model. */
module Wrappers {
  /** A value that may be absent; `None` also stands for Go's `nil`. */
  datatype Option<+T> = None | Some(value: T)

  /** A library call that yields a value or an error. */
  datatype Result<+T, +E> = Success(value: T) | Failure(error: E)
}
