/** Option and Result datatypes: the model's stand-in for Go's nil pointers and `error` returns. */
module Wrappers {

  /** A value that may be absent (a nil pointer, map or function in the source). */
  datatype Option<+T> = None | Some(value: T)

  /** Either a value or an error, for the Go functions that return `(value, error)`. */
  datatype Result<+T, +E> = Success(value: T) | Failure(error: E)
}
