/** Failure-carrying values used in place of Go's `(value, error)` pairs and nil pointers. */
module Wrappers {

  /** A value that may be absent: Go's nil pointer or nil error. */
  datatype Option<+T> = None | Some(value: T)

  /** Either a value or an error, as returned by a Go function `(T, error)`. */
  datatype Result<+T, +E> = Success(value: T) | Failure(error: E)
}
