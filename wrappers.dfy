/** Failure-carrying values shared by every module: Go's `(value, error)` pairs and values that may be nil. */
module Wrappers {

  /** A value that may be missing (a nil `*T` or a nil error in Go). */
  datatype Option<+T> = None | Some(value: T)

  /** A value or the error that replaced it. */
  datatype Result<+T, +E> = Ok(value: T) | Err(error: E)
}
