/** Success/failure values standing in for Go's `(value, error)` returns. */
module Wrappers {

  datatype Option<+T> = None | Some(value: T)

  /** A value or an error, as a Go function returning `(T, error)`. */
  datatype Result<+T, +E> = Ok(value: T) | Err(error: E)

  /** Success or an error, as a Go function returning only `error`. */
  datatype Outcome<+E> = Pass | Fail(error: E)
}
