/** Failure-compatible wrappers shared by every module of the model. */
module Wrappers {

  /** A value that may be absent: Go's nil pointer or missing map entry. */
  datatype Option<+T> = None | Some(value: T)

  /** The outcome of a Go call that returns `(T, error)`. */
  datatype Result<+T, +E> = Ok(value: T) | Err(error: E)
}
