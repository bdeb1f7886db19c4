/** Failure-compatible wrappers used by the encoder model. */
module Wrappers {

  /** An optional value: a Go nil pointer, or "nothing appended". */
  datatype Option<+T> = None | Some(value: T)

  /** The `(value, error)` pair of a Go function that either succeeds or fails. */
  datatype Result<+R, +E> = Success(value: R) | Failure(error: E)
}
