/** Failure-carrying values shared by the models of igor and minimega. */
module Wrappers {

  /** A value that may be absent (a Go lookup or call that can fail without detail). */
  datatype Option<+T> = None | Some(value: T)

  /** A Go `(value, error)` pair: exactly one side is meaningful. */
  datatype Result<+T, +E> = Success(value: T) | Failure(error: E)
}
