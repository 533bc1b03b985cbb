/** Failure-carrying values used throughout the model: Go's `(T, error)` pairs
    become `Result`, a bare `error` return becomes `Outcome`, and a nil-able
    value becomes `Option`. */
module Wrappers {

  datatype Option<+T> = None | Some(value: T)

  datatype Result<+R, +E> = Success(value: R) | Failure(error: E)

  /** A Go function that returns only `error`: nil is `Pass`. */
  datatype Outcome<+E> = Pass | Fail(error: E)
}
