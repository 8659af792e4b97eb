/** Option and Result values used for the adapter's "maybe" fields and error returns. */
module Wrappers {

  datatype Option<+T> = None | Some(value: T)

  /** A Go `(value, error)` pair with exactly one side meaningful. */
  datatype Result<+R, +E> = Success(value: R) | Failure(error: E)
}
