/** Failure-compatible wrappers used across the model: Python's `X | None`
    becomes `Option`, a raised exception becomes the failure side of `Result`
    or `Outcome`. */
module Wrappers {

  datatype Option<+T> = None | Some(value: T)

  datatype Result<+T, +E> = Success(value: T) | Failure(error: E)

  /** The result of an operation that returns nothing but may raise. */
  datatype Outcome<+E> = Pass | Fail(error: E)
}
