/** Failure-compatible wrappers shared by every module of the model. */
module Base {

  /** A value that may be absent; stands for Python's `X | None`. */
  datatype Option<+T> = None | Some(value: T)

  /** The outcome of an operation that may raise: a value, or the error it raised. */
  datatype Result<+T, +E> = Success(value: T) | Failure(error: E)
}
