module Outcomes {
  /** The value of an operation, or the error it throws. */
  datatype Result<T, E> = Success(value: T) | Failure(error: E)
}
