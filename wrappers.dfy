/** Nullable values and the outcome of an operation that may throw. */
module Wrappers {
  /** A C# reference that may be null. */
  datatype Option<T> = None | Some(value: T)

  /** The value an operation returns, or the exception it throws. */
  datatype Result<T, E> = Success(value: T) | Failure(error: E)

  /** The outcome of an operation that returns nothing but may throw. */
  datatype Outcome<E> = Pass | Fail(error: E)
}
