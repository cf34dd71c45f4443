/** Optional values and the outcome of operations that may throw. */
module Wrappers {

  /** A value that may be missing; stands for a Java reference that may be null. */
  datatype Option<+T> = None | Some(value: T)

  /** The value of an operation that returns normally or throws `error`. */
  datatype Result<+R, +E> = Success(value: R) | Failure(error: E)

  /** The outcome of a `void` operation that returns normally or throws `error`. */
  datatype Outcome<+E> = Pass | Fail(error: E)
}
