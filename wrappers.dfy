/** Failure-carrying values shared by the calculator modules. */
module Wrappers {

  /** A value that may be missing; stands for JavaScript's `null`. */
  datatype Option<+T> = None | Some(value: T)

  /** The outcome of a computation that can fail with an error value. */
  datatype Result<+T, +E> = Success(value: T) | Failure(error: E)
}
