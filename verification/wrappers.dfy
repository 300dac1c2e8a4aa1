/** Failure-carrying datatypes used to model Python's raised exceptions as values. */
module Wrappers {

  /** A value that may be absent (Python's `None`, SQL's empty fetch). */
  datatype Option<+T> = None | Some(value: T)

  /** Either the value an operation returns or the error it raises. */
  datatype Result<+T, +E> = Success(value: T) | Failure(error: E)

  /** The outcome of an operation that returns nothing but may raise. */
  datatype Outcome<+E> = Pass | Fail(error: E)
}
