/** The Option and Result datatypes used across the model. */
module Wrappers {

  /** An optional value: `None` plays the role of Python's `None` argument. */
  datatype Option<+T> = None | Some(value: T)

  /** The outcome of an operation that may raise. */
  datatype Result<+T, +E> = Success(value: T) | Failure(error: E)
}
