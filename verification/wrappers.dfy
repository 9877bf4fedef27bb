/** The Option and Result datatypes used throughout the model. */
module Wrappers {

  /** An optional value: a nullable field of a task record. */
  datatype Option<+T> = None | Some(value: T)

  /** The outcome of a computation that either yields a value or raises an error. */
  datatype Result<+R, +E> = Success(value: R) | Failure(error: E)
}
