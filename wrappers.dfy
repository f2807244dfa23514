/** Option and Result, the failure-carrying values used across the model. */
module Wrappers {

  datatype Option<+T> = None | Some(value: T)

  /** `Failure` stands for an exception the source raises to its caller. */
  datatype Result<+R, +E> = Success(value: R) | Failure(error: E)
}
