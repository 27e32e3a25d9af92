/** Failure-carrying results: the model's stand-in for Python exceptions. */
module Wrappers {

  datatype Option<+T> = None | Some(value: T)

  /** A computation that either produced a value or raised. */
  datatype Result<+R, +E> = Success(value: R) | Failure(error: E)

  /** A computation that either completed or raised, with no value. */
  datatype Outcome<+E> = Pass | Fail(error: E)
}
