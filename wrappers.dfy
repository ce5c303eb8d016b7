/** Failure-compatible result types used across the model. */
module Wrappers {

  /** An optional value; `None` is JavaScript's `null` "no result". */
  datatype Option<+T> = None | Some(value: T)

  /** A value or the error a thrown exception carried. */
  datatype Result<+R, +E> = Success(value: R) | Failure(error: E)

  /** The outcome of a check that returns nothing but may throw. */
  datatype Outcome<+E> = Pass | Fail(error: E)
}
