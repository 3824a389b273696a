/**
  Optional values and success/failure results, standing in for JavaScript's
  `undefined`/`null` results and for thrown errors.
 */
module Outcomes {

  /** A value that may be missing (`undefined` in the source). */
  datatype Option<+T> = None | Some(value: T)

  /** The outcome of a computation that may throw: its value or the error. */
  datatype Result<+R, +E> = Success(value: R) | Failure(error: E)
}
