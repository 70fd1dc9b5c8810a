/** Failure-carrying result and optional-value datatypes used by the model. */
module Wrappers {

  /** `None` or `Some(value)`. */
  datatype Option<+T> = None | Some(value: T)

  /** Either a successful value or the error that aborted the computation. */
  datatype Result<+R, +E> = Success(value: R) | Failure(error: E)
}
