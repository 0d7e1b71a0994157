/** Failure-carrying return types shared by every module of the model:
    the source's exceptions and error exits become Failure/Fail values. */
module Wrappers {

  datatype Option<+T> = None | Some(value: T)

  datatype Result<+R, +E> = Success(value: R) | Failure(error: E)

  /** A result without a value: the operation either passed or failed with an error. */
  datatype Outcome<+E> = Pass | Fail(error: E)
}
