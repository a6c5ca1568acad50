/** Failure-carrying wrappers shared by every module of the model. */
module Wrappers {

  /** A value that may be absent: a TypeScript `T | undefined` or `T | null`. */
  datatype Option<+T> = None | Some(value: T)

  /** The outcome of an operation that may throw: `Success` or the error it throws. */
  datatype Result<+R, +E> = Success(value: R) | Failure(error: E)
}
