/** Optional values and success/failure results shared by the model. */
module Wrappers {

  /** A value that may be absent: JavaScript's `undefined` (or `null`) versus a present value. */
  datatype Option<+T> = None | Some(value: T)

  /** The outcome of an operation that either produces a value or fails with an error. */
  datatype Result<+R, +E> = Success(value: R) | Failure(error: E)
}
