/** Optional values and results with an error side, used across the model. */
module Wrappers {
  /** `null`/`undefined` versus a present value. */
  datatype Option<+T> = None | Some(value: T)

  /** A value, or the error a call raised instead. */
  datatype Result<+T, +E> = Success(value: T) | Failure(error: E)
}
