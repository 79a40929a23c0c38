/** Option and Result: the model's stand-ins for `null` results and thrown errors. */
module Wrappers {

  /** `None` plays the role of the source's `null` (or "not found"). */
  datatype Option<+T> = None | Some(value: T)

  /** `Failure` plays the role of an exception thrown by the source. */
  datatype Result<+R, +E> = Success(value: R) | Failure(error: E)
}
