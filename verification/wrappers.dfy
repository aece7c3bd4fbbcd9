/** Failure-compatible wrappers shared by every module of the model. */
module Wrappers {

  /** An optional value: Python's `None` versus a present value. */
  datatype Option<+T> = None | Some(value: T)

  /** Either a computed value or the text of the exception that replaced it. */
  datatype Result<+R, +E> = Success(value: R) | Failure(error: E)
}
