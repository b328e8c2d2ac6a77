/** Option and Result, the two failure-carrying datatypes the model uses. */
module Wrappers {

  datatype Option<+T> = None | Some(value: T)

  /** `Failure` carries the text of the exception the source would raise. */
  datatype Result<+R, +E> = Success(value: R) | Failure(error: E)
}
