/** Option and Result, the wrappers used throughout the model. */
module Wrappers {

  /** `None` plays the part of a Java `null` reference. */
  datatype Option<+T> = None | Some(value: T)

  /** The outcome of an operation that the Java code would end by throwing. */
  datatype Result<+T, +E> = Success(value: T) | Failure(error: E)
}
