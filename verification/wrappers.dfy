/** Failure-carrying datatypes shared by the registry model. */
module Wrappers {

  /** A value that may be absent. */
  datatype Option<+T> = None | Some(value: T)

  /** Either a computed value or the error that prevented it. */
  datatype Result<+R, +E> = Success(value: R) | Failure(error: E)
}
