/** Failure-carrying return values shared by the whole model. */
module Wrappers {

  /** A value that may be absent. */
  datatype Option<+T> = None | Some(value: T)

  /** Either a result or the reason there is none. */
  datatype Result<+T, +E> = Success(value: T) | Failure(error: E)
}
