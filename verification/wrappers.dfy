/** Failure-carrying datatypes shared by the analyzer and the generator. */
module Wrappers {

  /** A value that may be absent, as Python's `None`. */
  datatype Option<+T> = None | Some(value: T)

  /** Either a value or an error message, as a call that may raise. */
  datatype Result<+R, +E> = Success(value: R) | Failure(error: E)
}
