/** Failure-carrying result types shared by the codecs. */
module Wrappers {

  /** A value that may be absent; `None` plays the part of Python's `None`. */
  datatype Option<+T> = None | Some(value: T)

  /** The outcome of an operation that either produces a value or reports why it could not. */
  datatype Result<+R, +E> = Success(value: R) | Failure(error: E)
}
