/** Failure-compatible wrappers shared by every module of the model. */
module Wrappers {

  /** A value that may be missing (the source's `null`). */
  datatype Option<+T> = None | Some(value: T)

  /** The outcome of an operation that either yields a value or fails with an error. */
  datatype Result<+T, +E> = Ok(value: T) | Err(error: E)
}
