/** Failure-compatible wrappers used across the model. */
module Wrappers {

  /** A value that may be missing: a dictionary key that is not set, an
      option that was not given on the command line, a path with no file. */
  datatype Option<+T> = None | Some(value: T)

  /** The outcome of a step that can fail with an error value. */
  datatype Result<+R, +E> = Success(value: R) | Failure(error: E)
}
