/** Failure-compatible result types shared by the other modules. */
module Wrappers {

  /** A value that may be absent: Python's `None` or a value. */
  datatype Option<+T> = None | Some(value: T)

  /** Either a value or the error that a step raised. */
  datatype Result<+R, +E> = Success(value: R) | Failure(error: E)
}
