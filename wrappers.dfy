/** Failure-carrying result types used in place of the source's exceptions
    and nullable returns. */
module Wrappers {

  /** A value that may be absent (Python's `None`). */
  datatype Option<+T> = None | Some(value: T)

  /** Either the validated value or the error a validator would raise. */
  datatype Result<+R, +E> = Success(value: R) | Failure(error: E)

  /** Pass, or the error a check would raise; for checks that return nothing. */
  datatype Outcome<+E> = Pass | Fail(error: E)
}
