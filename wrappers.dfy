/** Failure-compatible wrappers used in place of the source's exceptions and std::optional. */
module Wrappers {

  /** std::optional: a value or nothing. */
  datatype Option<+T> = None | Some(value: T)

  /** A value or the error the source would have thrown. */
  datatype Result<+T, +E> = Success(value: T) | Failure(error: E)

  /** A call that returns nothing in the source but may throw. */
  datatype Outcome<+E> = Pass | Fail(error: E)
}
