/** Option and Result values, used for Python's `None` and for exceptions that a caller catches. */
module Wrappers {

  /** A value that may be missing: Python's `Optional[T]`, a SQL `NULL`, a JSON key that is absent. */
  datatype Option<+T> = None | Some(value: T)

  /** The outcome of an operation that either returns a value or raises an error. */
  datatype Result<+R, +E> = Success(value: R) | Failure(error: E)
}
