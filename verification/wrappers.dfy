/** Option and Result: the absent value and the error path, written out as data. */
module Wrappers {

  /** A value that may be missing (Python's None). */
  datatype Option<+T> = None | Some(value: T)

  /** A computation that either produced a value or raised an error with a message. */
  datatype Result<+T, +E> = Success(value: T) | Failure(error: E)
}
