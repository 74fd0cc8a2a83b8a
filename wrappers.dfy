/** Optional values and results that carry an error instead of raising it. */
module Wrappers {

  /** A value that may be absent (Python's `Optional[...]`). */
  datatype Option<+T> = None | Some(value: T)

  /** The outcome of an operation that may raise: its value, or the error it raises. */
  datatype Result<+T, +E> = Success(value: T) | Failure(error: E)
}
