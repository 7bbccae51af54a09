/** The optional-value and outcome datatypes used by every other module. */
module Results {

  /** A value that may be absent (Python's `Optional`, or a `find_one` that matched nothing). */
  datatype Option<+T> = None | Some(value: T)

  /** A handler's outcome: the value it returns, or the error it raises. */
  datatype Result<+T, +E> = Success(value: T) | Failure(error: E)
}
