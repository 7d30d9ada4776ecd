/** Failure-carrying wrappers used throughout the model. */
module Results {

  /** A value that may be absent, as Python's `None` for an optional argument. */
  datatype Option<+T> = None | Some(value: T)

  /** Either a value or the error that aborted the computation. */
  datatype Result<+T, +E> = Success(value: T) | Failure(error: E)
}
