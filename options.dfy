/** Optional values and results with an error alternative. */
module Options {

  /** A value that may be absent (Python's `None`). */
  datatype Option<+T> = None | Some(value: T)

  /** Either a value or the exception an operation raised instead. */
  datatype Result<+R, +E> = Success(value: R) | Failure(error: E)
}
