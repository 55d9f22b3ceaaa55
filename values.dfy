/** Optional values and results, for partial foreign functions and failing steps. */
module Values {

  /** A value that may be absent: a parse that yields NaN, an invalid Date, a thrown TypeError. */
  datatype Option<+T> = None | Some(value: T)

  /** The outcome of a step that either produces a value or fails with an error. */
  datatype Result<+T, +E> = Success(value: T) | Failure(error: E)
}
