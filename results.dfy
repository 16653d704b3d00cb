/** Optional values and the outcome of a call that may raise. */
module Results {

  /** A value that may be absent (Python's `None`). */
  datatype Option<+T> = None | Some(value: T)

  /** A call either raises an exception or returns a value. */
  datatype Outcome<+T> = Raised | Returned(value: T)
}
