/** Failure-carrying values standing for Go's `(value, error)` and `error` returns. */
module Results {

  datatype Option<+T> = None | Some(value: T)

  /** A value or the error that replaced it. */
  datatype Result<+T, +E> = Ok(value: T) | Err(error: E)

  /** Success or an error, for Go functions that return only `error`. */
  datatype Outcome<+E> = Pass | Fail(error: E)
}
