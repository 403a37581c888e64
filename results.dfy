/** Failure-carrying values standing for the exceptions the system raises. */
module Results {

  datatype Option<+T> = None | Some(value: T)

  /** Either a value or the error that a Python call would have raised. */
  datatype Result<+T, +E> = Success(value: T) | Failure(error: E)
}
