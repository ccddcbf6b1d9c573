/** Option and Result values used across the services in place of Go's
    (value, error) pairs. */
module Common {

  datatype Option<+T> = None | Some(value: T)

  datatype Result<+T, +E> = Success(value: T) | Failure(error: E)
}
