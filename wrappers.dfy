/** Option and Result values shared by the other modules. */
module Wrappers {

  /** A JSON value that may be null or missing. */
  datatype Option<+T> = None | Some(value: T)

  /** A computation that either yields a value or throws an error. */
  datatype Result<+T, +E> = Success(value: T) | Failure(error: E)
}
