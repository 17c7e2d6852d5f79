/** Option and Result, shared by the product repository and the order workflow. */
module Wrappers {

  /** A value that may be absent, such as the result of a lookup that found nothing. */
  datatype Option<+T> = None | Some(value: T)

  /** Either the value an operation produced or the error it raised. */
  datatype Result<+T, +E> = Success(value: T) | Failure(error: E)
}
