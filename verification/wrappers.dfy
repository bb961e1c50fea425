/** Option and Result, the two failure-carrying shapes the model needs. */
module Wrappers {

  /** A value that may be absent, such as an unset TLS setting or a failed random read. */
  datatype Option<+T> = None | Some(value: T)

  /** A value or the error that prevented it, such as Go's `(T, error)` pair
      when exactly one of the two is meaningful. */
  datatype Result<+T, +E> = Success(value: T) | Failure(error: E)
}
