/** Option and Result: the Go code's `(value, error)` and nil-pointer conventions. */
module Wrappers {

  datatype Option<+T> = None | Some(value: T)

  datatype Result<+R, +E> = Success(value: R) | Failure(error: E)
}
