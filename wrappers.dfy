/** Option and Result datatypes used by the routing model. */
module Wrappers {

  /** An optional value; `None` stands for Go's `nil` result. */
  datatype Option<+T> = None | Some(value: T)

  /** Either a value or an error, for the source's `(value, error)` returns. */
  datatype Result<+R, +E> = Success(value: R) | Failure(error: E)
}
