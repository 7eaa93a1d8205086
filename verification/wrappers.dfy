/** Failure-compatible wrappers used across the model. */
module Wrappers {

  /** An optional value: a dict key that may be missing, a JSON field that may be null. */
  datatype Option<+T> = None | Some(value: T)

  /** Either a value or an error description. */
  datatype Result<+R, +E> = Success(value: R) | Failure(error: E)
}
