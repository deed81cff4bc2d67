/** Failure-carrying return values: Go's `(value, error)` pairs and `err == nil` tests. */
module Wrappers {

  /** A value or nothing: a library call whose only failure information is `err != nil`. */
  datatype Option<+T> = None | Some(value: T)

  /** A value or an error message. */
  datatype Result<+R, +E> = Success(value: R) | Failure(error: E)
}
