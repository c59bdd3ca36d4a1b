/** The absent-or-present value of a lookup, and the success-or-error value of a check. */
module Wrappers {
  datatype Option<+T> = None | Some(value: T)

  datatype Result<+T, +E> = Success(value: T) | Failure(error: E)
}
