/** Failure-carrying results used across the model: a missing value (`Option`)
    and a computation that either succeeds or names what went wrong (`Result`). */
module Wrappers {

  datatype Option<+T> = None | Some(value: T)

  datatype Result<+R, +E> = Success(value: R) | Failure(error: E)
}
