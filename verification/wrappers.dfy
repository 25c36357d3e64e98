/** Failure-carrying results, used wherever the source throws or returns "nothing". */
module Wrappers {

  datatype Option<+T> = None | Some(value: T)

  /** The value of a computation that either returns `value` or throws `error`. */
  datatype Result<+T, +E> = Success(value: T) | Failure(error: E)
}
