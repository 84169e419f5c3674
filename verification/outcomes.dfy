/** Failure-aware value types shared by the whole model: an optional value
    (pandas' NaN / Python's None) and a success-or-error result (a raised exception). */
module Outcomes {

  /** A value that may be missing. */
  datatype Option<+T> = None | Some(value: T)

  /** Either a computed value or the error that replaced it. */
  datatype Result<+T, +E> = Success(value: T) | Failure(error: E)
}
