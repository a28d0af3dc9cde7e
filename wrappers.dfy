/** Failure-aware result types shared by the driver model. */
module Wrappers {

  datatype Option<+T> = None | Some(value: T)

  /** A value, or the error a Python call would have raised instead. */
  datatype Result<+T, +E> = Success(value: T) | Failure(error: E)

  /** Pass, or the error a Python call would have raised. */
  datatype Outcome<+E> = Pass | Fail(error: E)
}
