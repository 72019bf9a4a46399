/** Failure-carrying datatypes shared by the three wrappers. */
module Wrappers {

  /** An optional value, as Python's `Optional[...]`. */
  datatype Option<+T> = None | Some(value: T)

  /** A value or the error that replaced it. */
  datatype Result<+T, +E> = Success(value: T) | Failure(error: E)

  /** Completion without a value (a Python call returning `None`) or an error. */
  datatype Outcome<+E> = Pass | Fail(error: E)
}
