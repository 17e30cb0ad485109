/** Result and Outcome datatypes for the source's error returns and thrown errors. */
module Wrappers {

  /** A computation that yields a value or fails with an error. */
  datatype Result<+T, +E> = Success(value: T) | Failure(error: E)

  /** A computation with no value that passes or fails with an error. */
  datatype Outcome<+E> = Pass | Fail(error: E)
}
