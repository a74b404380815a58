/** Failure-carrying datatypes shared by the DB option handling and the Java index client. */
module Outcomes {

  /** An optional value: `None` plays the part of a Go nil pointer or nil interface. */
  datatype Option<+T> = None | Some(value: T)

  /** Either a value or an error, never both: the Go pair `(value, err)` with exactly one of them meaningful. */
  datatype Result<+T, +E> = Ok(value: T) | Err(error: E)
}
