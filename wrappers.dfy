/** Failure-carrying results: the model's stand-in for Java exceptions. */
module Wrappers {

  datatype Option<+T> = None | Some(value: T)

  /** A computation that either returns a value or fails with an error. */
  datatype Result<+T, +E> = Ok(value: T) | Err(error: E)

  /** A check that either passes silently (a `void` method returning) or fails. */
  datatype Outcome<+E> = Pass | Fail(error: E)
}
