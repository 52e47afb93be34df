/** Option, Result and Outcome: the error paths of the handlers, instead of exceptions. */
module Wrappers {

  datatype Option<+T> = None | Some(value: T)

  /** The value produced by an operation, or the error it raised. */
  datatype Result<+R, +E> = Ok(value: R) | Err(error: E)

  /** A check that either passes or raises an error. */
  datatype Outcome<+E> = Pass | Fail(error: E)
}
