/** Error-carrying results for operations that throw in the original program. */
module Wrappers {

  /** The outcome of an operation that either completes or raises an error. */
  datatype Outcome<+E> = Pass | Fail(error: E)

  /** A value, or the error that was raised instead of producing it. */
  datatype Result<+T, +E> = Ok(value: T) | Err(error: E)

  datatype Option<+T> = None | Some(value: T)
}
