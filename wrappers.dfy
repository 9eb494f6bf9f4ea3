/** Option, result and outcome wrappers used throughout the model. */
module Wrappers {

  /** A value that may be absent; used for Java references that may be `null`. */
  datatype Option<+T> = None | Some(value: T)

  /** The result of an operation that either yields a value or raises an error. */
  datatype Result<+T, +E> = Ok(value: T) | Err(error: E)

  /** The result of an operation that only has an effect: it completes or raises an error. */
  datatype Outcome<+E> = Pass | Fail(error: E)
}
