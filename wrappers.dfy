/** Option and Result, the two failure-carrying datatypes the model uses. */
module Wrappers {

  /** A value that may be missing (JavaScript's `undefined` where it matters). */
  datatype Option<+T> = None | Some(value: T)

  /** The outcome of a step that may throw: a value, or the thrown error's message. */
  datatype Result<+T, +E> = Ok(value: T) | Err(error: E)
}
