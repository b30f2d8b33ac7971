/** Failure-carrying return values used across the model. */
module Wrappers {

  /** A possibly-absent value; `None` plays the role of a C null pointer. */
  datatype Option<+T> = None | Some(value: T)

  /** Either a value or the reason the computation stopped. */
  datatype Result<+T, +E> = Ok(value: T) | Err(error: E)
}
