/** The optional value and the value-or-error used throughout the model. */
module Wrappers {

  datatype Option<+T> = None | Some(value: T)

  /** `Ok` for a computed value, `Err` where the source raises an exception. */
  datatype Result<+T, +E> = Ok(value: T) | Err(error: E)
}
