/** Option and Result, the two failure-carrying value types the rest of the model uses. */
module Wrappers {

  datatype Option<+T> = None | Some(value: T)

  /** A value or a failure; the error type is chosen by the user of the module. */
  datatype Result<+T, +E> = Ok(value: T) | Err(error: E)
}
