/** Option and Result values used across the model. */
module Wrappers {
  datatype Option<+T> = None | Some(value: T)

  /** A value or an error message, as the device service reports exceptions as strings. */
  datatype Result<+T> = Ok(value: T) | Err(message: string)
}
