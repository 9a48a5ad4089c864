/** Option and Result types used for the bot's error outcomes. */
module Wrappers {

  datatype Option<+T> = None | Some(value: T)

  /** `Err` stands for a Python exception escaping a handler. */
  datatype Result<+T, +E> = Ok(value: T) | Err(error: E)
}
