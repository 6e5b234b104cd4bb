/** Option and Result, the two failure-carrying shapes the rest of the model returns. */
module Wrappers {

  datatype Option<+T> = None | Some(value: T)

  /** A value, or the exception the modelled Python code would raise instead. */
  datatype Result<+T, +E> = Ok(value: T) | Err(error: E)
}
