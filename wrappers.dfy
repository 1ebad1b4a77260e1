/** Option and Result values used for the error paths of every modelled component. */
module Wrappers {

  datatype Option<+T> = None | Some(value: T)

  /** A computation that either produced a value or raised the named error. */
  datatype Result<+T, +E> = Ok(value: T) | Err(error: E)
}
