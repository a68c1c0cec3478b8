/** Option and Result, used for the values the Python code may or may not produce. */
module Wrappers {

  datatype Option<+T> = None | Some(value: T)

  /** The outcome of a step that either completes or stops with a reason. */
  datatype Result<+T, +E> = Ok(value: T) | Err(error: E)
}
