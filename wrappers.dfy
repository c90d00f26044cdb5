/** Option and Result values shared by the modules of this model. */
module Wrappers {

  /** A value that may be absent (Python's Optional / None). */
  datatype Option<+T> = None | Some(value: T)

  /** The value of an operation that either succeeds or raises. */
  datatype Result<+T, +E> = Ok(value: T) | Err(error: E)
}
