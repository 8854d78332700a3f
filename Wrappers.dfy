/** Option and Result, shared by the modules of this model. */
module Wrappers {

  /** A value that may be missing: Java's nullable reference. */
  datatype Option<+T> = None | Some(value: T)

  /** The outcome of an operation that can fail with an exception or a configuration error. */
  datatype Result<+T, +E> = Ok(value: T) | Err(error: E)
}
