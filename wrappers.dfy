/** Option and Result values, standing in for Java's Optional and thrown exceptions. */
module Wrappers {

  datatype Option<+T> = None | Some(value: T)

  /** The outcome of an operation that either succeeds or throws. */
  datatype Result<+T, +E> = Ok(value: T) | Err(error: E)
}
