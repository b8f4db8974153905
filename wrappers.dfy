/** Option and Result, used where the source returns null or throws. */
module Wrappers {

  /** A value that may be absent; `None` stands for the source's `null`. */
  datatype Option<+T> = None | Some(value: T)

  /** The outcome of an operation that may throw; `Err` carries the exception's kind and data. */
  datatype Result<+T, +E> = Ok(value: T) | Err(error: E)
}
