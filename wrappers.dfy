/** Optional values and results shared by the other modules. */
module Wrappers {

  /** A value that may be missing, like a JavaScript slot that reads as `undefined`. */
  datatype Option<+T> = None | Some(value: T)

  /** The outcome of an operation that can fail with an error of type E. */
  datatype Result<+T, +E> = Ok(value: T) | Err(error: E)
}
