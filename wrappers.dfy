/** Optional values and results shared by the modules of the model. */
module Wrappers {

  datatype Option<+T> = None | Some(value: T)

  /** The outcome of an operation that may raise one of the source's errors. */
  datatype Result<+T, +E> = Ok(value: T) | Err(error: E)
}
