/** Optional values and results with an error, shared by every module of the model. */
module Wrappers {
  datatype Option<T> = None | Some(value: T)

  /** The value of a computation, or the exception it raises. */
  datatype Result<T, E> = Ok(value: T) | Err(error: E)
}
