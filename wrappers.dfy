/** Optional values and failing computations, shared by every module. */
module Wrappers {

  /** A value that may be absent (`undefined` in the system). */
  datatype Option<+T> = None | Some(value: T)

  /** The outcome of an operation that can throw: a value, or the error's message. */
  datatype Result<+T, +E> = Ok(value: T) | Err(error: E)
}
