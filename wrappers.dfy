/** Optional values and error-carrying results, shared by the other modules. */
module Wrappers {

  /** A JSON field that may be absent (or null): `None`, or present with a value. */
  datatype Option<+T> = None | Some(value: T)

  /** The outcome of a step that can fail with an error value. */
  datatype Result<+T, +E> = Ok(value: T) | Err(error: E)
}
