/** Optional values and results with an error reason. */
module Wrappers {

  /** A value that may be missing: a document field that is absent or null. */
  datatype Option<+T> = None | Some(value: T)

  /** The outcome of a step that can fail with a reason. */
  datatype Result<+T, +E> = Ok(value: T) | Err(error: E)
}
