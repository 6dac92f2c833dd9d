/** Optional values and success-or-error results shared by every module. */
module Outcomes {

  /** A value that may be absent (a JSON field that is missing or null). */
  datatype Option<+T> = None | Some(value: T)

  /** The outcome of an operation that can fail with an error of type E. */
  datatype Result<+T, +E> = Ok(value: T) | Err(error: E)
}
