/** Failure-carrying wrappers used across the model. */
module Wrappers {

  /** A value that may be absent: JavaScript's `undefined` for an optional field. */
  datatype Option<+T> = None | Some(value: T)

  /** A value, or the exception the source would throw instead of producing it. */
  datatype Result<+T, +E> = Ok(value: T) | Err(error: E)
}
