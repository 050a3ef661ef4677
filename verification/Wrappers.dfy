/** The two failure-compatible datatypes that the models share. */
module Wrappers {

  /** A value that may be missing (Python's None). */
  datatype Option<+T> = None | Some(value: T)

  /** A returned value, or the error that was raised instead. */
  datatype Result<+T, +E> = Ok(value: T) | Err(error: E)
}
