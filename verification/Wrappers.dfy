/** The two failure-carrying datatypes every other module uses. */
module Wrappers {
  datatype Option<+T> = None | Some(value: T)

  /** A value, or the exception the tool raises instead of returning one. */
  datatype Result<+T, +E> = Ok(value: T) | Err(error: E)
}
