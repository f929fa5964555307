/** Result shapes shared by every component. */
module Wrappers {

  datatype Option<+T> = None | Some(value: T)

  /** An operation that either returns a value or refuses with a reason. */
  datatype Result<+T, +E> = Ok(value: T) | Err(error: E)
}
