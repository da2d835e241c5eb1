/** Failure-carrying datatypes shared by the other modules. */
module Wrappers {

  /** A value that may be absent. */
  datatype Option<+T> = None | Some(value: T)

  /** Either a computed value or the error that the source would raise instead. */
  datatype Result<+T, +E> = Ok(value: T) | Err(error: E)
}
