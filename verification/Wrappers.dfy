module Wrappers {

  datatype Option<+T> = None | Some(value: T)

  /** The source's `Result`, over the error type of each component. */
  datatype Result<+T, +E> = Ok(value: T) | Err(error: E)
}
