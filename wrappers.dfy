/** Java's `null` and thrown exceptions, made explicit. */
module Wrappers {
  /** A reference that may be `null`. */
  datatype Option<T> = None | Some(value: T)

  /** A computation that either returns a value or throws. */
  datatype Result<T, E> = Ok(value: T) | Err(error: E)
}
