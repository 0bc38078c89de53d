/** Failure-carrying values: an optional value and a value-or-error. */
module Wrappers {

  datatype Option<+T> = None | Some(value: T)

  /** The Go pair (value, error) of a backend call: exactly one side is present. */
  datatype Result<+T, +E> = Ok(value: T) | Err(error: E)
}
