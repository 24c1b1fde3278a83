/** Failure-carrying results: `Option` for lookups and parsers, `Result` for the Go `(value, error)` pairs. */
module Wrappers {

  datatype Option<+T> = None | Some(value: T)

  datatype Result<+T, +E> = Ok(value: T) | Err(error: E)
}
