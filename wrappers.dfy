/** Failure-carrying values used across the model: the source's `Option`,
    `Result` and its `?`/`unwrap` error paths become these. */
module Wrappers {

  datatype Option<+T> = None | Some(value: T)

  datatype Result<+T, +E> = Ok(value: T) | Err(error: E)
}
