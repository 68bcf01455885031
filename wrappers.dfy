/** Option and Result, the two failure-carrying shapes used across the model:
    Go's `(value, ok)` and `(value, error)` returns, and TypeScript's `null`/`undefined`. */
module Wrappers {

  datatype Option<+T> = None | Some(value: T)

  datatype Result<+T, +E> = Ok(value: T) | Err(error: E)
}
