/** Small failure-carrying datatypes shared by every model in this project. */
module Wrappers {

  /** An optional value (Rust `Option`, a Go reference that may be nil). */
  datatype Option<+T> = None | Some(value: T)

  /** A value or an error (Rust `Result`, a Go `(value, error)` pair). */
  datatype Result<+T, +E> = Ok(value: T) | Err(error: E)
}
