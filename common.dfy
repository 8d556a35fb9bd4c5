/** Rust's `Option` and `Result`, shared by the other modules. */
module Common {

  /** An optional value: Rust's `Option`. */
  datatype Option<+T> = None | Some(value: T)

  /** A value or an error: Rust's `Result`, with the error kept as its message. */
  datatype Result<+T, +E> = Ok(value: T) | Err(error: E)
}
