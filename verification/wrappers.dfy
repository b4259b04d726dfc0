/** Failure-carrying datatypes shared by every module of the model:
    the `Option`, `Result` and "unit result" shapes of the Rust source. */
module Wrappers {

  /** Rust's `Option<T>`. */
  datatype Option<+T> = None | Some(value: T)

  /** Rust's `Result<T, E>`. */
  datatype Result<+T, +E> = Ok(value: T) | Err(error: E)

  /** Rust's `Result<(), E>`: a check that passes or fails with an error. */
  datatype Outcome<+E> = Pass | Fail(error: E)
}
