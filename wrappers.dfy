/** Option and Result, the failure-carrying values the rest of the model returns. */
module Wrappers {

  datatype Option<+T> = None | Some(value: T)

  datatype Result<+T, +E> = Ok(value: T) | Err(error: E)

  /** What a Rust expression that may `panic!` evaluates to. */
  datatype Checked<+T> = Returns(value: T) | Panics
}
