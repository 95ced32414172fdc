/** Failure-carrying wrappers shared by both engine generations. */
module Wrappers {

  /** Rust's `Option`. */
  datatype Option<+T> = None | Some(value: T)

  /** Rust's `Result<T, Failed>`: a propagator either fails the space or returns a value. */
  datatype Result<+T> = Ok(value: T) | Failed
}
