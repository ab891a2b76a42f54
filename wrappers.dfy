/** Failure-carrying values shared by every module of the model. */
module Wrappers {

  /** Rust's `Option<T>`. */
  datatype Option<+T> = None | Some(value: T)

  /** Rust's `Result<T, E>`. */
  datatype Result<+T, +E> = Ok(value: T) | Err(error: E)

  /** The outcome of a computation that may panic: `Panic` carries the panic message. */
  datatype Outcome<+T> = Done(value: T) | Panic(message: string)
}
