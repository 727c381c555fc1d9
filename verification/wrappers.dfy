/** Failure-carrying results used where the source panics or finds nothing. */
module Wrappers {

  datatype Option<+T> = None | Some(value: T)

  /** `Err` stands for a Rust `panic!`: the call does not return a value. */
  datatype Result<+T, +E> = Ok(value: T) | Err(error: E)
}
