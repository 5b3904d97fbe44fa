/** Failure-carrying return types shared by the session modules. */
module Wrappers {

  datatype Option<+T> = None | Some(value: T)

  /** Either a value or the reason the computation stopped. */
  datatype Result<+T, +E> = Ok(value: T) | Err(error: E)
}
