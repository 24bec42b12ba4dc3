/** Types shared by all modules. */
module Wrappers {

  datatype Option<+T> = None | Some(value: T)

  datatype Result<+T, +E> = Ok(value: T) | Err(error: E)

  /** Addresses of accounts; zero is the zero address. */
  type Address = nat
}
