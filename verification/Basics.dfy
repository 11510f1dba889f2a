/** Shared result types. */
module Basics {

  datatype Option<+T> = None | Some(value: T)

  datatype Result<+T, +E> = Ok(value: T) | Err(error: E)

  /** An opaque identifier: the modelled code only ever compares it for equality. */
  type Token = nat
}
