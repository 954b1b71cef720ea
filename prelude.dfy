/** Shared constants and the error-carrying datatypes used across the model. */
module Prelude {

  /** Board dimensions (xiangqi/src/prelude.rs). */
  const FILES: nat := 9
  const RANKS: nat := 10

  /** The 64-bit unsigned modulus used wherever the source wraps a `u64` or casts to `usize`. */
  const U64: int := 0x1_0000_0000_0000_0000

  datatype Option<+T> = None | Some(value: T)

  /** The source's fallible conversions all fail with one uniform `Error` value. */
  datatype Result<+T> = Ok(value: T) | Err
}
