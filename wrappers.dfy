/** Option and Result values standing for Rust's `Option<T>` and `Result<T, E>`,
    and the unsigned 32-bit integers the program stores. */
module Wrappers {

  datatype Option<+T> = None | Some(value: T)

  datatype Result<+T, +E> = Ok(value: T) | Err(error: E)

  /** Rust's `u32`. */
  const U32_LIMIT: int := 0x1_0000_0000
  const U32_MAX: int := U32_LIMIT - 1

  type U32 = x: int | 0 <= x < U32_LIMIT
}
