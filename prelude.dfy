/** Machine types shared by the whole model. */
module Prelude {

  /** Rust's `u8`: the raw space number a client sends. */
  newtype u8 = x: int | 0 <= x < 0x100

  /** Rust's `Option<T>`. */
  datatype Option<+T> = None | Some(value: T)
}
