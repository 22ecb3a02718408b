/** Bytes, unsigned 32-bit words and the optional value shared by every component. */
module Bytes {

  type byte = x: int | 0 <= x < 256

  /** The number of values of a C `unsigned int`. */
  const WORD: int := 0x1_0000_0000

  type u32 = x: int | 0 <= x < WORD

  /** The value an unsigned 32-bit variable holds after being assigned `x`. */
  function Wrap32(x: int): u32 {
    x % WORD
  }

  datatype Option<+T> = None | Some(value: T)
}
