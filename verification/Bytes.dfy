/** Bytes as the programs see them: values 0..255; and the range of a 32-bit word. */
module Bytes {
  type byte = x: int | 0 <= x < 256

  const WORD := 0x1_0000_0000
}
