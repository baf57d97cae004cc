/** Stock option type and the machine-word types shared by the models. */
module Prelude {
  datatype Option<+T> = None | Some(value: T)

  type Byte = b: int | 0 <= b < 256

  const TWO32 := 0x1_0000_0000

  /** A 32-bit register value. */
  type Word32 = w: int | 0 <= w < TWO32

  const TWO64 := 0x1_0000_0000_0000_0000

  type Word64 = w: int | 0 <= w < TWO64

  /** Truncation to 32 bits of a sum or difference, as the hardware and the C code do. */
  function Wrap32(x: int): (w: Word32) { x % TWO32 }
}
