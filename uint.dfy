/** Fixed-width unsigned integers used by the machine record: values that
    the interpreter only compares, reduces and stores are modelled as bounded
    integers; bytes that it masks or XORs stay bit-vectors (`bv8`, `bv16`). */
module Uint {
  newtype u8 = b: int | 0 <= b < 0x100
  newtype u16 = w: int | 0 <= w < 0x1_0000
}
