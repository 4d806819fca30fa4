/** Instruction-word field extraction (src/decoder.rs).

    A CHIP-8 instruction is a 16-bit word written as four nibbles, e.g. `Dxyn`
    or `6xkk`. The source takes each field with one mask and one shift; here
    the word is an unsigned 16-bit integer and each field is the same bits
    taken by division and remainder. `MasksAgree` proves that these are
    exactly the source's masks and shifts on the 16-bit word. */
module Decoder {
  import Arith
  import opened Uint

  /** The class bits `op & 0xF000`, on which `execute` dispatches: the word
      rounded down to a multiple of 0x1000. */
  function Class(op: u16): (r: u16)
    ensures r as int % 0x1000 == 0 && r as int <= op as int < r as int + 0x1000
  {
    (op as int / 0x1000 * 0x1000) as u16
  }

  /** `x`: bits 8-11, the first register operand. */
  function X(op: u16): (r: nat)
    ensures r < 16
  {
    (op as int / 0x100) % 0x10
  }

  /** `y`: bits 4-7, the second register operand. */
  function Y(op: u16): (r: nat)
    ensures r < 16
  {
    (op as int / 0x10) % 0x10
  }

  /** `kk`: the low byte, an 8-bit immediate. */
  function KK(op: u16): (r: u8)
    ensures (op as int - r as int) % 0x100 == 0
  {
    (op as int % 0x100) as u8
  }

  /** `nnn`: the low twelve bits, an address or 12-bit immediate. */
  function NNN(op: u16): (r: u16)
    ensures r < 0x1000
  {
    (op as int % 0x1000) as u16
  }

  /** `n`: the low nibble, the sprite height of `Dxyn`. */
  function N(op: u16): (r: u8)
    ensures r < 16
  {
    (op as int % 0x10) as u8
  }

  /** The four nibbles of a word, named so that the lemmas below can say
      which bits each field takes. */
  lemma Digits(op: u16) returns (a: int, b: int, c: int, d: int)
    ensures 0 <= a < 16 && 0 <= b < 16 && 0 <= c < 16 && 0 <= d < 16
    ensures op as int == a * 4096 + b * 256 + c * 16 + d
    ensures op as int / 4096 == a && (op as int / 256) % 16 == b
    ensures (op as int / 16) % 16 == c && op as int % 16 == d
    ensures op as int % 256 == c * 16 + d && op as int % 4096 == b * 256 + c * 16 + d
  {
    var w := op as int;
    var low12 := w % 4096;
    var low8 := low12 % 256;
    a, b, c, d := w / 4096, low12 / 256, low8 / 16, low8 % 16;
    assert w == a * 4096 + low12 && low12 == b * 256 + low8 && low8 == c * 16 + d;
    Arith.Digits(w, a, b, c, d);
  }

  /** The wider fields are built from the narrower ones: `nnn == x*256 + kk`,
      `kk == y*16 + n`, and the word is its class bits plus `nnn`. */
  lemma FieldsNest(op: u16)
    ensures NNN(op) as int == X(op) * 256 + KK(op) as int
    ensures KK(op) as int == Y(op) * 16 + N(op) as int
    ensures op as int == Class(op) as int + NNN(op) as int
  {
    var a, b, c, d := Digits(op);
  }

  /** The nibbles of a 16-bit word as masks and shifts. */
  lemma Nibbles(w: bv16)
    ensures (w >> 12) < 16 && ((w & 0xF00) >> 8) < 16 && ((w & 0xF0) >> 4) < 16 && (w & 0xF) < 16
    ensures w as int == (w >> 12) as int * 4096 + ((w & 0xF00) >> 8) as int * 256
                        + ((w & 0xF0) >> 4) as int * 16 + (w & 0xF) as int
  {
  }

  /** Wider masks of a 16-bit word in terms of its nibbles. */
  lemma Masks(w: bv16)
    ensures (w & 0xFF) as int == ((w & 0xF0) >> 4) as int * 16 + (w & 0xF) as int
    ensures (w & 0xFFF) as int == ((w & 0xF00) >> 8) as int * 256 + ((w & 0xF0) >> 4) as int * 16 + (w & 0xF) as int
    ensures (w & 0xF000) as int == (w >> 12) as int * 4096
  {
  }

  /** A word given by its four nibbles has those nibbles as its fields. */
  lemma FieldsOf(op: u16, a: int, b: int, c: int, d: int)
    requires 0 <= a < 16 && 0 <= b < 16 && 0 <= c < 16 && 0 <= d < 16
    requires op as int == a * 4096 + b * 256 + c * 16 + d
    ensures Class(op) as int == a * 4096 && X(op) == b && Y(op) == c && N(op) as int == d
    ensures KK(op) as int == c * 16 + d && NNN(op) as int == b * 256 + c * 16 + d
  {
    Arith.Digits(op as int, a, b, c, d);
  }

  /** Each extractor takes exactly the bits that the source's mask and shift
      take from the 16-bit word. */
  lemma MasksAgree(w: bv16)
    ensures Class(w as int as u16) as int == (w & 0xF000) as int
    ensures X(w as int as u16) == ((w & 0xF00) >> 8) as int
    ensures Y(w as int as u16) == ((w & 0x00F0) >> 4) as int
    ensures KK(w as int as u16) as int == (w & 0x00FF) as int
    ensures NNN(w as int as u16) as int == (w & 0xFFF) as int
    ensures N(w as int as u16) as int == (w & 0x000F) as int
  {
    Nibbles(w);
    var a, b, c, d := (w >> 12) as int, ((w & 0xF00) >> 8) as int, ((w & 0xF0) >> 4) as int, (w & 0xF) as int;
    FieldsOf(w as int as u16, a, b, c, d);
    Masks(w);
  }
}
