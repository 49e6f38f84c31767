/** Machine words: bit slices, bytes, and the number an unsigned or signed word stands for. */
module Words {

  type Byte = bv8
  type Word = bv32

  /** One bit of a word, as a word. */
  function TakeBit(bits: Word, pos: Word): Word
    requires pos < 32
  {
    (bits & (1 << pos)) >> pos
  }

  /** The bits `from..to` of a word (both included), moved down to bit 0. */
  function TakeBits(bits: Word, from: Word, to: Word): Word
    requires from <= to < 32
  {
    var mask := ((1 << (to - from + 1)) - 1) << from;
    (bits & mask) >> from
  }

  /** Byte `i` of a word, byte 0 being the least significant. */
  function ByteOf(w: Word, i: bv2): Byte {
    if i == 0 then (w & 0xFF) as Byte
    else if i == 1 then ((w >> 8) & 0xFF) as Byte
    else if i == 2 then ((w >> 16) & 0xFF) as Byte
    else (w >> 24) as Byte
  }

  /** Little-endian assembly of four bytes. */
  function Join(b3: Byte, b2: Byte, b1: Byte, b0: Byte): Word {
    (b3 as Word << 24) | (b2 as Word << 16) | (b1 as Word << 8) | b0 as Word
  }

  /** A field with the positions `ones` above it filled when `negative`. */
  function Widen(field: Word, negative: bool, ones: Word): Word {
    if negative then ones | field else field
  }

  predicate Negative(w: Word) {
    w & 0x8000_0000 != 0
  }

  /** Signed comparison of two words: flip the sign bits and compare unsigned. */
  predicate SignedLess(a: Word, b: Word) {
    if Negative(a) != Negative(b) then Negative(a) else a < b
  }

  /** Byte `i` of a word as a number. */
  function Digit(w: Word, i: bv2): (n: nat)
    ensures n < 0x100
  {
    ByteOf(w, i) as int
  }

  /** The unsigned number a word stands for, byte by byte. */
  function Value(w: Word): (n: nat)
    ensures n < 0x1_0000_0000
  {
    0x100_0000 * Digit(w, 3) + 0x1_0000 * Digit(w, 2) + 0x100 * Digit(w, 1) + Digit(w, 0)
  }

  /** The two's complement number a word stands for. */
  function Signed(w: Word): int {
    if Negative(w) then Value(w) - 0x1_0000_0000 else Value(w)
  }
}
