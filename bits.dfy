/** Fixed-width machine values of the 6502 and its little-endian byte order.
    Bytes and words are bounded integers: every place where the emulator's
    native `u8`/`u16` arithmetic would wrap is guarded explicitly elsewhere. */
module Bits {

  /** An unsigned 8-bit value: a memory cell, the accumulator, an index register. */
  type Byte = b: int | 0 <= b < 0x100

  /** An unsigned 16-bit value: an address, the program counter, the stack pointer. */
  type Word = w: int | 0 <= w < 0x1_0000

  /** The low-order byte of a word (`data & 0xFF`). */
  function Lo(w: Word): Byte
  {
    w % 0x100
  }

  /** The high-order byte of a word (`data >> 8`). */
  function Hi(w: Word): Byte
  {
    w / 0x100
  }

  /** The word whose little-endian encoding is `lo` followed by `hi`
      (`lo | hi << 8`); splitting it gives the two bytes back. */
  function Join(lo: Byte, hi: Byte): (w: Word)
    ensures Lo(w) == lo && Hi(w) == hi
  {
    lo + 0x100 * hi
  }

  /** Joining the two bytes of a word gives the word back. */
  lemma SplitJoin(w: Word)
    ensures Join(Lo(w), Hi(w)) == w
  {
  }

  /** Bit 7 of a byte (`b & 0x80 > 0`). */
  predicate Bit7(b: Byte)
  {
    b >= 0x80
  }
}
