/** Bytes and machine words as numbers. */
module Bytes {
  type Byte = b: int | 0 <= b < 256

  const WORD_LIMIT: nat := 0x1_0000_0000_0000_0000

  /** A 64-bit value. */
  type Word = w: int | 0 <= w < WORD_LIMIT

  const INT32: int := 0x8000_0000

  /** A little-endian number. */
  function LittleEndian(bs: seq<Byte>): nat {
    if |bs| == 0 then 0 else (bs[0] as int) + 256 * LittleEndian(bs[1..])
  }
}
