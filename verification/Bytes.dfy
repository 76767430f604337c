/** Eight-bit bytes and 64-bit machine words. */
module Bytes {
  type Byte = x: int | 0 <= x < 256

  /** One more than the largest `size_t`. */
  const WORD: nat := 0x1_0000_0000_0000_0000
}
