/** 32-bit integers. */
module Words {
  /** Conversion to 32 bits, two's complement. */
  function Wrap32(n: int): int {
    (n + 0x8000_0000) % 0x1_0000_0000 - 0x8000_0000
  }
}
