/** Bytes and unsigned 32-bit words. */
module Machine {

  type Byte = x: int | 0 <= x < 256

  /** Unsigned ints wrap at 2^32. */
  const UINT: int := 0x1_0000_0000

  function Min(a: int, b: int): int { if a < b then a else b }

  function Max(a: int, b: int): int { if a < b then b else a }
}
