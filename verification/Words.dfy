/** Blocks of bytes, and the little-endian 32-bit words an indirect block holds. */
module Words {
  import opened Machine

  type Block = seq<Byte>

  function Word(b: Block, k: nat): (w: nat)
    requires 4 * k + 4 <= |b|
    ensures w < UINT
  {
    (b[4 * k] as int) + 0x100 * (b[4 * k + 1] as int)
      + 0x1_0000 * (b[4 * k + 2] as int) + 0x100_0000 * (b[4 * k + 3] as int)
  }

  function WithWord(b: Block, k: nat, v: nat): Block
    requires 4 * k + 4 <= |b| && v < UINT
  {
    b[4 * k := v % 0x100][4 * k + 1 := v / 0x100 % 0x100]
      [4 * k + 2 := v / 0x1_0000 % 0x100][4 * k + 3 := v / 0x100_0000]
  }

  lemma Digits(v: nat)
    ensures v == v % 0x100 + 0x100 * (v / 0x100 % 0x100)
      + 0x1_0000 * (v / 0x1_0000 % 0x100) + 0x100_0000 * (v / 0x100_0000)
  {
    assert v / 0x1_0000 == v / 0x100 / 0x100 && v / 0x100_0000 == v / 0x100 / 0x100 / 0x100;
  }

  lemma WithWordAt(b: Block, k: nat, v: nat, m: nat)
    requires 4 * k + 4 <= |b| && 4 * m + 4 <= |b| && v < UINT
    ensures Word(WithWord(b, k, v), m) == if m == k then v else Word(b, m)
  {
    if m == k { Digits(v); }
  }

  function Zeroed(n: nat): Block { seq(n, i => 0) }

  lemma ZeroWord(n: nat, k: nat)
    requires 4 * k + 4 <= n
    ensures Word(Zeroed(n), k) == 0
  {
  }
}
