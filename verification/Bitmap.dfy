/** The free-block bitmap (balloc's search and bfree's update in fs.c): bit b % BPB of bitmap block
    b / BPB is set exactly when block b is in use.  A bitmap block is its sequence of BPB bits. */
module Bitmap {

  const BSIZE := 512
  const BPB := BSIZE * 8

  type BitBlock = seq<bool>

  predicate Covers(bits: seq<BitBlock>, b: nat) {
    b / BPB < |bits| && |bits[b / BPB]| == BPB
  }

  predicate IsUsed(bits: seq<BitBlock>, b: nat) {
    Covers(bits, b) && bits[b / BPB][b % BPB]
  }

  function WithBit(bits: seq<BitBlock>, b: nat, x: bool): seq<BitBlock>
    requires Covers(bits, b)
  {
    bits[b / BPB := bits[b / BPB][b % BPB := x]]
  }

  lemma Position(b: nat, c: nat)
    requires b / BPB == c / BPB && b % BPB == c % BPB
    ensures b == c
  {
    assert b == BPB * (b / BPB) + b % BPB && c == BPB * (c / BPB) + c % BPB;
  }

  lemma WithBitAt(bits: seq<BitBlock>, b: nat, x: bool, c: nat)
    requires Covers(bits, b)
    ensures Covers(WithBit(bits, b, x), c) <==> Covers(bits, c)
    ensures IsUsed(WithBit(bits, b, x), c) <==> if b == c then x else IsUsed(bits, c)
  {
    if b / BPB == c / BPB && b % BPB == c % BPB { Position(b, c); }
  }

  lemma Within(b: nat, bi: nat)
    requires b % BPB == 0 && bi < BPB
    ensures (b + bi) / BPB == b / BPB && (b + bi) % BPB == bi
  {
    assert b + bi == BPB * (b / BPB) + bi;
  }

  lemma Next(b: nat)
    requires b % BPB == 0
    ensures (b + BPB) % BPB == 0
  {
    assert b + BPB == BPB * (b / BPB + 1);
  }

  /** balloc's inner loop: the first free bit of one bitmap block, or BPB or the end. */
  method ScanBlock(bits: seq<BitBlock>, size: nat, b: nat) returns (bi: nat)
    requires b < size && b % BPB == 0 && Covers(bits, b)
    ensures bi <= BPB && b + bi <= size
    ensures forall c :: b <= c < b + bi ==> IsUsed(bits, c)
    ensures bi == BPB || b + bi == size || !IsUsed(bits, b + bi)
  {
    var block := bits[b / BPB];
    bi := 0;
    while bi < BPB && b + bi < size
      invariant bi <= BPB && b + bi <= size && forall c :: b <= c < b + bi ==> IsUsed(bits, c)
    {
      Within(b, bi);
      if !block[bi] { return; }
      bi := bi + 1;
    }
  }

  /** balloc's search: the first free block, or `size` where the kernel panics. */
  method FindFree(bits: seq<BitBlock>, size: nat) returns (r: nat)
    requires forall c: nat :: c < size ==> Covers(bits, c)
    ensures r <= size && forall c :: 0 <= c < r ==> IsUsed(bits, c)
    ensures r < size ==> !IsUsed(bits, r)
  {
    var b := 0;
    while b < size
      invariant b % BPB == 0 && forall c :: 0 <= c < b && c < size ==> IsUsed(bits, c)
    {
      var bi := ScanBlock(bits, size, b);
      if bi < BPB && b + bi < size { return b + bi; }
      Next(b);
      b := b + BPB;
    }
    return size;
  }
}
