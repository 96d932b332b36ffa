/** Inode contents over disk blocks (balloc, bfree, bmap, itrunc, readi and writei in fs.c, and
    filewrite in file.c).  The device branch of readi and writei is not part of this model. */
module Files {
  import opened Bitmap
  import opened Machine
  import opened Words

  const NDIRECT := 12
  const NINDIRECT := 128
  const MAXFILE := NDIRECT + NINDIRECT

  /** The slot of the indirect block itself; slots below it are data blocks in file order. */
  const IND := MAXFILE

  datatype Inode = Inode(size: nat, addrs: seq<nat>)

  datatype Owner = Nobody | At(i: nat, j: nat)

  /** `owner` is auxiliary: the inode slot that holds each block. */
  datatype State = State(bits: seq<BitBlock>, disk: seq<Block>, inodes: seq<Inode>, owner: seq<Owner>)

  ghost predicate Shaped(s: State) {
    && |s.owner| == |s.disk| < UINT
    && (forall b: nat :: b < |s.disk| ==> Covers(s.bits, b) && |s.disk[b]| == BSIZE)
    && (forall i :: 0 <= i < |s.inodes| ==> |s.inodes[i].addrs| == NDIRECT + 1)
  }

  /** The block number in slot j of inode i, 0 if there is none. */
  ghost function Addr(s: State, i: nat, j: nat): nat
    requires Shaped(s) && i < |s.inodes| && j <= IND
  {
    var a := s.inodes[i].addrs;
    if j < NDIRECT then a[j]
    else if j == IND then a[NDIRECT]
    else if a[NDIRECT] == 0 || a[NDIRECT] >= |s.disk| then 0
    else Word(s.disk[a[NDIRECT]], j - NDIRECT)
  }

  /** Metadata blocks are in use; a data block is in use exactly when a slot holds it. */
  ghost predicate BlockOk(s: State, ds: nat, b: nat)
    requires Shaped(s) && b < |s.disk|
  {
    && (IsUsed(s.bits, b) <==> b < ds || s.owner[b].At?)
    && (s.owner[b].At? ==>
        && ds <= b && s.owner[b].i < |s.inodes| && s.owner[b].j <= IND
        && Addr(s, s.owner[b].i, s.owner[b].j) == b)
  }

  ghost predicate SlotOk(s: State, ds: nat, i: nat, j: nat)
    requires Shaped(s) && i < |s.inodes| && j <= IND
  {
    var b := Addr(s, i, j);
    b != 0 ==> ds <= b < |s.disk| && s.owner[b] == At(i, j)
  }

  /** Block conservation: the blocks in use are the metadata and the disjoint blocks of the inodes. */
  ghost predicate Owned(s: State, ds: nat) {
    && Shaped(s) && 0 < ds <= |s.disk|
    && (forall b: nat :: b < |s.disk| ==> BlockOk(s, ds, b))
    && (forall i: nat, j: nat :: i < |s.inodes| && j <= IND ==> SlotOk(s, ds, i, j))
  }

  /** Block b belongs to inode i. */
  ghost predicate Holds(s: State, i: nat, b: nat)
    requires Shaped(s) && i < |s.inodes|
  {
    b != 0 && exists j: nat :: j <= IND && Addr(s, i, j) == b
  }

  lemma HoldsOwner(s: State, ds: nat, i: nat, b: nat)
    requires Owned(s, ds) && i < |s.inodes| && b < |s.disk|
    ensures Holds(s, i, b) <==> s.owner[b].At? && s.owner[b].i == i
    ensures s.owner[b].At? ==> s.owner[b].j <= IND
  {
    assert BlockOk(s, ds, b);
    if Holds(s, i, b) {
      var j: nat :| j <= IND && Addr(s, i, j) == b;
      assert SlotOk(s, ds, i, j);
    }
  }

  /** Two slots hold one block. */
  ghost predicate SameBlock(s: State, i: nat, j: nat, k: nat, m: nat)
    requires Shaped(s)
  {
    && i < |s.inodes| && j <= IND && k < |s.inodes| && m <= IND
    && Addr(s, i, j) == Addr(s, k, m) != 0
  }

  /** Conservation without the auxiliary owner: a block is in use exactly when it is metadata or
      some inode holds it, and no two slots hold one block. */
  lemma Conservation(s: State, ds: nat)
    requires Owned(s, ds)
    ensures forall b: nat :: b < |s.disk| ==>
      (IsUsed(s.bits, b) <==> b < ds || exists i: nat :: i < |s.inodes| && Holds(s, i, b))
    ensures forall b: nat, i: nat :: b < |s.disk| && i < |s.inodes| && Holds(s, i, b) ==> b >= ds
    ensures forall i: nat, j: nat, k: nat, m: nat :: SameBlock(s, i, j, k, m) ==> i == k && j == m
  {
    forall b: nat | b < |s.disk|
      ensures IsUsed(s.bits, b) <==> b < ds || exists i: nat :: i < |s.inodes| && Holds(s, i, b)
    {
      assert BlockOk(s, ds, b);
      forall i: nat | i < |s.inodes|
        ensures Holds(s, i, b) <==> s.owner[b].At? && s.owner[b].i == i
      {
        HoldsOwner(s, ds, i, b);
      }
      if s.owner[b].At? { assert Holds(s, s.owner[b].i, b); }
    }
    forall b: nat, i: nat | b < |s.disk| && i < |s.inodes| && Holds(s, i, b)
      ensures b >= ds
    {
      HoldsOwner(s, ds, i, b); assert BlockOk(s, ds, b);
    }
    forall i: nat, j: nat, k: nat, m: nat | SameBlock(s, i, j, k, m)
      ensures i == k && j == m
    {
      assert SlotOk(s, ds, i, j) && SlotOk(s, ds, k, m);
    }
  }

  // ---------- giving a block to a slot ----------

  ghost predicate Attachable(s: State, ds: nat, i: nat, j: nat, b: nat) {
    && Owned(s, ds) && i < |s.inodes| && j <= IND && Addr(s, i, j) == 0
    && ds <= b < |s.disk| && !IsUsed(s.bits, b)
    && (NDIRECT <= j < IND ==> Addr(s, i, IND) != 0)
  }

  function WithAddr(ino: Inode, k: nat, b: nat): Inode
    requires k < |ino.addrs|
  {
    ino.(addrs := ino.addrs[k := b])
  }

  /** balloc's block b, zeroed, stored in slot j of inode i. */
  ghost function Attach(s: State, ds: nat, i: nat, j: nat, b: nat): State
    requires Attachable(s, ds, i, j, b)
  {
    assert SlotOk(s, ds, i, IND);
    var disk := s.disk[b := Zeroed(BSIZE)];
    var ind := Addr(s, i, IND);
    State(WithBit(s.bits, b, true),
          if NDIRECT <= j < IND then disk[ind := WithWord(disk[ind], j - NDIRECT, b)] else disk,
          if j < NDIRECT then s.inodes[i := WithAddr(s.inodes[i], j, b)]
          else if j == IND then s.inodes[i := WithAddr(s.inodes[i], NDIRECT, b)] else s.inodes,
          s.owner[b := At(i, j)])
  }

  lemma AttachShaped(s: State, ds: nat, i: nat, j: nat, b: nat)
    requires Attachable(s, ds, i, j, b)
    ensures Shaped(Attach(s, ds, i, j, b))
  {
    forall c: nat | c < |s.disk| ensures Covers(WithBit(s.bits, b, true), c) { WithBitAt(s.bits, b, true, c); }
    assert SlotOk(s, ds, i, IND);
  }

  lemma AttachAddr(s: State, ds: nat, i: nat, j: nat, b: nat, k: nat, m: nat)
    requires Attachable(s, ds, i, j, b) && k < |s.inodes| && m <= IND
    ensures Shaped(Attach(s, ds, i, j, b))
    ensures Addr(Attach(s, ds, i, j, b), k, m) == if k == i && m == j then b else Addr(s, k, m)
  {
    AttachShaped(s, ds, i, j, b);
    assert SlotOk(s, ds, i, IND) && SlotOk(s, ds, k, IND);
    if NDIRECT <= m < IND {
      if Addr(s, k, IND) != 0 { assert BlockOk(s, ds, Addr(s, k, IND)); }
      if NDIRECT <= j < IND && k == i { WithWordAt(s.disk[Addr(s, i, IND)], j - NDIRECT, b, m - NDIRECT); }
      if k == i && j == IND { ZeroWord(BSIZE, m - NDIRECT); }
    }
  }

  lemma AttachOwned(s: State, ds: nat, i: nat, j: nat, b: nat)
    requires Attachable(s, ds, i, j, b)
    ensures Owned(Attach(s, ds, i, j, b), ds)
  {
    var t := Attach(s, ds, i, j, b);
    AttachShaped(s, ds, i, j, b);
    forall k: nat, m: nat | k < |s.inodes| && m <= IND ensures SlotOk(t, ds, k, m) {
      AttachAddr(s, ds, i, j, b, k, m);
      assert SlotOk(s, ds, k, m);
      if Addr(s, k, m) != 0 { assert BlockOk(s, ds, Addr(s, k, m)); }
    }
    forall c: nat | c < |s.disk| ensures BlockOk(t, ds, c) {
      assert BlockOk(s, ds, c);
      WithBitAt(s.bits, b, true, c);
      if s.owner[c].At? { AttachAddr(s, ds, i, j, b, s.owner[c].i, s.owner[c].j); }
      AttachAddr(s, ds, i, j, b, i, j);
    }
  }

  // ---------- writing into a data block ----------

  function Patched(b: Block, o: nat, data: seq<Byte>): Block
    requires o + |data| <= |b|
  {
    b[..o] + data + b[o + |data|..]
  }

  ghost predicate Patchable(s: State, ds: nat, i: nat, j: nat, o: nat, data: seq<Byte>) {
    Owned(s, ds) && i < |s.inodes| && j < IND && Addr(s, i, j) != 0 && o + |data| <= BSIZE
  }

  ghost function Patch(s: State, ds: nat, i: nat, j: nat, o: nat, data: seq<Byte>): State
    requires Patchable(s, ds, i, j, o, data)
  {
    assert SlotOk(s, ds, i, j);
    var a := Addr(s, i, j);
    s.(disk := s.disk[a := Patched(s.disk[a], o, data)])
  }

  lemma PatchAddr(s: State, ds: nat, i: nat, j: nat, o: nat, data: seq<Byte>, k: nat, m: nat)
    requires Patchable(s, ds, i, j, o, data) && k < |s.inodes| && m <= IND
    ensures Shaped(Patch(s, ds, i, j, o, data)) && Addr(Patch(s, ds, i, j, o, data), k, m) == Addr(s, k, m)
  {
    assert SlotOk(s, ds, i, j) && SlotOk(s, ds, k, IND);
  }

  lemma PatchMapped(s: State, ds: nat, i: nat, j: nat, o: nat, data: seq<Byte>, m: nat)
    requires Patchable(s, ds, i, j, o, data) && Mapped(s, i, m)
    ensures var t := Patch(s, ds, i, j, o, data); Shaped(t) && Mapped(t, i, m) && Addr(t, i, IND) == Addr(s, i, IND)
  {
    forall k: nat | k <= IND
      ensures Shaped(Patch(s, ds, i, j, o, data)) && Addr(Patch(s, ds, i, j, o, data), i, k) == Addr(s, i, k)
    {
      PatchAddr(s, ds, i, j, o, data, i, k);
    }
    PatchAddr(s, ds, i, j, o, data, i, IND);
  }

  lemma PatchOwned(s: State, ds: nat, i: nat, j: nat, o: nat, data: seq<Byte>)
    requires Patchable(s, ds, i, j, o, data)
    ensures Owned(Patch(s, ds, i, j, o, data), ds)
  {
    var t := Patch(s, ds, i, j, o, data);
    PatchAddr(s, ds, i, j, o, data, i, j);
    forall k: nat, m: nat | k < |s.inodes| && m <= IND ensures SlotOk(t, ds, k, m) {
      PatchAddr(s, ds, i, j, o, data, k, m);
      assert SlotOk(s, ds, k, m);
    }
    forall c: nat | c < |s.disk| ensures BlockOk(t, ds, c) {
      assert BlockOk(s, ds, c);
      if s.owner[c].At? { PatchAddr(s, ds, i, j, o, data, s.owner[c].i, s.owner[c].j); }
    }
  }

  // ---------- file bytes ----------

  /** Byte p of file i. */
  ghost function FileByte(s: State, i: nat, p: nat): Byte
    requires Shaped(s) && i < |s.inodes| && p < MAXFILE * BSIZE
  {
    var a := Addr(s, i, p / BSIZE);
    if a < |s.disk| then s.disk[a][p % BSIZE] else 0
  }

  lemma PatchByte(s: State, ds: nat, i: nat, j: nat, o: nat, data: seq<Byte>, k: nat, p: nat)
    requires Patchable(s, ds, i, j, o, data) && k < |s.inodes| && p < MAXFILE * BSIZE && Addr(s, k, p / BSIZE) != 0
    ensures Owned(Patch(s, ds, i, j, o, data), ds)
    ensures FileByte(Patch(s, ds, i, j, o, data), k, p)
      == if k == i && p / BSIZE == j && o <= p % BSIZE < o + |data| then data[p % BSIZE - o] else FileByte(s, k, p)
  {
    PatchOwned(s, ds, i, j, o, data);
    PatchAddr(s, ds, i, j, o, data, k, p / BSIZE);
    assert SlotOk(s, ds, i, j) && SlotOk(s, ds, k, p / BSIZE);
  }

  /** What bmap may change for slot j of inode i: that slot, the indirect block, nothing else. */
  ghost predicate Extends(s: State, t: State, i: nat, j: nat)
    requires Shaped(s) && Shaped(t) && i < |s.inodes| && j < IND
  {
    && |t.inodes| == |s.inodes| && |t.disk| == |s.disk|
    && (forall k :: 0 <= k < |s.inodes| && k != i ==> t.inodes[k] == s.inodes[k])
    && t.inodes[i].size == s.inodes[i].size
    && (forall k: nat, m: nat :: k < |s.inodes| && m <= IND && Addr(s, k, m) != 0 ==> Addr(t, k, m) == Addr(s, k, m))
    && (forall k: nat, m: nat :: k < |s.inodes| && m < IND && !(k == i && m == j) ==> Addr(t, k, m) == Addr(s, k, m))
    && (forall c :: 0 <= c < |s.disk| && s.owner[c].At? && s.owner[c].j != IND ==> t.disk[c] == s.disk[c])
  }

  lemma AttachExtends(s: State, ds: nat, i: nat, m: nat, b: nat, j: nat)
    requires Attachable(s, ds, i, m, b) && j < IND && (m == j || m == IND)
    ensures Owned(Attach(s, ds, i, m, b), ds) && Extends(s, Attach(s, ds, i, m, b), i, j)
  {
    AttachOwned(s, ds, i, m, b);
    var t := Attach(s, ds, i, m, b);
    forall k: nat, n: nat | k < |s.inodes| && n <= IND
      ensures Addr(t, k, n) == if k == i && n == m then b else Addr(s, k, n)
    {
      AttachAddr(s, ds, i, m, b, k, n);
    }
    assert SlotOk(s, ds, i, IND) && BlockOk(s, ds, b);
  }

  lemma ExtendsTwice(s: State, t: State, u: State, ds: nat, i: nat, j: nat)
    requires Owned(s, ds) && Owned(t, ds) && Owned(u, ds) && i < |s.inodes| && j < IND
    requires Extends(s, t, i, j) && Extends(t, u, i, j)
    ensures Extends(s, u, i, j)
  {
    forall c: nat | c < |s.disk| && s.owner[c].At? && s.owner[c].j != IND ensures u.disk[c] == s.disk[c] {
      assert BlockOk(s, ds, c);
      var o := s.owner[c];
      assert Addr(t, o.i, o.j) == c;
      assert SlotOk(t, ds, o.i, o.j);
    }
  }

  lemma ExtendsByte(s: State, t: State, ds: nat, i: nat, j: nat, k: nat, p: nat)
    requires Owned(s, ds) && Owned(t, ds) && i < |s.inodes| && j < IND && Extends(s, t, i, j)
    requires k < |s.inodes| && p < MAXFILE * BSIZE && Addr(s, k, p / BSIZE) != 0
    ensures FileByte(t, k, p) == FileByte(s, k, p)
  {
    assert SlotOk(s, ds, k, p / BSIZE);
  }

  // ---------- files without holes ----------

  function Blocks(n: nat): nat { (n + BSIZE - 1) / BSIZE }

  /** Exactly the first m blocks of file i exist, and the indirect block when they need it. */
  ghost predicate Mapped(s: State, i: nat, m: nat)
    requires Shaped(s) && i < |s.inodes|
  {
    && m <= MAXFILE
    && (forall j: nat :: j < IND ==> (Addr(s, i, j) != 0 <==> j < m))
    && (Addr(s, i, IND) != 0 <==> m > NDIRECT)
  }

  /** Conservation, and every file is mapped exactly up to its size. */
  ghost predicate Intact(s: State, ds: nat) {
    && Owned(s, ds)
    && forall i: nat :: i < |s.inodes| ==> s.inodes[i].size <= MAXFILE * BSIZE && Mapped(s, i, Blocks(s.inodes[i].size))
  }

  ghost function Content(s: State, i: nat): seq<Byte>
    requires Shaped(s) && i < |s.inodes| && s.inodes[i].size <= MAXFILE * BSIZE
  {
    seq(s.inodes[i].size, p requires 0 <= p < s.inodes[i].size => FileByte(s, i, p))
  }

  /** Byte p of file k exists and is not one of the n bytes of file i from pos on. */
  ghost predicate Outside(s: State, k: nat, p: nat, i: nat, pos: nat, n: nat)
    requires Shaped(s)
  {
    k < |s.inodes| && p < MAXFILE * BSIZE && Addr(s, k, p / BSIZE) != 0 && !(k == i && pos <= p < pos + n)
  }

  /** From s to t the n bytes of file i from pos on became those of src from `from` on; sizes, other
      files and the blocks already mapped did not change. */
  ghost predicate Wrote(s: State, t: State, i: nat, pos: nat, src: seq<Byte>, from: nat, n: nat)
    requires Shaped(s) && Shaped(t) && i < |s.inodes| && pos + n <= MAXFILE * BSIZE && from + n <= |src|
  {
    && |t.inodes| == |s.inodes| && |t.disk| == |s.disk| && t.inodes[i].size == s.inodes[i].size
    && (forall k :: 0 <= k < |s.inodes| && k != i ==> t.inodes[k] == s.inodes[k])
    && (forall k: nat, m: nat :: k < |s.inodes| && m <= IND && (k != i || Addr(s, k, m) != 0) ==>
        Addr(t, k, m) == Addr(s, k, m))
    && (forall k: nat, p: nat :: Outside(s, k, p, i, pos, n) ==> FileByte(t, k, p) == FileByte(s, k, p))
    && (forall p: nat :: pos <= p < pos + n ==> Addr(t, i, p / BSIZE) != 0 && FileByte(t, i, p) == src[from + p - pos])
  }

  lemma WroteNothing(s: State, i: nat, pos: nat, src: seq<Byte>)
    requires Shaped(s) && i < |s.inodes| && pos <= MAXFILE * BSIZE
    ensures Wrote(s, s, i, pos, src, 0, 0)
  {
  }

  lemma WroteMore(s: State, t: State, u: State, i: nat, pos: nat, src: seq<Byte>, n: nat, k: nat, all: nat)
    requires Shaped(s) && Shaped(t) && Shaped(u) && i < |s.inodes| && pos + all <= MAXFILE * BSIZE
    requires all == n + k <= |src| && Wrote(s, t, i, pos, src, 0, n) && Wrote(t, u, i, pos + n, src, n, k)
    ensures Wrote(s, u, i, pos, src, 0, all)
  {
    forall p: nat | pos <= p < pos + n + k ensures Addr(u, i, p / BSIZE) != 0 && FileByte(u, i, p) == src[p - pos] {
      if p < pos + n { assert Addr(t, i, p / BSIZE) != 0; }
    }
  }

  /** One block's share of a write, by file offset. */
  lemma InBlock(pos: nat, n: nat, p: nat)
    requires pos % BSIZE + n <= BSIZE
    ensures pos <= p < pos + n <==> p / BSIZE == pos / BSIZE && pos % BSIZE <= p % BSIZE < pos % BSIZE + n
    ensures pos <= p < pos + n ==> p % BSIZE - pos % BSIZE == p - pos
  {
    assert pos == BSIZE * (pos / BSIZE) + pos % BSIZE && p == BSIZE * (p / BSIZE) + p % BSIZE;
  }

  /** bmap of the block at pos followed by memmove into it. */
  lemma ChunkWrote(s: State, t: State, ds: nat, i: nat, pos: nat, src: seq<Byte>, from: nat, n: nat)
    requires Owned(s, ds) && Owned(t, ds) && i < |s.inodes| && pos + n <= MAXFILE * BSIZE && pos < MAXFILE * BSIZE &&
      from + n <= |src|
    requires Extends(s, t, i, pos / BSIZE) && Addr(t, i, pos / BSIZE) != 0 && pos % BSIZE + n <= BSIZE
    ensures Patchable(t, ds, i, pos / BSIZE, pos % BSIZE, src[from..from + n])
    ensures Owned(Patch(t, ds, i, pos / BSIZE, pos % BSIZE, src[from..from + n]), ds)
    ensures Wrote(s, Patch(t, ds, i, pos / BSIZE, pos % BSIZE, src[from..from + n]), i, pos, src, from, n)
  {
    var j, o, data := pos / BSIZE, pos % BSIZE, src[from..from + n];
    PatchOwned(t, ds, i, j, o, data);
    var u := Patch(t, ds, i, j, o, data);
    forall k: nat, m: nat | k < |s.inodes| && m <= IND
      ensures Addr(u, k, m) == Addr(t, k, m)
    {
      PatchAddr(t, ds, i, j, o, data, k, m);
    }
    forall k: nat, p: nat | Outside(s, k, p, i, pos, n)
      ensures FileByte(u, k, p) == FileByte(s, k, p)
    {
      InBlock(pos, n, p);
      ExtendsByte(s, t, ds, i, j, k, p);
      PatchByte(t, ds, i, j, o, data, k, p);
    }
    forall p: nat | pos <= p < pos + n ensures Addr(u, i, p / BSIZE) != 0 && FileByte(u, i, p) == src[from + p - pos] {
      InBlock(pos, n, p);
      PatchByte(t, ds, i, j, o, data, i, p);
    }
  }

  lemma MapMore(s: State, t: State, ds: nat, i: nat, m: nat, j: nat)
    requires Owned(s, ds) && Owned(t, ds) && i < |s.inodes| && j < IND && Mapped(s, i, m) && j <= m &&
      Extends(s, t, i, j)
    requires Addr(t, i, j) != 0 && if j < NDIRECT then Addr(t, i, IND) == Addr(s, i, IND) else Addr(t, i, IND) != 0
    ensures Mapped(t, i, if j < m then m else m + 1)
  {
  }

  // ---------- truncation ----------

  /** The bitmap once itrunc has freed slots 0..n of inode i. */
  ghost predicate FreedUpTo(s: State, bits: seq<BitBlock>, i: nat, n: nat)
    requires Shaped(s)
  {
    forall b: nat :: b < |s.disk| ==>
      && Covers(bits, b)
      && (IsUsed(bits, b) <==> IsUsed(s.bits, b) && !(s.owner[b].At? && s.owner[b].i == i && s.owner[b].j < n))
  }

  /** The next slot: its block is still in use, and clearing its bit frees exactly it. */
  lemma FreeNext(s: State, ds: nat, bits: seq<BitBlock>, i: nat, n: nat)
    requires Owned(s, ds) && i < |s.inodes| && n <= IND && FreedUpTo(s, bits, i, n)
    ensures Addr(s, i, n) == 0 ==> FreedUpTo(s, bits, i, n + 1)
    ensures Addr(s, i, n) != 0 ==> Addr(s, i, n) < |s.disk| && IsUsed(bits, Addr(s, i, n))
    ensures Addr(s, i, n) != 0 ==> FreedUpTo(s, WithBit(bits, Addr(s, i, n), false), i, n + 1)
  {
    var a := Addr(s, i, n);
    assert SlotOk(s, ds, i, n);
    if a != 0 { assert BlockOk(s, ds, a); }
    forall b: nat | b < |s.disk| ensures s.owner[b] == At(i, n) ==> a == b && b != 0 { assert BlockOk(s, ds, b); }
    if a != 0 {
      forall b: nat | b < |s.disk|
        ensures Covers(WithBit(bits, a, false), b)
        ensures IsUsed(WithBit(bits, a, false), b) <==> a != b && IsUsed(bits, b)
      {
        WithBitAt(bits, a, false, b);
      }
    }
  }

  lemma {:induction false} NoIndirect(s: State, ds: nat, bits: seq<BitBlock>, i: nat, n: nat)
    requires Owned(s, ds) && i < |s.inodes| && Addr(s, i, IND) == 0 && NDIRECT <= n <= IND && FreedUpTo(s, bits, i, n)
    ensures FreedUpTo(s, bits, i, IND + 1)
    decreases IND - n
  {
    FreeNext(s, ds, bits, i, n);
    if n < IND { NoIndirect(s, ds, bits, i, n + 1); }
  }

  const EMPTY := Inode(0, seq(NDIRECT + 1, k => 0))

  /** The state itrunc leaves. */
  ghost function Truncated(s: State, bits: seq<BitBlock>, i: nat): State
    requires i < |s.inodes|
  {
    State(bits, s.disk, s.inodes[i := EMPTY],
          seq(|s.owner|, b requires 0 <= b < |s.owner| =>
            if s.owner[b].At? && s.owner[b].i == i then Nobody else s.owner[b]))
  }

  lemma TruncatedAddr(s: State, ds: nat, bits: seq<BitBlock>, i: nat, k: nat, m: nat)
    requires Owned(s, ds) && i < |s.inodes| && FreedUpTo(s, bits, i, IND + 1) && k < |s.inodes| && m <= IND
    ensures Shaped(Truncated(s, bits, i))
    ensures Addr(Truncated(s, bits, i), k, m) == if k == i then 0 else Addr(s, k, m)
  {
  }

  lemma TruncatedOwned(s: State, ds: nat, bits: seq<BitBlock>, i: nat)
    requires Owned(s, ds) && i < |s.inodes| && FreedUpTo(s, bits, i, IND + 1)
    ensures Owned(Truncated(s, bits, i), ds)
  {
    var t := Truncated(s, bits, i);
    TruncatedAddr(s, ds, bits, i, i, 0);
    forall k: nat, m: nat | k < |s.inodes| && m <= IND ensures SlotOk(t, ds, k, m) {
      TruncatedAddr(s, ds, bits, i, k, m);
      assert SlotOk(s, ds, k, m);
    }
    forall b: nat | b < |s.disk| ensures BlockOk(t, ds, b) {
      assert BlockOk(s, ds, b);
      if t.owner[b].At? { TruncatedAddr(s, ds, bits, i, t.owner[b].i, t.owner[b].j); }
    }
  }

  /** itrunc empties its file, keeps the others, and conserves blocks. */
  lemma TruncatedIntact(s: State, ds: nat, bits: seq<BitBlock>, i: nat)
    requires Intact(s, ds) && i < |s.inodes| && FreedUpTo(s, bits, i, IND + 1)
    ensures Intact(Truncated(s, bits, i), ds)
    ensures Content(Truncated(s, bits, i), i) == []
    ensures forall k: nat :: k < |s.inodes| && k != i ==> Content(Truncated(s, bits, i), k) == Content(s, k)
    ensures forall b: nat :: b < |s.disk| ==> (IsUsed(bits, b) <==> IsUsed(s.bits, b) && !Holds(s, i, b))
  {
    var t := Truncated(s, bits, i);
    TruncatedOwned(s, ds, bits, i);
    forall k: nat, m: nat | k < |s.inodes| && m <= IND
      ensures Addr(t, k, m) == if k == i then 0 else Addr(s, k, m)
    {
      TruncatedAddr(s, ds, bits, i, k, m);
    }
    forall k: nat | k < |s.inodes| && k != i
      ensures Mapped(t, k, Blocks(s.inodes[k].size))
    {
      assert Mapped(s, k, Blocks(s.inodes[k].size));
    }
    forall b: nat | b < |s.disk|
      ensures IsUsed(bits, b) <==> IsUsed(s.bits, b) && !Holds(s, i, b)
    {
      HoldsOwner(s, ds, i, b);
    }
  }

  // ---------- the log space of a write ----------

  /** Blocks logged since base, the indirect block apart. */
  ghost function Cost(base: set<nat>, now: set<nat>, ind: nat): nat { |now - base - Single(ind)| }

  lemma CostStep(base: set<nat>, was: set<nat>, now: set<nat>, a: nat, ind: nat, ind': nat, n: nat, maps: set<nat>)
    requires Logged(was, now, a, ind', n, maps) && (ind == 0 || ind == ind')
    ensures Cost(base, now + {a}, ind') <= Cost(base, was, ind) + 1 + n
  {
    var added := now - was - {a} - Single(ind');
    var u := (was - base - Single(ind)) + {a};
    SubsetCard(now + {a} - base - Single(ind'), u + added);
    UnionCard(u, added);
    UnionCard(was - base - Single(ind), {a});
  }

  /** ... and the bitmap blocks apart too. */
  ghost function DataCost(base: set<nat>, now: set<nat>, ind: nat, maps: set<nat>): nat {
    |now - base - Single(ind) - maps|
  }

  lemma DataStep(base: set<nat>, was: set<nat>, now: set<nat>, a: nat, ind: nat, ind': nat, n: nat, maps: set<nat>)
    requires Logged(was, now, a, ind', n, maps) && (ind == 0 || ind == ind')
    ensures DataCost(base, now + {a}, ind', maps) <= DataCost(base, was, ind, maps) + 1
  {
    var u := was - base - Single(ind) - maps;
    SubsetCard(now + {a} - base - Single(ind') - maps, u + {a});
    UnionCard(u, {a});
  }

  lemma NoCost(base: set<nat>, ind: nat, maps: set<nat>)
    ensures Cost(base, base, ind) == 0 && DataCost(base, base, ind, maps) == 0
  {
    assert base - base == {};
  }

  lemma BothCosts(base: set<nat>, now: set<nat>, ind: nat, maps: set<nat>)
    ensures Cost(base, now, ind) <= DataCost(base, now, ind, maps) + |maps|
  {
    SubsetCard(now - base - Single(ind), (now - base - Single(ind) - maps) + maps);
    UnionCard(now - base - Single(ind) - maps, maps);
  }

  /** With the indirect block and one more block x. */
  lemma CostTotal(base: set<nat>, now: set<nat>, ind: nat, x: nat)
    ensures |now - base| <= Cost(base, now, ind) + 1
    ensures |now + {x} - base| <= Cost(base, now, ind) + 2
  {
    var u := now - base - Single(ind);
    UnionCard(u, Single(ind));
    UnionCard(u + Single(ind), {x});
    SubsetCard(now - base, u + Single(ind));
    SubsetCard(now + {x} - base, u + Single(ind) + {x});
  }

  /** Bitmap blocks of a disk of `size` blocks, as mkfs allots them. */
  function NMaps(size: nat): nat { size / BPB + 1 }

  lemma OneMap(size: nat)
    ensures size < BPB ==> NMaps(size) == 1
  {
  }

  /** The numbers of n bitmap blocks from `start` on. */
  ghost function MapBlocks(start: nat, n: nat): set<nat> {
    if n == 0 then {} else MapBlocks(start, n - 1) + {start + n - 1}
  }

  lemma {:induction false} MapBlocksAt(start: nat, n: nat, b: nat)
    ensures |MapBlocks(start, n)| <= n && (b < n ==> start + b in MapBlocks(start, n))
  {
    if n > 0 {
      MapBlocksAt(start, n - 1, b);
      UnionCard(MapBlocks(start, n - 1), {start + n - 1});
    }
  }

  lemma UnionCard(u: set<nat>, v: set<nat>)
    ensures |u + v| <= |u| + |v|
  {
    assert |u + v| == |u| + |v| - |u * v|;
  }

  /** File blocks a write of n bytes at off touches. */
  function Touched(off: nat, n: nat): int { if n == 0 then 0 else Blocks(off + n) - off / BSIZE }

  /** Blocks balloc gives a write that takes the mapped blocks from m to m'. */
  function Gained(m: nat, m': nat): int { m' - m + if m <= NDIRECT < m' then 1 else 0 }

  lemma BlocksMonotone(a: nat, b: nat)
    requires a <= b
    ensures Blocks(a) <= Blocks(b)
  {
  }

  lemma BlocksBounds(pos: nat)
    ensures pos / BSIZE <= Blocks(pos) <= pos / BSIZE + 1
    ensures Blocks(pos) == pos / BSIZE <==> pos % BSIZE == 0
  {
    assert pos == BSIZE * (pos / BSIZE) + pos % BSIZE;
  }

  /** After tot of n bytes at off, in blocks f on, with b0 blocks mapped before: m mapped, c touched. */
  ghost predicate Progress(off: nat, n: nat, f: nat, b0: nat, tot: nat, m: nat, c: nat) {
    && (tot == 0 <==> c == 0) && m == (if c == 0 then b0 else Max(b0, f + c))
    && (tot > 0 ==> BSIZE * (f + c - 1) < off + tot <= BSIZE * (f + c))
    && (0 < tot < n ==> off + tot == BSIZE * (f + c))
  }

  /** The block arithmetic of one turn of writei's loop. */
  lemma Turn(off: nat, n: nat, b0: nat, tot: nat, m: nat, c: nat, k: nat, tot': nat, m': nat, c': nat)
    requires tot < n && Blocks(off) <= b0 && Progress(off, n, off / BSIZE, b0, tot, m, c)
    requires k == Min(n - tot, BSIZE - (off + tot) % BSIZE) && tot' == tot + k && c' == c + 1
    requires m' == if (off + tot) / BSIZE < m then m else m + 1
    ensures 0 < k <= n - tot && (off + tot) / BSIZE <= m && (off + tot) % BSIZE + k <= BSIZE
    ensures Progress(off, n, off / BSIZE, b0, tot', m', c')
  {
    var pos := off + tot;
    assert pos == BSIZE * (pos / BSIZE) + pos % BSIZE;
    assert pos / BSIZE == off / BSIZE + c;
    BlocksBounds(off);
  }

  lemma Finished(off: nat, n: nat, b0: nat, m: nat, c: nat)
    requires Blocks(off) <= b0 && Progress(off, n, off / BSIZE, b0, n, m, c)
    ensures m == Max(b0, Blocks(off + n)) && c == Touched(off, n)
  {
    BlocksBounds(off);
    if n > 0 { assert Blocks(off + n) == off / BSIZE + c; }
  }

  // ---------- contents ----------

  function Replaced(c: seq<Byte>, off: nat, data: seq<Byte>): seq<Byte>
    requires off <= |c|
  {
    c[..off] + data + if off + |data| < |c| then c[off + |data|..] else []
  }

  lemma ReplacedTwice(c: seq<Byte>, off: nat, a: seq<Byte>, b: seq<Byte>)
    requires off <= |c|
    ensures off + |a| <= |Replaced(c, off, a)| && Replaced(Replaced(c, off, a), off + |a|, b) == Replaced(c, off, a + b)
  {
  }

  ghost function Resized(s: State, i: nat, size: nat): State
    requires i < |s.inodes|
  {
    s.(inodes := s.inodes[i := s.inodes[i].(size := size)])
  }

  lemma ResizedSame(t: State, ds: nat, i: nat, size: nat, k: nat)
    requires Owned(t, ds) && i < |t.inodes| && k < |t.inodes|
    ensures Owned(Resized(t, i, size), ds)
    ensures forall m: nat :: Mapped(Resized(t, i, size), k, m) <==> Mapped(t, k, m)
    ensures forall p: nat :: p < MAXFILE * BSIZE ==> FileByte(Resized(t, i, size), k, p) == FileByte(t, k, p)
  {
    var u := Resized(t, i, size);
    assert Shaped(u);
    assert forall k: nat, m: nat :: k < |t.inodes| && m <= IND ==> Addr(u, k, m) == Addr(t, k, m);
    forall b: nat | b < |t.disk| ensures BlockOk(u, ds, b) { assert BlockOk(t, ds, b); }
    forall k: nat, m: nat | k < |t.inodes| && m <= IND ensures SlotOk(u, ds, k, m) { assert SlotOk(t, ds, k, m); }
  }

  lemma WithinBlocks(p: nat, n: nat)
    requires p < n
    ensures p / BSIZE < Blocks(n)
  {
    assert p == BSIZE * (p / BSIZE) + p % BSIZE;
  }

  /** The files other than i are untouched by a write to i. */
  lemma OthersKept(s: State, t: State, ds: nat, i: nat, src: seq<Byte>, off: nat, n: nat, size: nat, k: nat)
    requires Intact(s, ds) && Owned(t, ds) && i < |s.inodes| && off + n <= MAXFILE * BSIZE && n <= |src|
    requires Wrote(s, t, i, off, src, 0, n) && k < |s.inodes| && k != i
    ensures Shaped(Resized(t, i, size)) && Resized(t, i, size).inodes[k] == s.inodes[k] &&
      s.inodes[k].size <= MAXFILE * BSIZE
    ensures Mapped(Resized(t, i, size), k, Blocks(s.inodes[k].size))
    ensures Content(Resized(t, i, size), k) == Content(s, k)
  {
    ResizedSame(t, ds, i, size, k);
    assert Mapped(s, k, Blocks(s.inodes[k].size));
    assert Mapped(t, k, Blocks(s.inodes[k].size));
    forall p: nat | p < s.inodes[k].size ensures FileByte(t, k, p) == FileByte(s, k, p) {
      WithinBlocks(p, s.inodes[k].size);
      assert Outside(s, k, p, i, off, n);
    }
  }

  lemma FileReplaced(s: State, t: State, ds: nat, i: nat, src: seq<Byte>, off: nat, n: nat)
    requires Intact(s, ds) && Owned(t, ds) && i < |s.inodes| && off + n <= MAXFILE * BSIZE && n <= |src|
    requires Wrote(s, t, i, off, src, 0, n) && off <= s.inodes[i].size
    ensures Shaped(Resized(t, i, Max(s.inodes[i].size, off + n)))
    ensures Content(Resized(t, i, Max(s.inodes[i].size, off + n)), i) == Replaced(Content(s, i), off, src[..n])
  {
    var size := s.inodes[i].size;
    var u := Resized(t, i, Max(size, off + n));
    ResizedSame(t, ds, i, Max(size, off + n), i);
    assert Mapped(s, i, Blocks(size));
    var want := Replaced(Content(s, i), off, src[..n]);
    forall p: nat | p < |want| ensures FileByte(u, i, p) == want[p] {
      if !(off <= p < off + n) {
        WithinBlocks(p, size);
        assert Outside(s, i, p, i, off, n);
      }
    }
  }

  /** The bytes of every file. */
  ghost function Contents(s: State, ds: nat): (c: seq<seq<Byte>>)
    requires Intact(s, ds)
    ensures |c| == |s.inodes|
  {
    seq(|s.inodes|, k requires 0 <= k < |s.inodes| => Content(s, k))
  }

  lemma WrittenContents(s: State, u: State, ds: nat, i: nat, off: nat, data: seq<Byte>)
    requires Intact(s, ds) && Intact(u, ds) && i < |s.inodes| && FileWritten(s, u, ds, i, off, data)
    ensures off <= |Contents(s, ds)[i]| &&
      Contents(u, ds) == Contents(s, ds)[i := Replaced(Contents(s, ds)[i], off, data)]
  {
  }

  /** The state writei leaves: file i replaced from off on, every other file as it was. */
  ghost predicate FileWritten(s: State, u: State, ds: nat, i: nat, off: nat, data: seq<Byte>)
    requires Intact(s, ds) && Intact(u, ds) && i < |s.inodes|
  {
    && |u.inodes| == |s.inodes| && off <= s.inodes[i].size
    && Content(u, i) == Replaced(Content(s, i), off, data)
    && forall k: nat :: k < |s.inodes| && k != i ==> u.inodes[k] == s.inodes[k] && Content(u, k) == Content(s, k)
  }

  lemma WriteDone(s: State, t: State, ds: nat, i: nat, src: seq<Byte>, off: nat, n: nat, m: nat)
    requires Intact(s, ds) && Owned(t, ds) && i < |s.inodes| && off + n <= MAXFILE * BSIZE && n <= |src|
    requires Wrote(s, t, i, off, src, 0, n) && off <= s.inodes[i].size && Mapped(t, i, m)
    requires m == Max(Blocks(s.inodes[i].size), Blocks(off + n))
    ensures Intact(Resized(t, i, Max(s.inodes[i].size, off + n)), ds)
    ensures FileWritten(s, Resized(t, i, Max(s.inodes[i].size, off + n)), ds, i, off, src[..n])
  {
    var size := Max(s.inodes[i].size, off + n);
    var u := Resized(t, i, size);
    ResizedSame(t, ds, i, size, i);
    assert Blocks(size) == m;
    forall k: nat | k < |s.inodes| && k != i
      ensures u.inodes[k] == s.inodes[k] && s.inodes[k].size <= MAXFILE * BSIZE &&
        Mapped(u, k, Blocks(s.inodes[k].size)) && Content(u, k) == Content(s, k)
    {
      OthersKept(s, t, ds, i, src, off, n, size, k);
    }
    FileReplaced(s, t, ds, i, src, off, n);
  }

  /** The files after the first `done` bytes of addr went into file i from start on. */
  ghost function After(c: seq<seq<Byte>>, i: nat, start: nat, addr: seq<Byte>, done: nat): seq<seq<Byte>>
    requires i < |c| && done <= |addr| && (done > 0 ==> start <= |c[i]|)
  {
    if done == 0 then c else c[i := Replaced(c[i], start, addr[..done])]
  }

  /** What writei refuses. */
  predicate Refused(size: nat, off: nat, n: nat) { off > size || off + n > MAXFILE * BSIZE }

  lemma RefusedWrap(size: nat, off: nat, n: nat)
    requires size <= MAXFILE * BSIZE && off < UINT && n < UINT
    ensures Refused(size, off, n) <==> off > size || (off + n) % UINT < off || (off + n) % UINT > MAXFILE * BSIZE
  {
    if off + n >= UINT { assert (off + n) % UINT == off + n - UINT; }
  }

  lemma WrapBelow(off: nat, n: nat)
    requires off < UINT && n < UINT
    ensures (off + n) % UINT < off <==> off + n >= UINT
  {
    if off + n >= UINT { assert (off + n) % UINT == off + n - UINT; }
  }

  const MAXOPBLOCKS := 10

  /** filewrite's `max`. */
  const CHUNK := (MAXOPBLOCKS - 1 - 1 - 2) / 2 * 512

  /** Blocks a write of n bytes at off to a file of `size` bytes allocates. */
  function Growth(size: nat, off: nat, n: nat): int { Gained(Blocks(size), Max(Blocks(size), Blocks(off + n))) }

  /** Blocks a write of n bytes at off to a file of `size` bytes may log, with `maps` bitmap blocks. */
  function LogSpace(size: nat, off: nat, n: nat, maps: nat): int {
    Touched(off, n) + Min(Growth(size, off, n), maps) + 2
  }

  /** Where the first block of a write lies. */
  lemma FirstBlock(size: nat, off: nat)
    requires off <= size
    ensures off / BSIZE <= Blocks(size) && (off % BSIZE > 0 ==> off / BSIZE < Blocks(size))
  {
    assert off == BSIZE * (off / BSIZE) + off % BSIZE;
  }

  /** filewrite's chunk limit keeps a transaction within the log reservation, however many bitmap
      blocks there are: an unaligned first block already exists, so at most 3 of at most 4 are new. */
  lemma ChunkFits(size: nat, off: nat, n: nat, maps: nat)
    requires off <= size && n <= CHUNK
    ensures LogSpace(size, off, n, maps) <= MAXOPBLOCKS
  {
    var a, c := off / BSIZE, Blocks(off + n);
    FirstBlock(size, off);
    assert off == BSIZE * a + off % BSIZE;
    assert off % BSIZE == 0 ==> c <= a + 3;
    assert c <= a + 4;
  }

  /** With the one bitmap block that mkfs's images have, a chunk logs at most 7 blocks. */
  lemma ChunkOneMap(size: nat, off: nat, n: nat)
    requires off <= size && n <= CHUNK
    ensures LogSpace(size, off, n, 1) <= 7
  {
    var a, c := off / BSIZE, Blocks(off + n);
    assert off == BSIZE * a + off % BSIZE;
    assert c <= a + 4;
  }

  /** filewrite's limit is the largest write for which the bound holds at every place of every file,
      once there are bitmap blocks enough. */
  lemma ChunkIff(n: nat, maps: nat)
    requires maps >= 5
    ensures (forall size: nat, off: nat :: off <= size ==> LogSpace(size, off, n, maps) <= MAXOPBLOCKS) <==> n <= CHUNK
  {
    if n <= CHUNK {
      forall size: nat, off: nat | off <= size ensures LogSpace(size, off, n, maps) <= MAXOPBLOCKS {
        ChunkFits(size, off, n, maps);
      }
    } else {
      var off := NDIRECT * BSIZE;
      assert off / BSIZE == Blocks(off) == NDIRECT;
      BlocksMonotone(off + CHUNK + 1, off + n);
      assert Blocks(off + CHUNK + 1) == NDIRECT + 4;
      assert LogSpace(off, off, n, maps) > MAXOPBLOCKS;
    }
  }

  lemma Slices(a: seq<Byte>, n: nat, k: nat)
    requires n + k <= |a|
    ensures a[n..n + k][..k] == a[n..n + k] && a[..n + k] == a[..n] + a[n..n + k] && a[..0] == []
  {
  }

  datatype Result = Count(n: nat) | Failed | Panic

  // ---------- the code ----------

  function Single(b: nat): set<nat> { if b == 0 then {} else {b} }

  /** Blocks logged while slot a was mapped: a, the indirect block, and one bitmap block an allocation. */
  ghost predicate Logged(was: set<nat>, now: set<nat>, a: nat, ind: nat, n: int, maps: set<nat>) {
    was <= now && |now - was - {a} - Single(ind)| <= n && now - was - {a} - Single(ind) <= maps
  }

  /** A new indirect block (bitmap block y) and a new entry (bitmap block x). */
  lemma LoggedBoth(was: set<nat>, mid: set<nat>, now: set<nat>, a: nat, ind: nat, x: nat, y: nat, table: bool,
      entry: bool, maps: set<nat>)
    requires ind != 0 && x in maps && y in maps && mid == (if table then was + {y, ind} else was)
    requires now == if entry then mid + {x, a, ind} else mid
    ensures Logged(was, now, a, ind, (if table then 1 else 0) + if entry then 1 else 0, maps)
  {
    var u := now - was - {a} - Single(ind);
    Few(u, x, y);
    Few(u, y, x);
  }

  lemma Few(u: set<nat>, x: nat, y: nat)
    ensures u <= {x} ==> |u| <= 1
    ensures u <= {x, y} ==> |u| <= 2
  {
    SubsetCard(u, {x});
    SubsetCard(u, {x, y});
  }

  lemma {:induction false} SubsetCard(u: set<nat>, v: set<nat>)
    ensures u <= v ==> |u| <= |v|
  {
    if u <= v && u != {} {
      var x :| x in u;
      SubsetCard(u - {x}, v - {x});
    }
  }

  /** The buffered file system.  `disk` holds the data area as the buffer cache sees it, `bits` the
      bitmap blocks, `inodes` the locked in-memory inodes and `dinodes` the inodes on disk. */
  class FileSystem {
    const dataStart: nat
    const bmapStart: nat
    const inodeStart: nat
    const inodesPerBlock: nat := 8
    var bits: seq<BitBlock>
    var disk: seq<Block>
    var inodes: seq<Inode>
    var dinodes: seq<Inode>
    ghost var owner: seq<Owner>
    /** The block numbers given to log_write, and the calls of balloc, in the current transaction. */
    ghost var logged: set<nat>
    ghost var allocs: nat

    ghost function View(): State
      reads this
    {
      State(bits, disk, inodes, owner)
    }

    function BBlock(b: nat): nat { b / BPB + bmapStart }

    function IBlock(i: nat): nat { i / inodesPerBlock + inodeStart }

    /** An empty file system: dataStart metadata blocks, and every inode without a block. */
    constructor (size: nat, dataStart: nat, bmapStart: nat, inodeStart: nat, ninodes: nat)
      requires 0 < dataStart <= size < UINT
      ensures Good() && inodes == seq(ninodes, i => EMPTY) && |disk| == size
      ensures this.dataStart == dataStart && this.bmapStart == bmapStart && this.inodeStart == inodeStart
      ensures forall b: nat :: b < size ==> (IsUsed(bits, b) <==> b < dataStart)
    {
      this.dataStart, this.bmapStart, this.inodeStart := dataStart, bmapStart, inodeStart;
      bits := seq(NMaps(size), k requires k >= 0 => seq(BPB, x requires x >= 0 => BPB * k + x < dataStart));
      disk, inodes, dinodes := seq(size, b => Zeroed(BSIZE)), seq(ninodes, i => EMPTY), seq(ninodes, i => EMPTY);
      owner, logged, allocs := seq(size, b => Nobody), {}, 0;
      new;
      forall b: nat | b < size ensures Covers(bits, b) && (IsUsed(bits, b) <==> b < dataStart) {
        assert b == BPB * (b / BPB) + b % BPB && b / BPB < NMaps(size);
      }
    }

    ghost function Maps(): set<nat>
      reads this
    {
      MapBlocks(bmapStart, NMaps(|disk|))
    }

    lemma InMaps(b: nat)
      requires b < |disk|
      ensures BBlock(b) in Maps()
    {
      MapBlocksAt(bmapStart, NMaps(|disk|), b / BPB);
    }

    /** No block is free: the only state in which balloc panics. */
    ghost predicate Full()
      reads this
    {
      forall c: nat :: c < |disk| ==> IsUsed(bits, c)
    }

    /** The first free block, zeroed and marked in use; 0 where the kernel panics. */
    method Balloc() returns (b: nat)
      requires Owned(View(), dataStart)
      modifies `bits, `disk, `logged, `allocs
      ensures b == 0 ==> bits == old(bits) && disk == old(disk) && logged == old(logged) && allocs == old(allocs)
      ensures b == 0 <==> old(Full())
      ensures b != 0 ==> dataStart <= b < |disk| == old(|disk|) && Covers(old(bits), b) && !IsUsed(old(bits), b)
      ensures b != 0 ==> forall c :: 0 <= c < b ==> IsUsed(old(bits), c)
      ensures b != 0 ==> bits == WithBit(old(bits), b, true) && disk == old(disk)[b := Zeroed(BSIZE)]
      ensures b != 0 ==> logged == old(logged) + {BBlock(b), b} && allocs == old(allocs) + 1
    {
      b := FindFree(bits, |disk|);
      if b == |disk| { return 0; }
      assert BlockOk(View(), dataStart, b);
      bits := WithBit(bits, b, true);
      logged := logged + {BBlock(b)};
      disk := disk[b := Zeroed(BSIZE)];
      logged, allocs := logged + {b}, allocs + 1;
    }

    /** Slot j of inode i holds the block bmap's balloc gave it. */
    ghost predicate Given(s: State, i: nat, j: nat)
      requires Owned(s, dataStart) && Owned(View(), dataStart) && i < |s.inodes| && j < IND
      reads this
    {
      Extends(s, View(), i, j) && Addr(View(), i, j) != 0
    }

    method BmapDirect(i: nat, bn: nat) returns (a: nat)
      requires Owned(View(), dataStart) && i < |inodes| && bn < NDIRECT
      modifies `bits, `disk, `inodes, `owner, `logged, `allocs
      ensures Owned(View(), dataStart)
      ensures a == 0 <==> Addr(old(View()), i, bn) == 0 && old(Full())
      ensures a == 0 ==> View() == old(View())
      ensures a != 0 ==>
        Given(old(View()), i, bn) && Addr(View(), i, bn) == a && Addr(View(), i, IND) == Addr(old(View()), i, IND)
      ensures Addr(old(View()), i, bn) != 0 ==> View() == old(View()) && logged == old(logged) && allocs == old(allocs)
      ensures Addr(old(View()), i, bn) == 0 && a != 0 ==>
        logged == old(logged) + {BBlock(a), a} && allocs == old(allocs) + 1
    {
      a := inodes[i].addrs[bn];
      if a != 0 { return; }
      ghost var s := View();
      a := Balloc();
      if a == 0 { return; }
      inodes := inodes[i := WithAddr(inodes[i], bn, a)];
      owner := owner[a := At(i, bn)];
      assert View() == Attach(s, dataStart, i, bn, a);
      AttachExtends(s, dataStart, i, bn, a, bn);
      AttachAddr(s, dataStart, i, bn, a, i, bn);
      AttachAddr(s, dataStart, i, bn, a, i, IND);
    }

    /** bmap's indirect block of inode i, allocated if there is none. */
    method Indirect(i: nat, ghost bn: nat) returns (ind: nat)
      requires Owned(View(), dataStart) && i < |inodes| && bn < IND
      modifies `bits, `disk, `inodes, `owner, `logged, `allocs
      ensures Owned(View(), dataStart)
      ensures ind == 0 ==> View() == old(View()) && Full()
      ensures ind != 0 ==> Extends(old(View()), View(), i, bn) && Addr(View(), i, IND) == ind
      ensures ind != 0 ==> Addr(View(), i, bn) == Addr(old(View()), i, bn)
      ensures Addr(old(View()), i, IND) != 0 ==>
        ind != 0 && View() == old(View()) && logged == old(logged) && allocs == old(allocs)
      ensures Addr(old(View()), i, IND) == 0 && ind != 0 ==>
        logged == old(logged) + {BBlock(ind), ind} && allocs == old(allocs) + 1
    {
      ind := inodes[i].addrs[NDIRECT];
      if ind != 0 { return; }
      ghost var s := View();
      ind := Balloc();
      if ind == 0 { return; }
      inodes := inodes[i := WithAddr(inodes[i], NDIRECT, ind)];
      owner := owner[ind := At(i, IND)];
      assert View() == Attach(s, dataStart, i, IND, ind);
      AttachExtends(s, dataStart, i, IND, ind, bn);
      AttachAddr(s, dataStart, i, IND, ind, i, IND);
      AttachAddr(s, dataStart, i, IND, ind, i, bn);
    }

    /** bmap's entry bn of the indirect block. */
    method BmapEntry(i: nat, ind: nat, bn: nat) returns (a: nat)
      requires Owned(View(), dataStart) && i < |inodes| && NDIRECT <= bn < IND && ind == Addr(View(), i, IND) != 0
      modifies `bits, `disk, `owner, `logged, `allocs
      ensures Owned(View(), dataStart)
      ensures a == 0 ==> View() == old(View()) && Full()
      ensures a != 0 ==> Given(old(View()), i, bn) && Addr(View(), i, bn) == a && Addr(View(), i, IND) == ind
      ensures Addr(old(View()), i, bn) != 0 ==>
        a != 0 && View() == old(View()) && logged == old(logged) && allocs == old(allocs)
      ensures Addr(old(View()), i, bn) == 0 && a != 0 ==>
        logged == old(logged) + {BBlock(a), a, ind} && allocs == old(allocs) + 1
    {
      ghost var s := View();
      assert SlotOk(s, dataStart, i, IND) && SlotOk(s, dataStart, i, bn);
      assert BlockOk(s, dataStart, ind);
      a := Word(disk[ind], bn - NDIRECT);
      if a != 0 { return; }
      a := Balloc();
      if a == 0 { return; }
      disk := disk[ind := WithWord(disk[ind], bn - NDIRECT, a)];
      logged := logged + {ind};
      owner := owner[a := At(i, bn)];
      assert View() == Attach(s, dataStart, i, bn, a);
      AttachExtends(s, dataStart, i, bn, a, bn);
      AttachAddr(s, dataStart, i, bn, a, i, bn);
      AttachAddr(s, dataStart, i, bn, a, i, IND);
    }

    /** bmap past the direct slots. */
    method BmapIndirect(i: nat, bn: nat) returns (a: nat)
      requires Owned(View(), dataStart) && i < |inodes| && NDIRECT <= bn < MAXFILE
      modifies `bits, `disk, `inodes, `owner, `logged, `allocs
      ensures Owned(View(), dataStart) && |inodes| == old(|inodes|) && (a == 0 ==> Full())
      ensures a != 0 ==> Given(old(View()), i, bn) && Addr(View(), i, bn) == a && Addr(View(), i, IND) != 0
      ensures Addr(old(View()), i, bn) != 0 ==>
        a != 0 && View() == old(View()) && logged == old(logged) && allocs == old(allocs)
      ensures a != 0 && Addr(old(View()), i, bn) == 0 ==>
        allocs == old(allocs) + if Addr(old(View()), i, IND) == 0 then 2 else 1
      ensures a != 0 ==> Logged(old(logged), logged, a, Addr(View(), i, IND), allocs - old(allocs), Maps())
    {
      ghost var s := View();
      var ind := Indirect(i, bn);
      if ind == 0 { return 0; }
      ghost var t, mid := View(), logged;
      a := BmapEntry(i, ind, bn);
      if a != 0 {
        ExtendsTwice(s, t, View(), dataStart, i, bn);
        assert SlotOk(View(), dataStart, i, bn) && SlotOk(View(), dataStart, i, IND);
        InMaps(a);
        InMaps(ind);
        LoggedBoth(old(logged), mid, logged, a, ind, BBlock(a), BBlock(ind),
          Addr(s, i, IND) == 0, Addr(s, i, bn) == 0, Maps());
      }
    }

    /** The disk block of file block bn, allocated if there is none; 0 where balloc panics. */
    method Bmap(i: nat, bn: nat) returns (a: nat)
      requires Owned(View(), dataStart) && i < |inodes| && bn < MAXFILE
      modifies `bits, `disk, `inodes, `owner, `logged, `allocs
      ensures Owned(View(), dataStart) && |inodes| == old(|inodes|) && (a == 0 ==> Full())
      ensures a != 0 ==> Given(old(View()), i, bn) && Addr(View(), i, bn) == a
      ensures a != 0 && bn < NDIRECT ==> Addr(View(), i, IND) == Addr(old(View()), i, IND)
      ensures a != 0 && bn >= NDIRECT ==> Addr(View(), i, IND) != 0
      ensures Addr(old(View()), i, bn) != 0 ==>
        a != 0 && View() == old(View()) && logged == old(logged) && allocs == old(allocs)
      ensures a != 0 && Addr(old(View()), i, bn) == 0 && (bn < NDIRECT || Addr(old(View()), i, IND) != 0) ==>
        allocs == old(allocs) + 1
      ensures a != 0 && Addr(old(View()), i, bn) == 0 && bn >= NDIRECT && Addr(old(View()), i, IND) == 0 ==>
        allocs == old(allocs) + 2
      ensures a != 0 ==> Logged(old(logged), logged, a, Addr(View(), i, IND), allocs - old(allocs), Maps())
    {
      if bn < NDIRECT {
        a := BmapDirect(i, bn);
        Few(logged - old(logged) - {a} - Single(inodes[i].addrs[NDIRECT]), BBlock(a), 0);
        if a != 0 {
          assert SlotOk(View(), dataStart, i, bn);
          InMaps(a);
        }
      } else {
        a := BmapIndirect(i, bn);
      }
    }

    /** memmove into the block of slot j, and log_write. */
    method PutBytes(i: nat, ghost j: nat, a: nat, o: nat, data: seq<Byte>)
      requires Patchable(View(), dataStart, i, j, o, data) && a == Addr(View(), i, j)
      modifies `disk, `logged
      ensures View() == Patch(old(View()), dataStart, i, j, o, data) && logged == old(logged) + {a} &&
        |disk| == old(|disk|)
    {
      assert SlotOk(View(), dataStart, i, j);
      disk := disk[a := Patched(disk[a], o, data)];
      logged := logged + {a};
    }

    /** One turn of writei's loop: bmap, memmove into the block, log_write. */
    method WriteChunk(i: nat, pos: nat, src: seq<Byte>, from: nat, n: nat, ghost m: nat, ghost base: set<nat>)
      returns (ok: bool)
      requires Owned(View(), dataStart) && i < |inodes| && Mapped(View(), i, m) && pos / BSIZE <= m
      requires pos + n <= MAXFILE * BSIZE && pos < MAXFILE * BSIZE && pos % BSIZE + n <= BSIZE && from + n <= |src|
      modifies `bits, `disk, `inodes, `owner, `logged, `allocs
      ensures ok ==> Owned(View(), dataStart) && Wrote(old(View()), View(), i, pos, src, from, n)
      ensures ok ==> Mapped(View(), i, if pos / BSIZE < m then m else m + 1)
      ensures pos / BSIZE < m ==> ok && inodes == old(inodes) && allocs == old(allocs)
      ensures !ok ==> Full()
      ensures ok && pos / BSIZE == m ==> allocs == old(allocs) + if m == NDIRECT then 2 else 1
      ensures ok ==>
        Cost(base, logged, Addr(View(), i, IND))
        <= Cost(base, old(logged), Addr(old(View()), i, IND)) + 1 + allocs - old(allocs)
      ensures ok ==>
        DataCost(base, logged, Addr(View(), i, IND), Maps())
        <= DataCost(base, old(logged), Addr(old(View()), i, IND), Maps()) + 1
    {
      ghost var s := View();
      var j, o, data := pos / BSIZE, pos % BSIZE, src[from..from + n];
      var a := Bmap(i, j);
      if a == 0 { return false; }
      ghost var t, mid := View(), logged;
      ChunkWrote(s, t, dataStart, i, pos, src, from, n);
      MapMore(s, t, dataStart, i, m, j);
      PatchMapped(t, dataStart, i, j, o, data, if j < m then m else m + 1);
      PutBytes(i, j, a, o, data);
      CostStep(base, old(logged), mid, a, Addr(s, i, IND), Addr(t, i, IND), allocs - old(allocs), Maps());
      DataStep(base, old(logged), mid, a, Addr(s, i, IND), Addr(t, i, IND), allocs - old(allocs), Maps());
      ok := true;
    }

    /** The blocks logged since `base` and allocated since `a0`, with c blocks touched and m mapped. */
    ghost predicate Charged(i: nat, base: set<nat>, a0: nat, b0: nat, m: nat, c: nat)
      requires Shaped(View()) && i < |inodes|
      reads this
    {
      && b0 <= m && allocs - a0 == Gained(b0, m) && Cost(base, logged, Addr(View(), i, IND)) <= c + allocs - a0
      && DataCost(base, logged, Addr(View(), i, IND), Maps()) <= c
    }

    method WriteTurn(i: nat, pos: nat, src: seq<Byte>, from: nat, n: nat, ghost base: set<nat>, ghost a0: nat,
        ghost b0: nat, ghost m: nat, ghost c: nat, ghost m': nat, ghost c': nat) returns (ok: bool)
      requires Owned(View(), dataStart) && i < |inodes| && Mapped(View(), i, m) && pos / BSIZE <= m
      requires pos + n <= MAXFILE * BSIZE && pos < MAXFILE * BSIZE && pos % BSIZE + n <= BSIZE && from + n <= |src|
      requires Charged(i, base, a0, b0, m, c) && c' == c + 1 && m' == if pos / BSIZE < m then m else m + 1
      modifies `bits, `disk, `inodes, `owner, `logged, `allocs
      ensures !ok ==> Full()
      ensures ok ==> Owned(View(), dataStart) && Wrote(old(View()), View(), i, pos, src, from, n)
      ensures ok ==> Mapped(View(), i, m') && Charged(i, base, a0, b0, m', c')
      ensures ok && m == m' ==> inodes == old(inodes)
    {
      ok := WriteChunk(i, pos, src, from, n, m, base);
    }

    /** The same on top of what the loop wrote before. */
    method WriteSome(ghost s: State, i: nat, src: seq<Byte>, off: nat, tot: nat, k: nat, ghost tot': nat,
        ghost base: set<nat>, ghost a0: nat, ghost b0: nat, ghost m: nat, ghost c: nat, ghost m': nat, ghost c': nat)
      returns (ok: bool)
      requires Shaped(s) && Owned(View(), dataStart) && i < |s.inodes| && i < |inodes| && (off + tot) / BSIZE <= m
      requires 0 < k && tot' == tot + k <= |src| && off + tot' <= MAXFILE * BSIZE && (off + tot) % BSIZE + k <= BSIZE
      requires Wrote(s, View(), i, off, src, 0, tot) && Mapped(View(), i, m) && Charged(i, base, a0, b0, m, c)
      requires c' == c + 1 && m' == if (off + tot) / BSIZE < m then m else m + 1
      modifies `bits, `disk, `inodes, `owner, `logged, `allocs
      ensures ok ==> Owned(View(), dataStart) && i < |inodes| && Wrote(s, View(), i, off, src, 0, tot')
      ensures ok ==> Mapped(View(), i, m') && Charged(i, base, a0, b0, m', c')
      ensures ok && m == m' ==> inodes == old(inodes)
      ensures !ok ==> Full()
    {
      ghost var t := View();
      ok := WriteTurn(i, off + tot, src, tot, k, base, a0, b0, m, c, m', c');
      if ok { WroteMore(s, t, View(), i, off, src, tot, k, tot'); }
    }

    /** writei's loop. */
    method WriteLoop(ghost s: State, i: nat, src: seq<Byte>, off: nat, n: nat, ghost b0: nat)
      returns (ok: bool, ghost m: nat, ghost c: nat)
      requires s == View() && Owned(View(), dataStart) && i < |inodes| && Mapped(View(), i, b0) && n <= |src|
      requires off + n <= MAXFILE * BSIZE && Blocks(off) <= b0
      modifies `bits, `disk, `inodes, `owner, `logged, `allocs
      ensures ok ==> Owned(View(), dataStart) && Wrote(s, View(), i, off, src, 0, n) && Mapped(View(), i, m)
      ensures ok ==> Progress(off, n, off / BSIZE, b0, n, m, c) && Charged(i, old(logged), old(allocs), b0, m, c)
      ensures ok && m == b0 ==> inodes == old(inodes)
      ensures !ok ==> Full()
    {
      ghost var base, a0 := logged, allocs;
      var tot: nat := 0;
      ok, m, c := true, b0, 0;
      WroteNothing(s, i, off, src);
      NoCost(base, Addr(s, i, IND), Maps());
      while tot < n
        invariant tot <= n && b0 <= m && Progress(off, n, off / BSIZE, b0, tot, m, c) && Owned(View(), dataStart)
        invariant ok && i < |inodes| && Wrote(s, View(), i, off, src, 0, tot)
        invariant Mapped(View(), i, m) && Charged(i, base, a0, b0, m, c)
        invariant m == b0 ==> inodes == s.inodes
      {
        var k := Min(n - tot, BSIZE - (off + tot) % BSIZE);
        var tot' := tot + k;
        ghost var m', c' := if (off + tot) / BSIZE < m then m else m + 1, c + 1;
        Turn(off, n, b0, tot, m, c, k, tot', m', c');
        ok := WriteSome(s, i, src, off, tot, k, tot', base, a0, b0, m, c, m', c');
        if !ok { return; }
        tot, m, c := tot', m', c';
      }
      assert tot == n;
    }

    method Iupdate(i: nat)
      requires i < |inodes| == |dinodes|
      modifies `dinodes, `logged
      ensures dinodes == old(dinodes)[i := inodes[i]] && logged == old(logged) + {IBlock(i)}
    {
      dinodes := dinodes[i := inodes[i]];
      logged := logged + {IBlock(i)};
    }

    /** writei's last step: record a larger size and write the inode through. */
    method Settle(i: nat, end: nat, n: nat, ghost base: set<nat>, ghost c: int, ghost k: int, ghost u: State)
      requires Shaped(View()) && i < |inodes| == |dinodes| && (n == 0 ==> end <= inodes[i].size)
      requires forall x :: 0 <= x < |inodes| && (x != i || end <= inodes[i].size) ==> dinodes[x] == inodes[x]
      requires u == Resized(View(), i, Max(inodes[i].size, end))
      requires Cost(base, logged, Addr(View(), i, IND)) <= c + k &&
        DataCost(base, logged, Addr(View(), i, IND), Maps()) <= c
      modifies `inodes, `dinodes, `logged
      ensures View() == u && dinodes == inodes
      ensures end <= old(inodes[i].size) ==> dinodes == old(dinodes)
      ensures |logged - base| <= c + Min(k, NMaps(|disk|)) + 2
    {
      CostTotal(base, logged, Addr(View(), i, IND), IBlock(i));
      BothCosts(base, logged, Addr(View(), i, IND), Maps());
      MapBlocksAt(bmapStart, NMaps(|disk|), 0);
      if n > 0 && end > inodes[i].size {
        inodes := inodes[i := inodes[i].(size := end)];
        Iupdate(i);
      } else {
        assert inodes[i := inodes[i].(size := inodes[i].size)] == inodes;
      }
      assert dinodes == inodes;
    }

    /** writei after its checks, up to the size update, which leads to state u. */
    method WriteBody(i: nat, src: seq<Byte>, off: nat, n: nat) returns (ok: bool, ghost u: State)
      requires Intact(View(), dataStart) && i < |inodes| && n <= |src| && !Refused(inodes[i].size, off, n)
      modifies `bits, `disk, `inodes, `owner, `logged, `allocs
      ensures ok ==> Shaped(View()) && |inodes| == old(|inodes|) && inodes[i].size == old(inodes[i].size)
      ensures ok ==> u == Resized(View(), i, Max(inodes[i].size, off + n)) && |disk| == old(|disk|)
      ensures ok ==> Intact(u, dataStart) && FileWritten(old(View()), u, dataStart, i, off, src[..n])
      ensures ok ==>
        forall k :: 0 <= k < |inodes| && (k != i || off + n <= inodes[i].size) ==> inodes[k] == old(inodes)[k]
      ensures ok ==>
        Cost(old(logged), logged, Addr(View(), i, IND)) <= Touched(off, n) + Growth(old(inodes[i].size), off, n)
      ensures ok ==> DataCost(old(logged), logged, Addr(View(), i, IND), Maps()) <= Touched(off, n)
      ensures !ok ==> Full()
    {
      ghost var s, size, m, c := View(), inodes[i].size, 0, 0;
      assert Mapped(s, i, Blocks(size));
      BlocksMonotone(off, size);
      ok, m, c := WriteLoop(s, i, src, off, n, Blocks(size));
      u := s;
      if !ok { return; }
      Finished(off, n, Blocks(size), m, c);
      WriteDone(s, View(), dataStart, i, src, off, n, m);
      u := Resized(View(), i, Max(size, off + n));
      if off + n <= size { BlocksMonotone(off + n, size); }
    }

    /** writei after its checks. */
    method WriteRange(i: nat, src: seq<Byte>, off: nat, n: nat) returns (ok: bool)
      requires Intact(View(), dataStart) && dinodes == inodes && i < |inodes| && n <= |src| &&
        !Refused(inodes[i].size, off, n)
      modifies this
      ensures ok ==>
        Intact(View(), dataStart) && dinodes == inodes && FileWritten(old(View()), View(), dataStart, i, off, src[..n])
      ensures ok ==>
        |disk| == old(|disk|) && |logged - old(logged)| <= LogSpace(old(inodes[i].size), off, n, NMaps(|disk|))
      ensures !ok ==> Full()
    {
      ghost var u;
      ok, u := WriteBody(i, src, off, n);
      if ok { Settle(i, off + n, n, old(logged), Touched(off, n), Growth(inodes[i].size, off, n), u); }
    }

    method Writei(i: nat, src: seq<Byte>, off: nat, n: nat) returns (r: Result)
      requires Intact(View(), dataStart) && dinodes == inodes && i < |inodes| && off < UINT && n < UINT && n <= |src|
      modifies this
      ensures r == Failed <==> Refused(old(inodes[i].size), off, n)
      ensures r == Failed ==> View() == old(View()) && dinodes == old(dinodes) && logged == old(logged)
      ensures r != Panic ==> Intact(View(), dataStart) && dinodes == inodes
      ensures r.Count? ==> r.n == n && FileWritten(old(View()), View(), dataStart, i, off, src[..n])
      ensures r.Count? ==>
        |disk| == old(|disk|) && |logged - old(logged)| <= LogSpace(old(inodes[i].size), off, n, NMaps(|disk|))
      ensures r == Panic ==> Full()
    {
      RefusedWrap(inodes[i].size, off, n);
      if off > inodes[i].size || (off + n) % UINT < off { return Failed; }
      if (off + n) % UINT > MAXFILE * BSIZE { return Failed; }
      var ok := WriteRange(i, src, off, n);
      return if ok then Count(n) else Panic;
    }

    /** One turn of readi's loop. */
    method ReadChunk(i: nat, pos: nat, k: nat, ghost c: seq<Byte>) returns (data: seq<Byte>)
      requires Intact(View(), dataStart) && i < |inodes| && pos + k <= inodes[i].size && 0 < k <= BSIZE - pos % BSIZE
      requires c == Content(View(), i)
      modifies `bits, `disk, `inodes, `owner, `logged, `allocs
      ensures View() == old(View()) && logged == old(logged) && allocs == old(allocs)
      ensures data == c[pos..pos + k]
    {
      ghost var s := View();
      assert Mapped(s, i, Blocks(inodes[i].size));
      WithinBlocks(pos, inodes[i].size);
      var a := Bmap(i, pos / BSIZE);
      assert SlotOk(s, dataStart, i, pos / BSIZE);
      data := disk[a][pos % BSIZE..pos % BSIZE + k];
      forall q | 0 <= q < k ensures data[q] == c[pos + q] { InBlock(pos, k, pos + q); }
    }

    method ReadLoop(i: nat, off: nat, n: nat, ghost c: seq<Byte>) returns (dst: seq<Byte>)
      requires Intact(View(), dataStart) && i < |inodes| && off + n <= inodes[i].size && c == Content(View(), i)
      modifies `bits, `disk, `inodes, `owner, `logged, `allocs
      ensures View() == old(View()) && logged == old(logged) && allocs == old(allocs)
      ensures dst == c[off..off + n]
    {
      ghost var s := View();
      var tot := 0;
      dst := [];
      while tot < n
        invariant tot <= n && View() == s && logged == old(logged) && allocs == old(allocs)
        invariant dst == c[off..off + tot]
      {
        var k := Min(n - tot, BSIZE - (off + tot) % BSIZE);
        var data := ReadChunk(i, off + tot, k, c);
        dst := dst + data;
        tot := tot + k;
      }
    }

    method Readi(i: nat, off: nat, n: nat) returns (r: Result, dst: seq<Byte>)
      requires Intact(View(), dataStart) && i < |inodes| && off < UINT && n < UINT
      modifies `bits, `disk, `inodes, `owner, `logged, `allocs
      ensures View() == old(View()) && logged == old(logged) && allocs == old(allocs)
      ensures r == Failed <==> off > inodes[i].size || off + n >= UINT
      ensures r != Failed ==> r == Count(Min(n, inodes[i].size - off)) && dst == Content(View(), i)[off..off + r.n]
    {
      WrapBelow(off, n);
      if off > inodes[i].size || (off + n) % UINT < off { return Failed, []; }
      var n' := if (off + n) % UINT > inodes[i].size then inodes[i].size - off else n;
      dst := ReadLoop(i, off, n', Content(View(), i));
      r := Count(n');
    }

    ghost predicate Good()
      reads this
    {
      Intact(View(), dataStart) && dinodes == inodes
    }

    /** A filewrite transaction: begin_op, writei, end_op. */
    method WriteOp(i: nat, src: seq<Byte>, off: nat, ghost c: seq<seq<Byte>>) returns (r: Result, ghost tx: set<nat>)
      requires Good() && c == Contents(View(), dataStart) && i < |c| && off < UINT && |src| <= CHUNK
      modifies this
      ensures r == Failed <==> Refused(|c[i]|, off, |src|)
      ensures r == Failed ==> tx == {}
      ensures r == Panic ==> Full()
      ensures r != Panic ==> Good() && |tx| <= MAXOPBLOCKS && |disk| == old(|disk|) && (|disk| < BPB ==> |tx| <= 7)
      ensures r != Panic ==> Contents(View(), dataStart) == if r == Failed then c else c[i := Replaced(c[i], off, src)]
    {
      logged := {};
      r := Writei(i, src, off, |src|);
      tx := logged;
      assert logged - {} == logged;
      if r.Count? {
        ChunkFits(old(inodes[i].size), off, |src|, NMaps(|disk|));
        ChunkOneMap(old(inodes[i].size), off, |src|);
        OneMap(|disk|);
        assert src[..|src|] == src;
        WrittenContents(old(View()), View(), dataStart, i, off, src);
      }
    }

    /** One turn of filewrite's loop, the first `done` bytes of addr being written to file bytes c. */
    method WriteNext(ghost c: seq<seq<Byte>>, i: nat, start: nat, addr: seq<Byte>, done: nat,
        k: nat) returns (r: Result, ghost tx: set<nat>)
      requires Good() && i < |c| && start + done < UINT && done + k <= |addr| && k <= CHUNK &&
        (done > 0 ==> start <= |c[i]|)
      requires Contents(View(), dataStart) == After(c, i, start, addr, done)
      modifies this
      ensures r != Panic ==> Good() && |tx| <= MAXOPBLOCKS && |disk| == old(|disk|) && (|disk| < BPB ==> |tx| <= 7)
      ensures r == Panic ==> Full()
      ensures r == Failed ==> Refused(|After(c, i, start, addr, done)[i]|, start + done, k)
      ensures r == Failed ==> Contents(View(), dataStart) == old(Contents(View(), dataStart))
      ensures r.Count? ==> start <= |c[i]| && start + done + k <= MAXFILE * BSIZE
      ensures r.Count? ==> Contents(View(), dataStart) == c[i := Replaced(c[i], start, addr[..done + k])]
    {
      Slices(addr, done, k);
      r, tx := WriteOp(i, addr[done..done + k], start + done, Contents(View(), dataStart));
      if r.Count? && done > 0 { ReplacedTwice(c[i], start, addr[..done], addr[done..done + k]); }
    }

    /** filewrite's loop: the bytes written, whether balloc panicked, the most blocks one transaction logged. */
    method WriteAll(ghost c: seq<seq<Byte>>, i: nat, start: nat, addr: seq<Byte>, n: nat) returns (done: nat,
        panic: bool, ghost most: nat)
      requires Good() && c == Contents(View(), dataStart) && i < |c| && start < UINT && n <= |addr|
      modifies this
      ensures most <= MAXOPBLOCKS && (old(|disk|) < BPB ==> most <= 7) && done <= n && (done > 0 ==> start <= |c[i]|)
      ensures !panic ==> Good() && Contents(View(), dataStart) == After(c, i, start, addr, done)
      ensures if panic then Full() else done < n ==>
        Refused(|After(c, i, start, addr, done)[i]|, start + done, Min(n - done, CHUNK))
    {
      done, panic, most := 0, false, 0;
      while done < n && !panic
        invariant done <= n && most <= MAXOPBLOCKS && (done > 0 ==> start <= |c[i]| && start + done <= MAXFILE * BSIZE)
        invariant (old(|disk|) < BPB ==> most <= 7) && (!panic ==> |disk| == old(|disk|))
        invariant if panic then Full() else Good() && Contents(View(), dataStart) == After(c, i, start, addr, done)
        decreases n - done, !panic
      {
        var k := Min(n - done, CHUNK);
        ghost var tx;
        var w;
        w, tx := WriteNext(c, i, start, addr, done, k);
        if w.Panic? {
          panic := true;
        } else {
          most := Max(most, |tx|);
          if w.Failed? { break; }
          done := done + k;
        }
      }
    }

    /** filewrite on an inode: its result; the file offset becomes start + done. */
    method FileWrite(i: nat, start: nat, addr: seq<Byte>, n: int, writable: bool) returns (r: int, done: nat,
        panic: bool, ghost most: nat)
      requires Good() && i < |inodes| && start < UINT && n <= |addr|
      modifies this
      ensures most <= MAXOPBLOCKS && (old(|disk|) < BPB ==> most <= 7)
      ensures done <= |addr| && (done > 0 ==> start <= old(inodes[i].size))
      ensures !panic ==>
        Good() && Contents(View(), dataStart) == After(old(Contents(View(), dataStart)), i, start, addr, done)
      ensures !panic ==> r == if writable && done == n then n else -1
      // it stops short only of a chunk that writei refuses, and panics only on a full disk
      ensures !panic && writable && done < n ==>
        Refused(|Contents(View(), dataStart)[i]|, start + done, Min(n - done, CHUNK))
      ensures panic ==> Full()
    {
      if !writable { return -1, 0, false, 0; }
      done, panic, most := WriteAll(Contents(View(), dataStart), i, start, addr, Max(n, 0));
      r := if done == n then n else -1;
    }

    /** The panic "freeing free block" is the excluded case: every caller proves the bit set. */
    method Bfree(b: nat)
      requires IsUsed(bits, b)
      modifies `bits, `logged
      ensures bits == WithBit(old(bits), b, false) && logged == old(logged) + {BBlock(b)}
    {
      bits := WithBit(bits, b, false);
      logged := logged + {BBlock(b)};
    }

    /** itrunc's first loop, over the direct slots. */
    method FreeDirect(ghost s: State, i: nat)
      requires Owned(s, dataStart) && i < |inodes| && View() == s
      modifies `bits, `logged, `inodes
      ensures FreedUpTo(s, bits, i, NDIRECT) && |inodes| == |s.inodes| && forall k :: 0 <= k < |inodes| && k != i ==>
        inodes[k] == s.inodes[k]
      ensures |inodes[i].addrs| == NDIRECT + 1 && inodes[i].size == s.inodes[i].size &&
        inodes[i].addrs[NDIRECT] == s.inodes[i].addrs[NDIRECT]
      ensures forall k :: 0 <= k < NDIRECT ==> inodes[i].addrs[k] == 0
    {
      var k := 0;
      while k < NDIRECT
        invariant 0 <= k <= NDIRECT && FreedUpTo(s, bits, i, k)
        invariant |inodes| == |s.inodes| && inodes == s.inodes[i := inodes[i]] && |inodes[i].addrs| == NDIRECT + 1 &&
          inodes[i].size == s.inodes[i].size
        invariant forall j :: 0 <= j <= NDIRECT ==> inodes[i].addrs[j] == if j < k then 0 else s.inodes[i].addrs[j]
      {
        FreeNext(s, dataStart, bits, i, k);
        if inodes[i].addrs[k] != 0 {
          Bfree(inodes[i].addrs[k]);
          inodes := inodes[i := WithAddr(inodes[i], k, 0)];
        }
        k := k + 1;
      }
    }

    /** itrunc's second loop, over the entries of indirect block ind. */
    method FreeEntries(ghost s: State, i: nat, ind: nat)
      requires Owned(s, dataStart) && i < |s.inodes| && disk == s.disk && ind == Addr(s, i, IND) != 0 &&
        FreedUpTo(s, bits, i, NDIRECT)
      modifies `bits, `logged
      ensures FreedUpTo(s, bits, i, IND)
    {
      assert SlotOk(s, dataStart, i, IND);
      var j := 0;
      while j < NINDIRECT
        invariant 0 <= j <= NINDIRECT && FreedUpTo(s, bits, i, NDIRECT + j)
      {
        FreeNext(s, dataStart, bits, i, NDIRECT + j);
        var a := Word(disk[ind], j);
        if a != 0 { Bfree(a); }
        j := j + 1;
      }
    }

    /** itrunc's indirect part. */
    method FreeIndirect(ghost s: State, i: nat)
      requires Owned(s, dataStart) && i < |s.inodes| == |inodes| && disk == s.disk && FreedUpTo(s, bits, i, NDIRECT)
      requires |inodes[i].addrs| == NDIRECT + 1 && inodes[i].addrs[NDIRECT] == s.inodes[i].addrs[NDIRECT]
      modifies `bits, `logged, `inodes
      ensures FreedUpTo(s, bits, i, IND + 1) && inodes == old(inodes)[i := WithAddr(old(inodes[i]), NDIRECT, 0)]
    {
      var ind := inodes[i].addrs[NDIRECT];
      if ind != 0 {
        FreeEntries(s, i, ind);
        FreeNext(s, dataStart, bits, i, IND);
        Bfree(ind);
        inodes := inodes[i := WithAddr(inodes[i], NDIRECT, 0)];
      } else {
        NoIndirect(s, dataStart, bits, i, NDIRECT);
        assert inodes[i].addrs[NDIRECT := 0] == inodes[i].addrs;
      }
    }

    method Itrunc(i: nat)
      requires Good() && i < |inodes|
      modifies this
      ensures Good() && Contents(View(), dataStart) == old(Contents(View(), dataStart))[i := []] && inodes[i] == EMPTY
      ensures forall b: nat :: b < |disk| ==> (IsUsed(bits, b) <==> IsUsed(old(bits), b) && !Holds(old(View()), i, b))
      ensures disk == old(disk)
    {
      ghost var s := View();
      FreeDirect(s, i);
      FreeIndirect(s, i);
      inodes := inodes[i := inodes[i].(size := 0)];
      assert inodes[i].addrs == EMPTY.addrs;
      owner := Truncated(s, bits, i).owner;
      TruncatedIntact(s, dataStart, bits, i);
      assert View() == Truncated(s, bits, i);
      Iupdate(i);
    }
  }
}

