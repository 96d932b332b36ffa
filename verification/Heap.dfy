/** The user-level allocator (free, morecore, malloc in umalloc.c): an address-ordered circular
    free list with coalescing.  Addresses and sizes count units of sizeof(Header). */
module Heap {

  /** A block of `size` units whose header is at `addr`. */
  datatype Blk = Blk(addr: int, size: int) {
    ghost predicate Has(u: int) { addr <= u < addr + size }
    function End(): int { addr + size }
  }

  // ---------- the free list as a value ----------

  /** Ascending, disjoint and never adjacent; the static empty block `base` comes first. */
  ghost predicate Ordered(free: seq<Blk>) {
    && |free| > 0 && free[0].size == 0
    && (forall i :: 1 <= i < |free| ==> free[i].size > 0)
    && forall i, j :: 0 <= i < j < |free| ==> free[i].End() < free[j].addr
  }

  ghost predicate Covers(free: seq<Blk>, u: int) { exists i :: 0 <= i < |free| && free[i].Has(u) }

  ghost predicate IsEntry(free: seq<Blk>, a: int) { exists k :: 0 <= k < |free| && free[k].addr == a }

  /** b fits between entries t and t + 1. */
  ghost predicate FitsAfter(free: seq<Blk>, t: int, b: Blk) {
    && 0 <= t < |free| && b.size > 0
    && free[t].addr < b.addr && free[t].End() <= b.addr
    && (t + 1 < |free| ==> b.End() <= free[t + 1].addr)
  }

  predicate TouchesLow(free: seq<Blk>, t: int, b: Blk)
    requires 0 <= t < |free|
  {
    free[t].End() == b.addr
  }

  predicate TouchesUp(free: seq<Blk>, t: int, b: Blk)
    requires 0 <= t < |free|
  {
    t + 1 < |free| && b.End() == free[t + 1].addr
  }

  /** b joined with the entries it touches. */
  function Joined(free: seq<Blk>, t: int, b: Blk): Blk
    requires 0 <= t < |free|
  {
    var a := if TouchesLow(free, t, b) then free[t].addr else b.addr;
    var e := if TouchesUp(free, t, b) then free[t + 1].End() else b.End();
    Blk(a, e - a)
  }

  /** r is the list with b put back between entries t and t + 1, at position `at`. */
  ghost predicate Inserted(free: seq<Blk>, t: int, b: Blk, r: seq<Blk>, at: int)
    requires 0 <= t < |free|
  {
    var low, up := TouchesLow(free, t, b), TouchesUp(free, t, b);
    && at == (if low then t else t + 1)
    && |r| == |free| + 1 - (if low then 1 else 0) - (if up then 1 else 0)
    && at < |r|
    && (forall i :: 0 <= i < at ==> r[i] == free[i])
    && (forall i :: at < i < |r| ==> r[i] == free[i + |free| - |r|])
    && r[at] == Joined(free, t, b)
  }

  lemma Insert(free: seq<Blk>, t: int, b: Blk) returns (r: seq<Blk>, at: int)
    requires 0 <= t < |free|
    ensures Inserted(free, t, b, r, at)
  {
    at := if TouchesLow(free, t, b) then t else t + 1;
    var tail := free[if TouchesUp(free, t, b) then t + 2 else t + 1..];
    r := free[..at] + [Joined(free, t, b)] + tail;
    forall i | at < i < |r| ensures r[i] == tail[i - at - 1] { }
  }

  lemma InsertedOrdered(free: seq<Blk>, t: int, b: Blk, r: seq<Blk>, at: int)
    requires Ordered(free) && FitsAfter(free, t, b) && Inserted(free, t, b, r, at)
    ensures Ordered(r) && r[0] == free[0] && r[t].addr == free[t].addr && r[at].size >= b.size
  {
    assert t == 0 ==> !TouchesLow(free, t, b);
    forall i | 0 <= i < at ensures r[i].End() < r[at].addr { }
    forall j | at < j < |r| ensures r[at].End() < r[j].addr { }
    forall i, j | 0 <= i < j < |r| ensures r[i].End() < r[j].addr {
      if i < at && j > at { assert r[at].size >= 0; }
    }
  }

  lemma InsertedCovers(free: seq<Blk>, t: int, b: Blk, r: seq<Blk>, at: int, u: int)
    requires Ordered(free) && FitsAfter(free, t, b) && Inserted(free, t, b, r, at)
    ensures Covers(r, u) <==> Covers(free, u) || b.Has(u)
  {
    var low, up := TouchesLow(free, t, b), TouchesUp(free, t, b);
    assert r[at].Has(u) <==> b.Has(u) || (low && free[t].Has(u)) || (up && free[t + 1].Has(u));
    var off := |free| - |r|;
    forall i | 0 <= i < |free| && free[i].Has(u) ensures Covers(r, u) {
      if i < at { assert r[i].Has(u); } else if i - off > at { assert r[i - off].Has(u); } else { assert r[at].Has(u); }
    }
  }

  /** Freeing keeps the list ordered and adds exactly b's units, whatever b is joined with. */
  lemma InsertCorrect(free: seq<Blk>, t: int, b: Blk, r: seq<Blk>, at: int)
    requires Ordered(free) && FitsAfter(free, t, b) && Inserted(free, t, b, r, at)
    ensures Ordered(r) && r[0] == free[0] && r[t].addr == free[t].addr && r[at].size >= b.size
    ensures forall u :: Covers(r, u) <==> Covers(free, u) || b.Has(u)
  {
    InsertedOrdered(free, t, b, r, at);
    forall u ensures Covers(r, u) <==> Covers(free, u) || b.Has(u) {
      InsertedCovers(free, t, b, r, at, u);
    }
  }

  /** Entry i may give up its last n units. */
  ghost predicate CanTake(free: seq<Blk>, i: int, n: int) {
    Ordered(free) && 0 < n && 1 <= i < |free| && n <= free[i].size
  }

  /** The units that go. */
  function Cut(free: seq<Blk>, i: int, n: int): Blk
    requires 0 <= i < |free|
  {
    Blk(free[i].End() - n, n)
  }

  /** r is the list after the last n units of entry i are taken; a used-up entry disappears. */
  ghost predicate Taken(free: seq<Blk>, i: int, n: int, r: seq<Blk>)
    requires 0 <= i < |free|
  {
    && |r| == (if free[i].size == n then |free| - 1 else |free|)
    && (forall k :: 0 <= k < i ==> r[k] == free[k])
    && (free[i].size == n ==> forall k :: i <= k < |r| ==> r[k] == free[k + 1])
    && (free[i].size != n ==> forall k :: i < k < |r| ==> r[k] == free[k])
    && (free[i].size != n ==> r[i] == Blk(free[i].addr, free[i].size - n))
  }

  lemma Take(free: seq<Blk>, i: int, n: int) returns (r: seq<Blk>)
    requires 0 <= i < |free|
    ensures Taken(free, i, n, r)
  {
    if free[i].size == n {
      r := free[..i] + free[i + 1..];
    } else {
      r := free[i := Blk(free[i].addr, free[i].size - n)];
    }
  }

  lemma TakenOrdered(free: seq<Blk>, i: int, n: int, r: seq<Blk>)
    requires CanTake(free, i, n) && Taken(free, i, n, r)
    ensures Ordered(r) && r[0] == free[0] && r[i - 1].addr == free[i - 1].addr
  {
    forall j, k | 0 <= j < k < |r| ensures r[j].End() < r[k].addr {
      if free[i].size == n {
        assert r[k] == free[if k < i then k else k + 1] && r[j] == free[if j < i then j else j + 1];
      }
    }
  }

  lemma TakenCovers(free: seq<Blk>, i: int, n: int, r: seq<Blk>, u: int)
    requires CanTake(free, i, n) && Taken(free, i, n, r)
    ensures Covers(free, u) <==> Covers(r, u) || Cut(free, i, n).Has(u)
  {
    var c := Cut(free, i, n);
    var gone := free[i].size == n;
    forall k | 0 <= k < |r| && r[k].Has(u) ensures Covers(free, u) {
      assert free[if gone && k >= i then k + 1 else k].Has(u);
    }
    forall j | 0 <= j < |free| && free[j].Has(u) ensures Covers(r, u) || c.Has(u) {
      if j != i {
        assert r[if gone && j > i then j - 1 else j].Has(u);
      } else if !c.Has(u) {
        assert r[i].Has(u);
      }
    }
    if c.Has(u) { assert free[i].Has(u); }
  }

  // ---------- live blocks and the arena ----------

  ghost predicate LiveCovers(live: map<int, int>, u: int) { exists a :: a in live && Blk(a, live[a]).Has(u) }

  /** Live blocks keep their headers, lie above `base` and overlap neither each other nor the
      free list. */
  ghost predicate LiveApart(free: seq<Blk>, live: map<int, int>, size: map<int, int>) {
    && |free| > 0
    && (forall a :: a in live ==> a in size && size[a] == live[a] && live[a] > 0 && a > free[0].addr)
    && (forall a, b :: a in live && b in live && a < b ==> a + live[a] <= b)
    && (forall a, i :: a in live && 0 <= i < |free| ==> free[i].End() <= a || a + live[a] <= free[i].addr)
  }

  /** The whole account: free units and live units are apart and together make up the arena. */
  ghost predicate Accounted(free: seq<Blk>, live: map<int, int>, size: map<int, int>, arena: iset<int>) {
    && Ordered(free) && LiveApart(free, live, size)
    && forall u :: u in arena <==> Covers(free, u) || LiveCovers(live, u)
  }

  /** The one place where a live block goes back. */
  lemma {:induction false} Position(free: seq<Blk>, live: map<int, int>, size: map<int, int>, bp: int, n: int)
    returns (t: int)
    requires Ordered(free) && LiveApart(free, live, size) && bp in live && 1 <= n <= |free|
    requires forall i :: n <= i < |free| ==> bp < free[i].addr
    ensures FitsAfter(free, t, Blk(bp, live[bp]))
    decreases n
  {
    t := n - 1;
    if bp < free[t].addr { t := Position(free, live, size, bp, n - 1); }
  }

  lemma EntryIsNotLive(free: seq<Blk>, live: map<int, int>, size: map<int, int>, t: int)
    requires Ordered(free) && LiveApart(free, live, size) && 0 <= t < |free|
    ensures free[t].addr !in live
  {
  }

  lemma LiveCoversAdd(live: map<int, int>, a: int, n: int, u: int)
    requires a !in live
    ensures LiveCovers(live[a := n], u) <==> LiveCovers(live, u) || Blk(a, n).Has(u)
  {
    var live' := live[a := n];
    if Blk(a, n).Has(u) { assert a in live' && Blk(a, live'[a]).Has(u); }
    if x :| x in live && Blk(x, live[x]).Has(u) { assert x in live' && Blk(x, live'[x]).Has(u); }
  }

  /** A live block goes back to the list: the arena keeps its units. */
  lemma AccountFree(free: seq<Blk>, live: map<int, int>, size: map<int, int>, arena: iset<int>,
                    t: int, bp: int, r: seq<Blk>, at: int, size': map<int, int>)
    requires Accounted(free, live, size, arena) && bp in live && FitsAfter(free, t, Blk(bp, live[bp]))
    requires Inserted(free, t, Blk(bp, live[bp]), r, at)
    requires forall a :: a in live && a != bp ==> a in size' && size'[a] == size[a]
    ensures Accounted(r, live - {bp}, size', arena)
  {
    var live' := live - {bp};
    InsertCorrect(free, t, Blk(bp, live[bp]), r, at);
    forall u ensures u in arena <==> Covers(r, u) || LiveCovers(live', u) {
      LiveCoversAdd(live', bp, live[bp], u);
      assert live'[bp := live[bp]] == live;
    }
    forall a, i | a in live' && 0 <= i < |r| ensures r[i].End() <= a || a + live'[a] <= r[i].addr {
      assert a in live && live'[a] == live[a] && (a + live[a] <= bp || bp + live[bp] <= a);
      if i < at { assert r[i] == free[i]; } else if i > at { assert r[i] == free[i + |free| - |r|]; }
    }
  }

  /** A cut leaves the list: it becomes live, away from every other block. */
  lemma AccountTake(free: seq<Blk>, live: map<int, int>, size: map<int, int>, arena: iset<int>,
                    i: int, n: int, r: seq<Blk>, size': map<int, int>)
    requires Accounted(free, live, size, arena) && CanTake(free, i, n) && Taken(free, i, n, r)
    requires var q := Cut(free, i, n).addr;
      && q in size' && size'[q] == n && forall a :: a in live && a != q ==> a in size' && size'[a] == size[a]
    ensures var q := Cut(free, i, n).addr;
      q !in live && Accounted(r, live[q := n], size', arena)
  {
    var q := Cut(free, i, n).addr;
    var live' := live[q := n];
    TakenOrdered(free, i, n, r);
    assert q !in live;
    forall u ensures u in arena <==> Covers(r, u) || LiveCovers(live', u) {
      TakenCovers(free, i, n, r, u);
      LiveCoversAdd(live, q, n, u);
    }
    forall a, k | a in live' && 0 <= k < |r| ensures r[k].End() <= a || a + live'[a] <= r[k].addr {
      var j := if free[i].size == n && k >= i then k + 1 else k;
      assert free[j].addr == r[k].addr && r[k].End() <= free[j].End();
      if a == q {
        if j < i { assert free[j].End() < free[i].addr; } else if j > i { assert free[i].End() < free[j].addr; }
      } else {
        assert free[j].End() <= a || a + live[a] <= free[j].addr;
      }
    }
    forall a | a in live ensures a + live[a] <= q || q + n <= a {
      assert free[i].End() <= a || a + live[a] <= free[i].addr;
    }
  }

  /** Memory that sbrk grants becomes a live block of its own. */
  lemma AccountGrow(free: seq<Blk>, live: map<int, int>, size: map<int, int>, arena: iset<int>,
                    hp: int, n: int, arena': iset<int>)
    requires Accounted(free, live, size, arena) && n > 0 && hp > free[0].addr
    requires forall u :: Blk(hp, n).Has(u) ==> u !in arena
    requires forall u :: u in arena' <==> u in arena || Blk(hp, n).Has(u)
    ensures hp !in live && !IsEntry(free, hp) && Accounted(free, live[hp := n], size[hp := n], arena')
  {
    var b := Blk(hp, n);
    forall a | a in live ensures a + live[a] <= hp || hp + n <= a {
      forall u | Blk(a, live[a]).Has(u) ensures u in arena { assert LiveCovers(live, u); }
      Apart(arena, b, Blk(a, live[a]));
    }
    forall i | 0 <= i < |free| ensures free[i].addr != hp && (free[i].End() <= hp || hp + n <= free[i].addr) {
      if i > 0 {
        forall u | free[i].Has(u) ensures u in arena { assert Covers(free, u); }
        Apart(arena, b, free[i]);
      }
    }
    forall u ensures u in arena' <==> Covers(free, u) || LiveCovers(live[hp := n], u) {
      LiveCoversAdd(live, hp, n, u);
    }
  }

  /** Intervals with no common unit lie one after the other. */
  lemma Apart(arena: iset<int>, b: Blk, c: Blk)
    requires b.size > 0 && c.size > 0
    requires forall u :: b.Has(u) ==> u !in arena
    requires forall u :: c.Has(u) ==> u in arena
    ensures b.End() <= c.addr || c.End() <= b.addr
  {
    assert b.Has(b.addr) && c.Has(c.addr);
  }

  // ---------- the list in memory ----------

  /** The entry after i going round the list. */
  function After(free: seq<Blk>, i: int): (j: int)
    requires 0 <= i < |free|
    ensures 0 <= j < |free|
  {
    if i + 1 < |free| then i + 1 else 0
  }

  /** The address after entry i going round the list. */
  function NextAddr(free: seq<Blk>, i: int): int
    requires 0 <= i < |free|
  {
    free[After(free, i)].addr
  }

  ghost predicate LinkedAt(free: seq<Blk>, ptr: map<int, int>, size: map<int, int>, i: int)
    requires 0 <= i < |free|
  {
    && free[i].addr in ptr && free[i].addr in size
    && size[free[i].addr] == free[i].size && ptr[free[i].addr] == NextAddr(free, i)
  }

  /** The headers in memory hold exactly this circular list. */
  ghost predicate Linked(free: seq<Blk>, ptr: map<int, int>, size: map<int, int>) {
    forall i :: 0 <= i < |free| ==> LinkedAt(free, ptr, size, i)
  }

  /** free's scan stops at the block's place and nowhere else. */
  lemma StopsOnlyAt(free: seq<Blk>, t: int, b: Blk, k: int)
    requires Ordered(free) && FitsAfter(free, t, b) && 0 <= k < |free|
    ensures var p, next := free[k].addr, NextAddr(free, k);
      ((b.addr > p && b.addr < next) || (p >= next && (b.addr > p || b.addr < next))) <==> k == t
  {
  }

  /** What free's assignments do to the headers. */
  ghost predicate Relinked(free: seq<Blk>, t: int, b: Blk, ptr: map<int, int>, size: map<int, int>,
                           ptr': map<int, int>, size': map<int, int>)
    requires 0 <= t < |free|
  {
    var low, up := TouchesLow(free, t, b), TouchesUp(free, t, b);
    var p, j := free[t].addr, Joined(free, t, b);
    && (forall a :: a in ptr && a != p && a != b.addr ==> a in ptr' && ptr'[a] == ptr[a])
    && (forall a :: a in size && a != j.addr && a != b.addr ==> a in size' && size'[a] == size[a])
    && p in ptr' && j.addr in ptr' && j.addr in size' && size'[j.addr] == j.size
    && ptr'[j.addr] == (if up then NextAddr(free, t + 1) else NextAddr(free, t))
    && (!low ==> ptr'[p] == b.addr)
  }

  ghost predicate Freeing(free: seq<Blk>, t: int, b: Blk, ptr: map<int, int>, size: map<int, int>,
                          ptr': map<int, int>, size': map<int, int>, r: seq<Blk>, at: int) {
    && Ordered(free) && FitsAfter(free, t, b) && Linked(free, ptr, size)
    && Relinked(free, t, b, ptr, size, ptr', size') && Inserted(free, t, b, r, at)
  }

  lemma LinkedBelow(free: seq<Blk>, t: int, b: Blk, ptr: map<int, int>, size: map<int, int>,
                    ptr': map<int, int>, size': map<int, int>, r: seq<Blk>, at: int, i: int)
    requires Freeing(free, t, b, ptr, size, ptr', size', r, at) && 0 <= i < at
    ensures LinkedAt(r, ptr', size', i)
  {
    assert LinkedAt(free, ptr, size, i);
    assert free[i].addr < b.addr && (i < t ==> free[i].addr != free[t].addr);
  }

  lemma LinkedAbove(free: seq<Blk>, t: int, b: Blk, ptr: map<int, int>, size: map<int, int>,
                    ptr': map<int, int>, size': map<int, int>, r: seq<Blk>, at: int, i: int)
    requires Freeing(free, t, b, ptr, size, ptr', size', r, at) && at < i < |r|
    ensures LinkedAt(r, ptr', size', i)
  {
    var j := i + |free| - |r|;
    assert LinkedAt(free, ptr, size, j);
    assert r[i] == free[j] && free[j].addr > free[t].addr && free[j].addr > b.addr;
    assert r[0].addr == free[0].addr;
  }

  lemma LinkedHere(free: seq<Blk>, t: int, b: Blk, ptr: map<int, int>, size: map<int, int>,
                   ptr': map<int, int>, size': map<int, int>, r: seq<Blk>, at: int)
    requires Freeing(free, t, b, ptr, size, ptr', size', r, at)
    ensures LinkedAt(r, ptr', size', at)
  {
    assert r[0].addr == free[0].addr;
  }

  lemma LinkedInsert(free: seq<Blk>, t: int, b: Blk, ptr: map<int, int>, size: map<int, int>,
                     ptr': map<int, int>, size': map<int, int>, r: seq<Blk>, at: int)
    requires Freeing(free, t, b, ptr, size, ptr', size', r, at)
    ensures Linked(r, ptr', size')
  {
    forall i | 0 <= i < |r| ensures LinkedAt(r, ptr', size', i) {
      if i < at { LinkedBelow(free, t, b, ptr, size, ptr', size', r, at, i); }
      else if i > at { LinkedAbove(free, t, b, ptr, size, ptr', size', r, at, i); }
      else { LinkedHere(free, t, b, ptr, size, ptr', size', r, at); }
    }
  }

  /** What malloc's assignments do to the headers. */
  ghost predicate Carved(free: seq<Blk>, i: int, n: int, ptr: map<int, int>, size: map<int, int>,
                         ptr': map<int, int>, size': map<int, int>)
    requires 1 <= i < |free|
  {
    if free[i].size == n
    then ptr' == ptr[free[i - 1].addr := NextAddr(free, i)] && size' == size
    else ptr' == ptr && size' == size[free[i].addr := free[i].size - n][Cut(free, i, n).addr := n]
  }

  lemma LinkedTake(free: seq<Blk>, i: int, n: int, ptr: map<int, int>, size: map<int, int>,
                   ptr': map<int, int>, size': map<int, int>, r: seq<Blk>)
    requires CanTake(free, i, n) && Linked(free, ptr, size) && Taken(free, i, n, r)
    requires Carved(free, i, n, ptr, size, ptr', size')
    ensures Linked(r, ptr', size')
  {
    forall k | 0 <= k < |r| ensures LinkedAt(r, ptr', size', k) {
      var j := if free[i].size == n && k >= i then k + 1 else k;
      assert LinkedAt(free, ptr, size, j) && LinkedAt(free, ptr, size, i);
      assert r[0].addr == free[0].addr;
      assert free[i].size != n && j != i ==> free[j].addr != Cut(free, i, n).addr by {
        if j < i { assert free[j].End() < free[i].addr; } else if j > i { assert free[i].End() < free[j].addr; }
      }
    }
  }

  lemma LinkedGrow(free: seq<Blk>, ptr: map<int, int>, size: map<int, int>, hp: int, n: int)
    requires Linked(free, ptr, size) && !IsEntry(free, hp)
    ensures Linked(free, ptr, size[hp := n])
  {
    var size' := size[hp := n];
    forall i | 0 <= i < |free| ensures LinkedAt(free, ptr, size', i) {
      assert LinkedAt(free, ptr, size, i);
    }
  }

  // ---------- whole operations ----------

  /** Freeing a live block, from the headers it leaves. */
  lemma FreeResult(free: seq<Blk>, live: map<int, int>, ptr: map<int, int>, size: map<int, int>, arena: iset<int>,
                   t: int, bp: int, ptr': map<int, int>, size': map<int, int>) returns (r: seq<Blk>)
    requires Accounted(free, live, size, arena) && bp in live && FitsAfter(free, t, Blk(bp, live[bp]))
    requires Linked(free, ptr, size) && Relinked(free, t, Blk(bp, live[bp]), ptr, size, ptr', size')
    requires forall a :: a in size && a != bp && a != free[t].addr ==> a in size' && size'[a] == size[a]
    ensures Accounted(r, live - {bp}, size', arena) && Linked(r, ptr', size')
    ensures r[0] == free[0] && IsEntry(r, free[t].addr)
    ensures exists i :: 0 <= i < |r| && r[i].size >= live[bp]
  {
    var b := Blk(bp, live[bp]);
    var at;
    r, at := Insert(free, t, b);
    LinkedInsert(free, t, b, ptr, size, ptr', size', r, at);
    InsertCorrect(free, t, b, r, at);
    EntryIsNotLive(free, live, size, t);
    AccountFree(free, live, size, arena, t, bp, r, at, size');
  }

  /** Carving a block for malloc, from the headers it leaves. */
  lemma TakeResult(free: seq<Blk>, live: map<int, int>, ptr: map<int, int>, size: map<int, int>, arena: iset<int>,
                   i: int, n: int, ptr': map<int, int>, size': map<int, int>) returns (r: seq<Blk>)
    requires Accounted(free, live, size, arena) && Linked(free, ptr, size) && CanTake(free, i, n)
    requires Carved(free, i, n, ptr, size, ptr', size')
    ensures var q := Cut(free, i, n).addr;
      q !in live && q > free[0].addr && Accounted(r, live[q := n], size', arena)
    ensures Linked(r, ptr', size') && r[0] == free[0] && IsEntry(r, free[i - 1].addr)
  {
    assert LinkedAt(free, ptr, size, i);
    EntryIsNotLive(free, live, size, i);
    r := Take(free, i, n);
    LinkedTake(free, i, n, ptr, size, ptr', size', r);
    AccountTake(free, live, size, arena, i, n, r, size');
    TakenOrdered(free, i, n, r);
  }

  /** Steps round the list from entry k to entry i, at least one. */
  function Dist(k: int, i: int, n: int): int { if i > k then i - k else i - k + n }

  /** malloc has passed over every entry between k and i, and found each too small. */
  ghost predicate Passed(free: seq<Blk>, k: int, i: int, nunits: int) {
    forall j :: 0 <= j < |free| && Dist(k, j, |free|) < Dist(k, i, |free|) ==> free[j].size < nunits
  }

  lemma PassStep(free: seq<Blk>, k: int, i: int, nunits: int)
    requires 0 <= k < |free| && 0 <= i < |free| && i != k && Passed(free, k, i, nunits) && free[i].size < nunits
    ensures var i' := After(free, i);
      Passed(free, k, i', nunits) && Dist(k, i', |free|) == Dist(k, i, |free|) + 1
  {
  }

  lemma AllPassed(free: seq<Blk>, k: int, i: int, nunits: int)
    requires 0 <= i < |free| && 0 <= k < |free| && Ordered(free) && free[i].addr == free[k].addr
    requires Passed(free, k, i, nunits) && free[i].size < nunits
    ensures i == k && forall j :: 0 <= j < |free| ==> free[j].size < nunits
  {
    assert i == k;
  }

  const HEADER := 8 // sizeof(Header)

  /** malloc's rounding: whole units for the bytes, and one for the header. */
  function UnitsFor(nbytes: nat): (n: int)
    ensures n > 0 && (n - 1) * HEADER >= nbytes && (n - 1) * HEADER < nbytes + HEADER
  {
    (nbytes + HEADER - 1) / HEADER + 1
  }

  function Chunk(nu: int): int { if nu < 4096 then 4096 else nu }

  /** sbrk grants memory above the static data that it has not granted before. */
  ghost predicate GoodGrant(base: int, arena: iset<int>, nu: int, grant: int) {
    grant != -1 ==> grant > base && forall u :: Blk(grant, Chunk(nu)).Has(u) ==> u !in arena
  }

  /** The arena grows by exactly the granted chunk. */
  ghost predicate Grown(arena: iset<int>, arena': iset<int>, nu: int, grant: int) {
    forall u :: u in arena' <==> u in arena || Blk(grant, Chunk(nu)).Has(u)
  }

  // ---------- the allocator ----------

  /** umalloc.c's static state and the headers in memory.  `live` is what malloc has handed out
      and `arena` every unit that sbrk has granted. */
  class Allocator {
    const base: int
    var freep: int // 0 before the first malloc
    var ptr: map<int, int>
    var size: map<int, int>
    ghost var free: seq<Blk>
    ghost var live: map<int, int>
    ghost var arena: iset<int>

    /** The free list is circular through the headers and everything is accounted for. */
    ghost predicate Ready()
      reads this
    {
      && base > 0 && Accounted(free, live, size, arena) && free[0].addr == base
      && freep != 0 && Linked(free, ptr, size) && IsEntry(free, freep)
    }

    ghost predicate Valid()
      reads this
    {
      if freep == 0 then base > 0 && free == [Blk(base, 0)] && live == map[] && arena == iset{} else Ready()
    }

    constructor (base: int)
      requires base > 0
      ensures Valid() && live == map[] && arena == iset{} && this.base == base
    {
      this.base, freep, ptr, size := base, 0, map[], map[];
      free, live, arena := [Blk(base, 0)], map[], iset{};
    }

    /** free's scan: it stops, at the only entry after which the block belongs. */
    method FindPlace(bp: int, ghost t: int, ghost b: Blk) returns (p: int)
      requires Ordered(free) && FitsAfter(free, t, b) && b.addr == bp && Linked(free, ptr, size)
      requires IsEntry(free, freep)
      ensures p == free[t].addr
    {
      p := freep;
      ghost var k :| 0 <= k < |free| && free[k].addr == p;
      while !(bp > p && bp < ptr[p])
        invariant 0 <= k < |free| && p == free[k].addr && LinkedAt(free, ptr, size, k)
        decreases if k <= t then t - k else t - k + |free|
      {
        StopsOnlyAt(free, t, b, k);
        if p >= ptr[p] && (bp > p || bp < ptr[p]) { break; }
        p := ptr[p];
        k := After(free, k);
      }
      StopsOnlyAt(free, t, b, k);
    }

    /** free's assignments: join or link upward, then join or link downward. */
    method Relink(p: int, bp: int, ghost t: int, ghost b: Blk)
      requires Ordered(free) && FitsAfter(free, t, b) && Linked(free, ptr, size)
      requires p == free[t].addr && bp == b.addr && bp in size && size[bp] == b.size
      modifies this`ptr, this`size, this`freep
      ensures Relinked(free, t, b, old(ptr), old(size), ptr, size) && freep == p
      ensures forall a :: a in old(size) && a != bp && a != p ==> a in size && size[a] == old(size)[a]
    {
      assert LinkedAt(free, ptr, size, t) && (t + 1 < |free| ==> LinkedAt(free, ptr, size, t + 1));
      if bp + size[bp] == ptr[p] {
        size := size[bp := size[bp] + size[ptr[p]]];
        ptr := ptr[bp := ptr[ptr[p]]];
      } else {
        ptr := ptr[bp := ptr[p]];
      }
      if p + size[p] == bp {
        size := size[p := size[p] + size[bp]];
        ptr := ptr[p := ptr[bp]];
      } else {
        ptr := ptr[p := bp];
      }
      freep := p;
    }

    /** free: the block whose header is bp goes back to the list.  The scan always finds its
        place, live blocks other than bp are untouched and no unit is lost. */
    method Free(bp: int)
      requires Ready() && bp in live
      modifies this
      ensures Ready() && live == old(live) - {bp} && arena == old(arena)
      ensures exists i :: 0 <= i < |free| && free[i].size >= old(live[bp])
    {
      ghost var b := Blk(bp, live[bp]);
      ghost var t := Position(free, live, size, bp, |free|);
      var p := FindPlace(bp, t, b);
      assert p >= base;
      Relink(p, bp, t, b);
      ghost var r := FreeResult(free, live, old(ptr), old(size), arena, t, bp, ptr, size);
      free, live := r, live - {bp};
    }

    /** A grant of n units at hp becomes a block in use, as morecore's header makes it. */
    method Adopt(hp: int, n: int)
      requires Ready() && n > 0 && hp > base && forall u :: Blk(hp, n).Has(u) ==> u !in arena
      modifies this
      ensures Ready() && live == old(live)[hp := n] && hp !in old(live) && free == old(free)
      ensures forall u :: u in arena <==> u in old(arena) || Blk(hp, n).Has(u)
    {
      ghost var arena' := arena + iset u | Blk(hp, n).Has(u);
      AccountGrow(free, live, size, arena, hp, n, arena');
      LinkedGrow(free, ptr, size, hp, n);
      size, arena, live := size[hp := n], arena', live[hp := n];
    }

    /** morecore: a grant of sbrk (or -1) is handed to free like any other block. */
    method MoreCore(nu: int, grant: int) returns (p: int)
      requires Ready() && nu > 0 && GoodGrant(base, arena, nu, grant)
      modifies this
      ensures Ready() && live == old(live)
      ensures grant == -1 ==> p == 0 && arena == old(arena)
      ensures grant != -1 ==> p == freep && Grown(old(arena), arena, nu, grant)
      ensures grant != -1 ==> exists i :: 0 <= i < |free| && free[i].size >= nu && free[i].size >= 4096
    {
      var n := nu;
      if n < 4096 { n := 4096; }
      if grant == -1 { return 0; }
      var hp := grant;
      Adopt(hp, n);
      Free(hp);
      assert live == old(live);
      p := freep;
    }

    /** One circuit of malloc's loop from the entry after freep: it stops at the first entry
        that is large enough, or at freep with every entry too small. */
    method Scan(nunits: int) returns (found: bool, prevp: int, p: int, ghost i: int)
      requires Ordered(free) && Linked(free, ptr, size) && IsEntry(free, freep) && nunits > 0
      ensures found ==> CanTake(free, i, nunits) && p == free[i].addr && prevp == free[i - 1].addr
      ensures found <==> exists j :: 0 <= j < |free| && free[j].size >= nunits
    {
      ghost var k :| 0 <= k < |free| && free[k].addr == freep;
      ghost var h := k;
      assert LinkedAt(free, ptr, size, k);
      prevp, i := freep, After(free, k);
      p := ptr[prevp];
      while true
        invariant 0 <= h < |free| && prevp == free[h].addr
        invariant i == After(free, h) && p == free[i].addr && Passed(free, k, i, nunits)
        decreases |free| - Dist(k, i, |free|)
      {
        assert LinkedAt(free, ptr, size, i);
        if size[p] >= nunits { return true, prevp, p, i; }
        if p == freep {
          AllPassed(free, k, i, nunits);
          return false, prevp, p, i;
        }
        PassStep(free, k, i, nunits);
        prevp, h := p, i;
        p, i := ptr[p], After(free, i);
      }
    }

    /** malloc's assignments: unlink the entry after prevp, or cut its tail off. */
    method Carve(prevp: int, p: int, nunits: int, ghost i: int) returns (q: int)
      requires CanTake(free, i, nunits) && Linked(free, ptr, size) && p == free[i].addr && prevp == free[i - 1].addr
      modifies this`ptr, this`size, this`freep
      ensures Carved(free, i, nunits, old(ptr), old(size), ptr, size)
      ensures freep == prevp && q == Cut(free, i, nunits).addr
    {
      assert LinkedAt(free, ptr, size, i);
      q := p;
      if size[p] == nunits {
        ptr := ptr[prevp := ptr[p]];
      } else {
        size := size[p := size[p] - nunits];
        q := p + size[p];
        size := size[q := nunits];
      }
      freep := prevp;
    }

    method TakeBlock(prevp: int, p: int, nunits: int, ghost i: int) returns (q: int)
      requires Ready() && CanTake(free, i, nunits) && p == free[i].addr && prevp == free[i - 1].addr
      modifies this
      ensures Ready() && arena == old(arena) && q > base && q !in old(live) && live == old(live)[q := nunits]
    {
      assert prevp >= base;
      q := Carve(prevp, p, nunits, i);
      ghost var r := TakeResult(free, live, old(ptr), old(size), arena, i, nunits, ptr, size);
      free, live := r, live[q := nunits];
    }

    /** malloc: first fit from freep round the list.  A result is a new block that overlaps no
        live one; 0 means that no entry was large enough and sbrk refused.  After a grant one
        more circuit, from the freep that morecore returns, is certain to find a block.
        `grant` is what sbrk would answer if asked. */
    method Malloc(nbytes: nat, grant: int) returns (ap: int, ghost grew: bool)
      requires Valid() && UnitsFor(nbytes) * HEADER < 0x8000_0000 // no sum or product wraps, sbrk's int is positive
      requires GoodGrant(base, arena, UnitsFor(nbytes), grant)
      modifies this
      ensures Ready()
      ensures ap == 0 <==> grew && grant == -1
      ensures ap == 0 ==> live == old(live)
      ensures ap != 0 ==> ap - 1 !in old(live) && live == old(live)[ap - 1 := UnitsFor(nbytes)]
      ensures ap != 0 ==> (live[ap - 1] - 2) * HEADER < nbytes <= (live[ap - 1] - 1) * HEADER
      ensures grew <==> forall i :: 0 <= i < |old(free)| ==> old(free)[i].size < UnitsFor(nbytes)
      ensures if grew && grant != -1 then Grown(old(arena), arena, UnitsFor(nbytes), grant) else arena == old(arena)
    {
      var nunits := (nbytes + HEADER - 1) / HEADER + 1;
      if freep == 0 { Start(); }
      grew := false;
      var found, prevp, p, i := Scan(nunits);
      if !found {
        grew := true;
        p := MoreCore(nunits, grant);
        if p == 0 { return 0, grew; }
        found, prevp, p, i := Scan(nunits);
      }
      var q := TakeBlock(prevp, p, nunits, i);
      ap := q + 1;
    }

    /** malloc's first call: the list is `base` alone, linked to itself. */
    method Start()
      requires Valid() && freep == 0
      modifies this`ptr, this`size, this`freep
      ensures Ready()
    {
      ptr, size := ptr[base := base], size[base := 0];
      freep := base;
      assert LinkedAt(free, ptr, size, 0);
      assert free[0].addr == freep;
    }
  }
}
