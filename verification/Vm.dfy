/** User address spaces (walkpgdir, mappages, setupkvm, allocuvm, deallocuvm, freevm and copyuvm in
    vm.c) over the page supply of kalloc.c.  Addresses are page numbers, physical pages are frames,
    and sizes are in bytes. */
module Vm {

  const PGSIZE := 4096
  const NPT := 1024            // entries in a page table
  const ND := 1024             // entries in a page directory
  const USER := 512 * NPT      // pages below KERNBASE
  const KERNBASE := USER * PGSIZE

  type Data = seq<int>

  datatype Pte = Absent | Pte(frame: nat, flags: nat)

  datatype Tab = NoTab | Tab(frame: nat, ptes: seq<Pte>)

  /** A page directory in frame `dir` and the tables its entries name. */
  datatype Space = Gone | Space(dir: nat, tabs: seq<Tab>)

  /** What a frame is for.  InHand: allocated and not (yet) installed anywhere. */
  datatype Owner = InFree | InHand | DirOf(x: nat) | TabOf(x: nat, d: nat) | PageOf(x: nat, p: nat)

  /** `free` is kmem.freelist; `owner` is auxiliary. */
  datatype State = State(free: seq<nat>, data: seq<Data>, spaces: seq<Space>, owner: seq<Owner>)

  predicate Formed(sp: Space) {
    sp.Space? && |sp.tabs| == ND && forall d :: 0 <= d < ND && sp.tabs[d].Tab? ==> |sp.tabs[d].ptes| == NPT
  }

  /** The flat map a page directory stands for. */
  function Lookup(sp: Space, p: nat): Pte
    requires Formed(sp) && p < ND * NPT
  {
    var t := sp.tabs[p / NPT];
    if t.Tab? then t.ptes[p % NPT] else Absent
  }

  function WithPte(sp: Space, p: nat, pte: Pte): Space
    requires Formed(sp) && p < ND * NPT && sp.tabs[p / NPT].Tab?
  {
    sp.(tabs := sp.tabs[p / NPT := sp.tabs[p / NPT].(ptes := sp.tabs[p / NPT].ptes[p % NPT := pte])])
  }

  function WithTab(sp: Space, d: nat, f: nat): Space
    requires Formed(sp) && d < ND
  {
    sp.(tabs := sp.tabs[d := Tab(f, seq(NPT, i => Absent))])
  }

  lemma LookupWithPte(sp: Space, p: nat, pte: Pte, q: nat)
    requires Formed(sp) && p < ND * NPT && q < ND * NPT && sp.tabs[p / NPT].Tab?
    ensures Formed(WithPte(sp, p, pte)) && Lookup(WithPte(sp, p, pte), q) == if p == q then pte else Lookup(sp, q)
  {
    if p / NPT == q / NPT && p % NPT == q % NPT {
      assert p == NPT * (p / NPT) + p % NPT && q == NPT * (q / NPT) + q % NPT;
    }
  }

  /** A fresh table changes no translation. */
  lemma LookupWithTab(sp: Space, d: nat, f: nat, q: nat)
    requires Formed(sp) && d < ND && sp.tabs[d].NoTab? && q < ND * NPT
    ensures Formed(WithTab(sp, d, f)) && Lookup(WithTab(sp, d, f), q) == Lookup(sp, q)
  {
  }

  // ---------- conservation ----------

  ghost predicate FreeOk(s: State) {
    && |s.owner| == |s.data|
    && (forall i :: 0 <= i < |s.free| ==> s.free[i] < |s.owner| && s.owner[s.free[i]] == InFree)
    && (forall i, j :: 0 <= i < j < |s.free| ==> s.free[i] != s.free[j])
  }

  /** A frame is on the free list, in hand, or in the one place its owner says. */
  ghost predicate FrameOk(s: State, f: nat)
    requires f < |s.owner|
  {
    match s.owner[f]
    case InFree => f in s.free
    case InHand => true
    case DirOf(x) => x < |s.spaces| && s.spaces[x].Space? && s.spaces[x].dir == f
    case TabOf(x, d) =>
      && x < |s.spaces| && Formed(s.spaces[x]) && d < ND
      && s.spaces[x].tabs[d].Tab? && s.spaces[x].tabs[d].frame == f
    case PageOf(x, p) =>
      && x < |s.spaces| && Formed(s.spaces[x]) && p < USER
      && Lookup(s.spaces[x], p).Pte? && Lookup(s.spaces[x], p).frame == f
  }

  ghost predicate DirOk(s: State, x: nat)
    requires x < |s.spaces| && s.spaces[x].Space?
  {
    Formed(s.spaces[x]) && s.spaces[x].dir < |s.owner| && s.owner[s.spaces[x].dir] == DirOf(x)
  }

  ghost predicate TabOk(s: State, x: nat, d: nat)
    requires x < |s.spaces| && Formed(s.spaces[x]) && d < ND
  {
    var t := s.spaces[x].tabs[d];
    t.Tab? ==> t.frame < |s.owner| && s.owner[t.frame] == TabOf(x, d)
  }

  ghost predicate PageOk(s: State, x: nat, p: nat)
    requires x < |s.spaces| && Formed(s.spaces[x]) && p < USER
  {
    var e := Lookup(s.spaces[x], p);
    e.Pte? ==> e.frame < |s.owner| && s.owner[e.frame] == PageOf(x, p)
  }

  ghost predicate SpaceOk(s: State, x: nat)
    requires x < |s.spaces|
  {
    s.spaces[x].Space? ==>
      && DirOk(s, x)
      && (forall d: nat :: d < ND ==> TabOk(s, x, d))
      && (forall p: nat :: p < USER ==> PageOk(s, x, p))
  }

  ghost predicate Inv(s: State) {
    && FreeOk(s)
    && (forall f: nat :: f < |s.owner| ==> FrameOk(s, f))
    && (forall x: nat :: x < |s.spaces| ==> SpaceOk(s, x))
  }

  // ---------- the page supply ----------

  function Junk(): Data { seq(PGSIZE, i => 1) }

  function Zero(): Data { seq(PGSIZE, i => 0) }

  ghost function Taken(s: State): State
    requires FreeOk(s) && |s.free| > 0
  {
    s.(free := s.free[1..], owner := s.owner[s.free[0] := InHand])
  }

  ghost function Returned(s: State, f: nat): State
    requires FreeOk(s) && f < |s.owner|
  {
    s.(free := [f] + s.free, data := s.data[f := Junk()], owner := s.owner[f := InFree])
  }

  lemma TakenInv(s: State)
    requires Inv(s) && |s.free| > 0
    ensures Inv(Taken(s))
  {
    var t, f0 := Taken(s), s.free[0];
    forall f: nat | f < |s.owner| ensures FrameOk(t, f) {
      assert FrameOk(s, f);
      if s.owner[f] == InFree && f != f0 { var i :| 0 <= i < |s.free| && s.free[i] == f; assert t.free[i - 1] == f; }
    }
    forall x: nat | x < |s.spaces| ensures SpaceOk(t, x) {
      assert SpaceOk(s, x);
      if s.spaces[x].Space? {
        forall d: nat | d < ND ensures TabOk(t, x, d) { assert TabOk(s, x, d); }
        forall p: nat | p < USER ensures PageOk(t, x, p) { assert PageOk(s, x, p); }
      }
    }
  }

  /** Giving back a frame in hand. */
  lemma ReturnedInv(s: State, f: nat)
    requires Inv(s) && f < |s.owner| && s.owner[f] == InHand
    ensures Inv(Returned(s, f))
  {
    var t := Returned(s, f);
    forall g: nat | g < |s.owner| ensures FrameOk(t, g) {
      assert FrameOk(s, g);
      if s.owner[g] == InFree { var i :| 0 <= i < |s.free| && s.free[i] == g; assert t.free[i + 1] == g; }
      assert t.free[0] == f;
    }
    forall x: nat | x < |s.spaces| ensures SpaceOk(t, x) {
      assert SpaceOk(s, x);
      if s.spaces[x].Space? {
        forall d: nat | d < ND ensures TabOk(t, x, d) { assert TabOk(s, x, d); }
        forall p: nat | p < USER ensures PageOk(t, x, p) { assert PageOk(s, x, p); }
      }
    }
  }

  // ---------- tables and entries ----------

  predicate Live(s: State, x: nat) { x < |s.spaces| && Formed(s.spaces[x]) }

  /** walkpgdir's new, zeroed table. */
  ghost function AddTab(s: State, x: nat, d: nat, f: nat): State
    requires Live(s, x) && d < ND && f < |s.owner| == |s.data|
  {
    s.(spaces := s.spaces[x := WithTab(s.spaces[x], d, f)],
       owner := s.owner[f := TabOf(x, d)], data := s.data[f := Zero()])
  }

  /** mappages' entry.  Frames of kernel pages are not the supply's, so only a user page owns one. */
  ghost function Install(s: State, x: nat, p: nat, pte: Pte): State
    requires Live(s, x) && p < ND * NPT && s.spaces[x].tabs[p / NPT].Tab? && pte.Pte? &&
      (p < USER ==> pte.frame < |s.owner|)
  {
    s.(spaces := s.spaces[x := WithPte(s.spaces[x], p, pte)],
       owner := if p < USER then s.owner[pte.frame := PageOf(x, p)] else s.owner)
  }

  /** A user page taken out of the space, its frame in hand. */
  ghost function Detach(s: State, x: nat, p: nat): State
    requires Live(s, x) && p < USER && Lookup(s.spaces[x], p).Pte? && Lookup(s.spaces[x], p).frame < |s.owner|
  {
    s.(spaces := s.spaces[x := WithPte(s.spaces[x], p, Absent)],
       owner := s.owner[Lookup(s.spaces[x], p).frame := InHand])
  }

  /** Space y is as it was and its frames kept their owner. */
  lemma OtherSpace(s: State, t: State, y: nat)
    requires Inv(s) && y < |s.spaces| == |t.spaces| && t.spaces[y] == s.spaces[y] && |t.owner| == |s.owner|
    requires forall f: nat :: f < |s.owner| && Of(s.owner[f], y) ==> t.owner[f] == s.owner[f]
    ensures SpaceOk(t, y)
  {
    assert SpaceOk(s, y);
    if s.spaces[y].Space? {
      forall d: nat | d < ND ensures TabOk(t, y, d) { assert TabOk(s, y, d); }
      forall p: nat | p < USER ensures PageOk(t, y, p) { assert PageOk(s, y, p); }
    }
  }

  predicate Of(o: Owner, x: nat) { (o.DirOf? || o.TabOf? || o.PageOf?) && o.x == x }

  lemma AddTabInv(s: State, x: nat, d: nat, f: nat)
    requires Inv(s) && Live(s, x) && d < ND && s.spaces[x].tabs[d].NoTab? && f < |s.owner| && s.owner[f] == InHand
    ensures Inv(AddTab(s, x, d, f)) && Live(AddTab(s, x, d, f), x)
  {
    var t := AddTab(s, x, d, f);
    assert SpaceOk(s, x);
    forall q: nat | q < ND * NPT
      ensures Lookup(t.spaces[x], q) == Lookup(s.spaces[x], q)
    {
      LookupWithTab(s.spaces[x], d, f, q);
    }
    forall g: nat | g < |s.owner| ensures FrameOk(t, g) { assert FrameOk(s, g); }
    forall e: nat | e < ND ensures TabOk(t, x, e) { assert TabOk(s, x, e); }
    forall p: nat | p < USER ensures PageOk(t, x, p) { assert PageOk(s, x, p); }
    forall y: nat | y < |s.spaces| && y != x ensures SpaceOk(t, y) { OtherSpace(s, t, y); }
  }

  lemma InstallInv(s: State, x: nat, p: nat, pte: Pte)
    requires Inv(s) && Live(s, x) && p < ND * NPT && s.spaces[x].tabs[p / NPT].Tab? && Lookup(s.spaces[x], p) == Absent
    requires pte.Pte? && (p < USER ==> pte.frame < |s.owner| && s.owner[pte.frame] == InHand)
    ensures Inv(Install(s, x, p, pte)) && Live(Install(s, x, p, pte), x)
  {
    var t := Install(s, x, p, pte);
    assert SpaceOk(s, x);
    forall q: nat | q < ND * NPT
      ensures Live(t, x) && Lookup(t.spaces[x], q) == if p == q then pte else Lookup(s.spaces[x], q)
    {
      LookupWithPte(s.spaces[x], p, pte, q);
    }
    forall g: nat | g < |s.owner| ensures FrameOk(t, g) { assert FrameOk(s, g); }
    forall e: nat | e < ND ensures TabOk(t, x, e) { assert TabOk(s, x, e); }
    forall q: nat | q < USER ensures PageOk(t, x, q) { assert PageOk(s, x, q); }
    forall y: nat | y < |s.spaces| && y != x ensures SpaceOk(t, y) { OtherSpace(s, t, y); }
  }

  lemma DetachInv(s: State, x: nat, p: nat)
    requires Inv(s) && Live(s, x) && p < USER && Lookup(s.spaces[x], p).Pte?
    ensures Lookup(s.spaces[x], p).frame < |s.owner| && s.owner[Lookup(s.spaces[x], p).frame] == PageOf(x, p)
    ensures Inv(Detach(s, x, p)) && Live(Detach(s, x, p), x)
  {
    assert SpaceOk(s, x) && PageOk(s, x, p);
    var t := Detach(s, x, p);
    forall q: nat | q < ND * NPT
      ensures Live(t, x) && Lookup(t.spaces[x], q) == if p == q then Absent else Lookup(s.spaces[x], q)
    {
      LookupWithPte(s.spaces[x], p, Absent, q);
    }
    forall g: nat | g < |s.owner| ensures FrameOk(t, g) { assert FrameOk(s, g); }
    forall e: nat | e < ND ensures TabOk(t, x, e) { assert TabOk(s, x, e); }
    forall q: nat | q < USER ensures PageOk(t, x, q) { assert PageOk(s, x, q); }
    forall y: nat | y < |s.spaces| && y != x ensures SpaceOk(t, y) { OtherSpace(s, t, y); }
  }

  // ---------- unmapping ----------

  /** deallocuvm at one page: free the frame and clear the entry, if there is one. */
  ghost function PageStep(s: State, x: nat, p: nat): State
    requires Inv(s) && Live(s, x) && p < USER
  {
    if Lookup(s.spaces[x], p) == Absent then s
    else DetachInv(s, x, p); Returned(Detach(s, x, p), Lookup(s.spaces[x], p).frame)
  }

  /** From s to t the user pages lo..hi of space x were unmapped and their frames freed; every other
      translation, table, space and frame is as it was. */
  ghost predicate Unmapped(s: State, t: State, x: nat, lo: nat, hi: nat)
    requires Live(s, x)
  {
    && Inv(t) && Live(t, x) && |t.owner| == |s.owner| && |t.spaces| == |s.spaces|
    && (forall y :: 0 <= y < |s.spaces| && y != x ==> t.spaces[y] == s.spaces[y])
    && t.spaces[x].dir == s.spaces[x].dir
    && (forall d :: 0 <= d < ND ==> SameTable(s.spaces[x].tabs[d], t.spaces[x].tabs[d]))
    && (forall p: nat :: p < ND * NPT ==>
        Lookup(t.spaces[x], p) == if lo <= p < hi then Absent else Lookup(s.spaces[x], p))
    && (forall f :: 0 <= f < |s.owner| ==> t.owner[f] == if PageIn(s.owner[f], x, lo, hi) then InFree else s.owner[f])
    && |s.data| == |s.owner| && (forall f :: 0 <= f < |s.owner| && t.owner[f] != InFree ==> t.data[f] == s.data[f])
  }

  predicate SameTable(a: Tab, b: Tab) { a.Tab? == b.Tab? && (a.Tab? ==> a.frame == b.frame) }

  predicate PageIn(o: Owner, x: nat, lo: nat, hi: nat) { o.PageOf? && o.x == x && lo <= o.p < hi }

  lemma PageStepUnmaps(s: State, x: nat, p: nat)
    requires Inv(s) && Live(s, x) && p < USER
    ensures Unmapped(s, PageStep(s, x, p), x, p, p + 1)
  {
    if Lookup(s.spaces[x], p) != Absent {
      DetachInv(s, x, p);
      ReturnedInv(Detach(s, x, p), Lookup(s.spaces[x], p).frame);
      forall q: nat | q < ND * NPT
        ensures Lookup(WithPte(s.spaces[x], p, Absent), q) == if p == q then Absent else Lookup(s.spaces[x], q)
      {
        LookupWithPte(s.spaces[x], p, Absent, q);
      }
    }
    forall f: nat | f < |s.owner| && s.owner[f] == PageOf(x, p)
      ensures Lookup(s.spaces[x], p).Pte? && Lookup(s.spaces[x], p).frame == f
    {
      assert FrameOk(s, f);
    }
  }

  lemma UnmappedJoin(s: State, t: State, u: State, x: nat, lo: nat, mid: nat, hi: nat)
    requires Live(s, x) && Live(t, x) && lo <= mid <= hi && Unmapped(s, t, x, lo, mid) && Unmapped(t, u, x, mid, hi)
    ensures Unmapped(s, u, x, lo, hi)
  {
  }

  /** The page-by-page scan. */
  ghost function Scan(s: State, x: nat, lo: nat, hi: nat): State
    requires Inv(s) && Live(s, x) && hi <= USER
    decreases hi - lo
  {
    if lo >= hi then s else PageStepUnmaps(s, x, lo); Scan(PageStep(s, x, lo), x, lo + 1, hi)
  }

  lemma {:induction false} ScanUnmaps(s: State, x: nat, lo: nat, hi: nat)
    requires Inv(s) && Live(s, x) && lo <= hi <= USER
    ensures Unmapped(s, Scan(s, x, lo, hi), x, lo, hi)
    decreases hi - lo
  {
    if lo < hi {
      PageStepUnmaps(s, x, lo);
      ScanUnmaps(PageStep(s, x, lo), x, lo + 1, hi);
      UnmappedJoin(s, PageStep(s, x, lo), Scan(s, x, lo, hi), x, lo, lo + 1, hi);
    }
  }

  /** Where a directory entry is absent, the scan may go on at the next one. */
  lemma {:induction false} SkipTable(s: State, x: nat, lo: nat, m: nat, hi: nat)
    requires Inv(s) && Live(s, x) && lo <= m <= hi <= USER && s.spaces[x].tabs[lo / NPT].NoTab?
    requires m <= NPT * (lo / NPT + 1)
    ensures Scan(s, x, lo, hi) == Scan(s, x, m, hi)
    decreases m - lo
  {
    if lo < m {
      assert Lookup(s.spaces[x], lo) == Absent;
      if lo + 1 < m { assert (lo + 1) / NPT == lo / NPT; SkipTable(s, x, lo + 1, m, hi); }
    }
  }

  lemma SkipToNext(s: State, x: nat, lo: nat, hi: nat)
    requires Inv(s) && Live(s, x) && lo < hi <= USER && s.spaces[x].tabs[lo / NPT].NoTab?
    ensures Scan(s, x, lo, hi) == Scan(s, x, (lo / NPT + 1) * NPT, hi)
  {
    var m := NPT * (lo / NPT + 1);
    SkipTable(s, x, lo, if m <= hi then m else hi, hi);
  }

  // ---------- freeing a space ----------

  /** freevm has freed tables 0..n of space x, whose directory still lists them. */
  ghost predicate FreedTabs(s: State, t: State, x: nat, n: nat) {
    && FreeOk(t) && t.spaces == s.spaces && |t.owner| == |s.owner|
    && (forall f: nat :: f < |t.owner| && t.owner[f] == InFree ==> f in t.free)
    && (forall f :: 0 <= f < |s.owner| ==> t.owner[f] == if TabIn(s.owner[f], x, n) then InFree else s.owner[f])
  }

  predicate TabIn(o: Owner, x: nat, n: nat) { o.TabOf? && o.x == x && o.d < n }

  lemma ReturnedFree(t: State, f: nat)
    requires FreeOk(t) && f < |t.owner| && t.owner[f] != InFree
    requires forall g: nat :: g < |t.owner| && t.owner[g] == InFree ==> g in t.free
    ensures FreeOk(Returned(t, f)) && forall g: nat :: g < |t.owner| && Returned(t, f).owner[g] == InFree ==>
      g in Returned(t, f).free
  {
    var u := Returned(t, f);
    forall g: nat | g < |t.owner| && u.owner[g] == InFree ensures g in u.free {
      if g == f {
        assert u.free[0] == f;
      } else {
        assert g in t.free;
        var i :| 0 <= i < |t.free| && t.free[i] == g;
        assert u.free[i + 1] == g;
      }
    }
  }

  lemma FreeTabNext(s: State, t: State, x: nat, n: nat)
    requires Inv(s) && Live(s, x) && n < ND && FreedTabs(s, t, x, n)
    ensures s.spaces[x].tabs[n].NoTab? ==> FreedTabs(s, t, x, n + 1)
    ensures s.spaces[x].tabs[n].Tab? ==>
      s.spaces[x].tabs[n].frame < |t.owner| && t.owner[s.spaces[x].tabs[n].frame] == TabOf(x, n)
    ensures s.spaces[x].tabs[n].Tab? ==> FreedTabs(s, Returned(t, s.spaces[x].tabs[n].frame), x, n + 1)
  {
    assert SpaceOk(s, x) && TabOk(s, x, n);
    forall f: nat | f < |s.owner| && s.owner[f] == TabOf(x, n)
      ensures s.spaces[x].tabs[n].Tab? && s.spaces[x].tabs[n].frame == f
    {
      assert FrameOk(s, f);
    }
    if s.spaces[x].tabs[n].Tab? { ReturnedFree(t, s.spaces[x].tabs[n].frame); }
  }

  /** Space x is gone: its directory, tables and pages are on the free list, nothing else moved. */
  ghost predicate Released(s: State, t: State, x: nat)
    requires x < |s.spaces|
  {
    && Inv(t) && t.spaces == s.spaces[x := Gone] && |t.owner| == |s.owner|
    && forall f :: 0 <= f < |s.owner| ==> t.owner[f] == if Of(s.owner[f], x) then InFree else s.owner[f]
  }

  /** The last kfree of freevm, of the directory itself. */
  lemma ReleasedAll(s: State, u: State, t: State, x: nat)
    requires Inv(s) && Live(s, x) && Unmapped(s, u, x, 0, USER) && FreedTabs(u, t, x, ND)
    ensures s.spaces[x].dir < |t.owner| && t.owner[s.spaces[x].dir] == DirOf(x)
    ensures Released(s, Returned(t, s.spaces[x].dir).(spaces := s.spaces[x := Gone]), x)
  {
    assert SpaceOk(s, x) && SpaceOk(u, x);
    ReturnedFree(t, s.spaces[x].dir);
    var v := Returned(t, s.spaces[x].dir).(spaces := s.spaces[x := Gone]);
    forall f: nat | f < |s.owner|
      ensures v.owner[f] == (if Of(s.owner[f], x) then InFree else s.owner[f]) && FrameOk(v, f)
    {
      assert FrameOk(s, f) && FrameOk(u, f);
    }
    forall y: nat | y < |s.spaces| && y != x ensures SpaceOk(v, y) { OtherSpace(s, v, y); }
  }

  // ---------- mapping ----------

  /** From s to t the user pages lo..hi of space x were mapped to frames that were free; tables may
      have been added; every other translation, space and used frame is as it was. */
  ghost predicate Grown(s: State, t: State, x: nat, lo: nat, hi: nat)
    requires Live(s, x)
  {
    && Inv(t) && Live(t, x) && |t.owner| == |s.owner| == |s.data| && |t.spaces| == |s.spaces|
    && (forall y :: 0 <= y < |s.spaces| && y != x ==> t.spaces[y] == s.spaces[y])
    && t.spaces[x].dir == s.spaces[x].dir
    && (forall p: nat :: p < ND * NPT && !(lo <= p < hi) ==> Lookup(t.spaces[x], p) == Lookup(s.spaces[x], p))
    && (forall p: nat :: lo <= p < hi && p < USER ==> Lookup(t.spaces[x], p).Pte?)
    && (forall f :: 0 <= f < |s.owner| && s.owner[f] != InFree ==> t.owner[f] == s.owner[f] && t.data[f] == s.data[f])
    && (forall f :: 0 <= f < |s.owner| && t.owner[f] != s.owner[f] ==>
        PageIn(t.owner[f], x, lo, hi) || (t.owner[f].TabOf? && t.owner[f].x == x))
  }

  lemma GrownJoin(s: State, t: State, u: State, x: nat, lo: nat, mid: nat, hi: nat)
    requires Live(s, x) && Live(t, x) && lo <= mid <= hi && Grown(s, t, x, lo, mid) && Grown(t, u, x, mid, hi)
    ensures Grown(s, u, x, lo, hi)
  {
  }

  /** Unmapping what was just mapped restores every translation and returns every user frame. */
  lemma GrownUndone(s: State, t: State, u: State, x: nat, lo: nat, hi: nat, end: nat)
    requires Inv(s) && Live(s, x) && Live(t, x) && lo <= hi <= end <= USER && Grown(s, t, x, lo, hi) &&
      Unmapped(t, u, x, lo, end)
    requires forall p: nat :: lo <= p < end ==> Lookup(s.spaces[x], p) == Absent
    ensures Grown(s, u, x, lo, lo)
  {
    assert SpaceOk(s, x);
    forall f: nat | f < |s.owner| ensures !PageIn(s.owner[f], x, lo, end) { assert FrameOk(s, f); }
  }

  /** The same with one frame, taken for a page that could not be mapped, given back at the end. */
  lemma GrownUndoneHand(s: State, t: State, c: Data, u: State, x: nat, lo: nat, hi: nat, end: nat)
    requires Inv(s) && Live(s, x) && Live(t, x) && lo <= hi <= end <= USER && Grown(s, t, x, lo, hi) && |t.free| > 0
    requires FreeOk(t) && Unmapped(Taken(t).(data := t.data[t.free[0] := c]), u, x, lo, end)
    requires forall p: nat :: lo <= p < end ==> Lookup(s.spaces[x], p) == Absent
    ensures u.owner[t.free[0]] == InHand && Grown(s, Returned(u, t.free[0]), x, lo, lo)
  {
    assert SpaceOk(s, x);
    forall f: nat | f < |s.owner| ensures !PageIn(s.owner[f], x, lo, end) { assert FrameOk(s, f); }
    ReturnedInv(u, t.free[0]);
  }

  // ---------- new spaces ----------

  /** From s to t space x was created without user pages, on frames that were free. */
  ghost predicate Born(s: State, t: State, x: nat) {
    && Inv(t) && Live(t, x) && |t.owner| == |s.owner| == |s.data| && |t.spaces| == |s.spaces|
    && (forall y :: 0 <= y < |s.spaces| && y != x ==> t.spaces[y] == s.spaces[y])
    && (forall p: nat :: p < USER ==> Lookup(t.spaces[x], p) == Absent)
    && (forall f :: 0 <= f < |s.owner| && s.owner[f] != InFree ==> t.owner[f] == s.owner[f] && t.data[f] == s.data[f])
    && (forall f :: 0 <= f < |s.owner| && t.owner[f] != s.owner[f] ==> Of(t.owner[f], x))
  }

  function Blank(f: nat): Space { Space(f, seq(ND, d => NoTab)) }

  lemma CreateInv(s: State, x: nat, f: nat, c: Data)
    requires Inv(s) && x < |s.spaces| && s.spaces[x] == Gone && f < |s.owner| && s.owner[f] == InHand
    ensures Inv(s.(spaces := s.spaces[x := Blank(f)], owner := s.owner[f := DirOf(x)], data := s.data[f := c]))
  {
    var t := s.(spaces := s.spaces[x := Blank(f)], owner := s.owner[f := DirOf(x)], data := s.data[f := c]);
    forall g: nat | g < |s.owner| ensures FrameOk(t, g) { assert FrameOk(s, g); }
    forall y: nat | y < |s.spaces| && y != x ensures SpaceOk(t, y) { OtherSpace(s, t, y); }
  }

  /** Freeing a space just born (and grown since) puts every frame back where it was, except those in hand. */
  lemma BornReleased(s: State, t: State, u: State, x: nat)
    requires Inv(s) && x < |s.spaces| && s.spaces[x] == Gone && |t.spaces| == |s.spaces| && |t.owner| == |s.owner| &&
      Released(t, u, x)
    requires forall y :: 0 <= y < |s.spaces| && y != x ==> t.spaces[y] == s.spaces[y]
    requires forall f :: 0 <= f < |s.owner| && s.owner[f] != InFree ==> t.owner[f] == s.owner[f]
    requires forall f :: 0 <= f < |s.owner| && t.owner[f] != s.owner[f] ==> Of(t.owner[f], x) || t.owner[f] == InHand
    ensures u.spaces == s.spaces
    ensures forall f :: 0 <= f < |s.owner| ==>
      u.owner[f] == if s.owner[f] == InFree && t.owner[f] == InHand then InHand else s.owner[f]
  {
    forall f: nat | f < |s.owner| ensures !Of(s.owner[f], x) { assert FrameOk(s, f); }
  }

  /** kmap, flattened to pages: what setupkvm maps, in order. */
  datatype KPage = KPage(page: nat, pte: Pte)

  predicate GoodKernel(k: seq<KPage>) {
    && (forall m :: 0 <= m < |k| ==> USER <= k[m].page < ND * NPT && k[m].pte.Pte?)
    && (forall m, n :: 0 <= m < n < |k| ==> k[m].page != k[n].page)
  }

  /** Page q is one of the first m kernel pages. */
  predicate Listed(k: seq<KPage>, m: nat, q: nat)
    requires m <= |k|
  {
    exists i :: 0 <= i < m && k[i].page == q
  }

  /** Above the user part sp maps the first m kernel pages, each as kmap says, and no other page. */
  ghost predicate KernelMapped(sp: Space, k: seq<KPage>, m: nat)
    requires m <= |k| && GoodKernel(k) && Formed(sp)
  {
    && (forall i :: 0 <= i < m ==> Lookup(sp, k[i].page) == k[i].pte)
    && (forall q: nat :: USER <= q < ND * NPT && !Listed(k, m, q) ==> Lookup(sp, q) == Absent)
  }

  /** One more kernel page. */
  lemma KernelMappedNext(sp: Space, sp': Space, k: seq<KPage>, m: nat)
    requires m < |k| && GoodKernel(k) && Formed(sp) && Formed(sp')
    requires KernelMapped(sp, k, m) && Lookup(sp', k[m].page) == k[m].pte
    requires forall q: nat :: q < ND * NPT && q != k[m].page ==> Lookup(sp', q) == Lookup(sp, q)
    ensures KernelMapped(sp', k, m + 1)
  {
    forall q: nat | USER <= q < ND * NPT && !Listed(k, m + 1, q) ensures Lookup(sp', q) == Absent {
      assert k[m].page != q && !Listed(k, m, q);
    }
  }

  lemma NotListed(k: seq<KPage>, m: nat)
    requires m < |k| && GoodKernel(k)
    ensures !Listed(k, m, k[m].page)
  {
  }

  /** What happens to user pages leaves the kernel's alone. */
  lemma KernelKept(sp: Space, sp': Space, k: seq<KPage>)
    requires GoodKernel(k) && Formed(sp) && Formed(sp')
    requires KernelMapped(sp, k, |k|) && forall q: nat :: USER <= q < ND * NPT ==> Lookup(sp', q) == Lookup(sp, q)
    ensures KernelMapped(sp', k, |k|)
  {
  }

  predicate HasDir(k: seq<KPage>, n: nat, d: nat)
    requires n <= |k|
  {
    exists m :: 0 <= m < n && k[m].page / NPT == d
  }

  lemma HasDirNext(k: seq<KPage>, m: nat)
    requires m < |k|
    ensures forall d: nat :: HasDir(k, m + 1, d) <==> HasDir(k, m, d) || d == k[m].page / NPT
  {
    forall d: nat ensures HasDir(k, m + 1, d) <==> HasDir(k, m, d) || d == k[m].page / NPT {}
  }

  /** Tables the first n kernel pages need. */
  function NewTabs(k: seq<KPage>, n: nat): nat
    requires n <= |k|
  {
    if n == 0 then 0 else NewTabs(k, n - 1) + if HasDir(k, n - 1, k[n - 1].page / NPT) then 0 else 1
  }

  lemma {:induction false} NewTabsMonotone(k: seq<KPage>, m: nat, n: nat)
    requires m <= n <= |k|
    ensures NewTabs(k, m) <= NewTabs(k, n)
  {
    if m < n { NewTabsMonotone(k, m, n - 1); }
  }

  /** Frames setupkvm takes. */
  function KernelFrames(k: seq<KPage>): nat { 1 + NewTabs(k, |k|) }

  /** From s to t space x was created and the first m kernel pages were mapped into it. */
  ghost predicate SetUp(k: seq<KPage>, s: State, t: State, x: nat, m: nat) {
    && m <= |k| && GoodKernel(k) && Inv(t) && Live(t, x) && Born(s, t, x)
    && (forall d :: 0 <= d < ND ==> (t.spaces[x].tabs[d].Tab? <==> HasDir(k, m, d)))
    && KernelMapped(t.spaces[x], k, m) && |t.free| == |s.free| - 1 - NewTabs(k, m)
  }

  lemma SetUpNext(k: seq<KPage>, s: State, t: State, u: State, x: nat, m: nat)
    requires m < |k| && SetUp(k, s, t, x, m) && Inv(u) && Live(u, x) && Born(s, u, x)
    requires Lookup(u.spaces[x], k[m].page) == k[m].pte
    requires forall q: nat :: q < ND * NPT && q != k[m].page ==> Lookup(u.spaces[x], q) == Lookup(t.spaces[x], q)
    requires forall d :: 0 <= d < ND ==>
      u.spaces[x].tabs[d].Tab? == (d == k[m].page / NPT || t.spaces[x].tabs[d].Tab?)
    requires |u.free| == |t.free| - if t.spaces[x].tabs[k[m].page / NPT].Tab? then 0 else 1
    ensures SetUp(k, s, u, x, m + 1)
  {
    KernelMappedNext(t.spaces[x], u.spaces[x], k, m);
    HasDirNext(k, m);
  }

  const PTE_W := 2
  const PTE_U := 4

  /** PGROUNDUP, in pages. */
  function Up(n: nat): nat { (n + PGSIZE - 1) / PGSIZE }

  datatype Outcome = Done | NoFrame | NoTable

  lemma UpBounds(oldsz: nat, newsz: nat)
    requires newsz < oldsz <= KERNBASE
    ensures Up(newsz) <= Up(oldsz) <= USER && PGSIZE * (Up(oldsz) - 1) < oldsz <= PGSIZE * Up(oldsz)
  {
  }

  lemma PageOfAddr(a: nat, p: nat, oldsz: nat)
    requires a == PGSIZE * p && a < oldsz <= KERNBASE
    ensures p < Up(oldsz) <= USER && a / PGSIZE == p && a / (NPT * PGSIZE) == p / NPT
  {
  }

  /** The contents of a frame in hand are no part of the invariant. */
  lemma SameButData(s: State, f: nat, content: Data)
    requires Inv(s) && f < |s.data|
    ensures Inv(s.(data := s.data[f := content]))
  {
    var t := s.(data := s.data[f := content]);
    forall g: nat | g < |s.owner| ensures FrameOk(t, g) { assert FrameOk(s, g); }
    forall x: nat | x < |s.spaces| ensures SpaceOk(t, x) { OtherSpace(s, t, x); }
  }

  lemma UpMonotone(a: nat, b: nat)
    requires a <= b
    ensures Up(a) <= Up(b) && PGSIZE * Up(b) < b + PGSIZE && b <= PGSIZE * Up(b)
  {
  }

  /** User pages lo..hi are writable and zero. */
  ghost predicate Zeroed(s: State, x: nat, lo: nat, hi: nat)
    requires Live(s, x)
  {
    forall p: nat :: lo <= p < hi && p < USER ==> ZeroPage(s, Lookup(s.spaces[x], p))
  }

  lemma ZeroedKept(t: State, u: State, x: nat, lo: nat, p: nat)
    requires Inv(t) && Live(t, x) && Live(u, x) && lo <= p < USER && Zeroed(t, x, lo, p) && Grown(t, u, x, p, p + 1)
    requires ZeroPage(u, Lookup(u.spaces[x], p))
    ensures Zeroed(u, x, lo, p + 1)
  {
    assert SpaceOk(t, x);
    forall q: nat | lo <= q < p
      ensures ZeroPage(u, Lookup(u.spaces[x], q))
    {
      assert PageOk(t, x, q) && ZeroPage(t, Lookup(t.spaces[x], q));
    }
  }

  predicate ZeroPage(s: State, e: Pte) {
    e.Pte? && e.flags == PTE_W + PTE_U && e.frame < |s.data| && s.data[e.frame] == Zero()
  }

  // ---------- what growing costs ----------

  /** Frames for page p when growing from page lo: its own, and its table's where p is the first
      page that needs it. */
  function PageCost(sp: Space, lo: nat, p: nat): nat
    requires Formed(sp) && p < USER
  {
    if sp.tabs[p / NPT].NoTab? && (p == lo || p % NPT == 0) then 2 else 1
  }

  /** Frames that growing sp from page lo to page p takes. */
  function Spent(sp: Space, lo: nat, p: nat): nat
    requires Formed(sp) && p <= USER
    decreases p
  {
    if p <= lo then 0 else Spent(sp, lo, p - 1) + PageCost(sp, lo, p - 1)
  }

  lemma {:induction false} SpentMonotone(sp: Space, lo: nat, p: nat, q: nat)
    requires Formed(sp) && p <= q <= USER
    ensures Spent(sp, lo, p) <= Spent(sp, lo, q)
    decreases q
  {
    if p < q { SpentMonotone(sp, lo, p, q - 1); }
  }

  /** From s to t space x grew by pages lo..p: t's tables and supply. */
  ghost predicate Budget(s: State, t: State, x: nat, lo: nat, p: nat)
    requires Live(s, x) && Live(t, x) && lo <= p <= USER
  {
    && |t.free| + Spent(s.spaces[x], lo, p) == |s.free|
    && forall d :: 0 <= d < ND ==>
        (t.spaces[x].tabs[d].Tab? <==> s.spaces[x].tabs[d].Tab? || (lo < p && lo / NPT <= d <= (p - 1) / NPT))
  }

  /** allocuvm's loop up to page p. */
  ghost predicate GrownBy(s: State, t: State, x: nat, lo: nat, p: nat)
    requires Live(s, x)
  {
    Live(t, x) && lo <= p <= USER && Grown(s, t, x, lo, p) && Zeroed(t, x, lo, p) && Budget(s, t, x, lo, p)
  }

  lemma GrownByNone(s: State, x: nat, lo: nat)
    requires Inv(s) && Live(s, x) && lo <= USER
    ensures GrownBy(s, s, x, lo, lo)
  {
  }

  lemma BudgetPage(s: State, t: State, x: nat, lo: nat, p: nat)
    requires Live(s, x) && Live(t, x) && lo <= p < USER && Budget(s, t, x, lo, p)
    ensures PageCost(s.spaces[x], lo, p) == if t.spaces[x].tabs[p / NPT].NoTab? then 2 else 1
  {
  }

  lemma BudgetStep(s: State, t: State, u: State, x: nat, lo: nat, p: nat)
    requires Live(s, x) && Live(t, x) && Live(u, x) && lo <= p < USER && Budget(s, t, x, lo, p)
    requires |u.free| == |t.free| - if t.spaces[x].tabs[p / NPT].NoTab? then 2 else 1
    requires forall d :: 0 <= d < ND ==> (u.spaces[x].tabs[d].Tab? <==> d == p / NPT || t.spaces[x].tabs[d].Tab?)
    ensures Budget(s, u, x, lo, p + 1)
  {
    BudgetPage(s, t, x, lo, p);
  }

  // ---------- copying ----------

  /** Frames copyuvm has taken after p pages: the kernel part, the pages and their tables. */
  function Need(k: nat, p: nat): nat { k + p + (p + NPT - 1) / NPT }

  /** The frame supply runs out exactly when a page at the start of a table has its frame and its
      table has none. */
  ghost predicate Leaks(n: nat, k: nat, pages: nat) {
    exists p: nat :: p < pages && p % NPT == 0 && n == Need(k, p) + 1
  }

  lemma NeedMonotone(k: nat, p: nat, q: nat)
    requires p <= q
    ensures Need(k, p) <= Need(k, q) && Need(k, p) >= k
    ensures p % NPT == 0 && p < q ==> Need(k, p) + 2 <= Need(k, q)
    ensures Need(k, p + 1) == Need(k, p) + if p % NPT == 0 then 2 else 1
  {
  }

  /** Enough frames for the whole copy, or the supply ran out between a page and a page: no leak. */
  lemma NoLeak(n: nat, k: nat, pages: nat, p: nat)
    requires p <= pages && (n == Need(k, p) || (p == pages && n >= Need(k, p)) || n < k)
    ensures !Leaks(n, k, pages)
  {
    forall q: nat | q < pages && q % NPT == 0 ensures n != Need(k, q) + 1 {
      if p <= q { NeedMonotone(k, p, q); } else { NeedMonotone(k, q, p); }
      NeedMonotone(k, q, q);
    }
  }

  /** The leak is real: one page to copy, one frame more than the kernel part takes. */
  lemma LeakFirstPage(k: nat)
    ensures Leaks(k + 1, k, 1)
  {
    assert Need(k, 0) == k;
  }

  /** Page p of space y is a copy of page p of space x: same flags, same contents. */
  ghost predicate CopiedPage(t: State, x: nat, y: nat, p: nat)
    requires Live(t, x) && Live(t, y) && p < USER
  {
    var a, b := Lookup(t.spaces[x], p), Lookup(t.spaces[y], p);
    && a.Pte? && b.Pte? && a.flags == b.flags
    && a.frame < |t.data| && b.frame < |t.data| && t.data[a.frame] == t.data[b.frame]
  }

  /** From s to t space y was born and the first n pages of x copied into it, onto free frames. */
  ghost predicate CopiedUpTo(s: State, t: State, x: nat, y: nat, n: nat)
    requires n <= USER
  {
    && Inv(t) && Live(t, x) && Live(t, y) && |t.owner| == |s.owner| == |s.data| && |t.spaces| == |s.spaces|
    && (forall z :: 0 <= z < |s.spaces| && z != y ==> t.spaces[z] == s.spaces[z])
    && (forall f :: 0 <= f < |s.owner| && s.owner[f] != InFree ==> t.owner[f] == s.owner[f] && t.data[f] == s.data[f])
    && (forall f :: 0 <= f < |s.owner| && t.owner[f] != s.owner[f] ==> Of(t.owner[f], y))
    && (forall p: nat :: p < n ==> CopiedPage(t, x, y, p))
    && (forall p: nat :: n <= p < USER ==> Lookup(t.spaces[y], p) == Absent)
  }

  lemma CopiedNext(s: State, t: State, u: State, x: nat, y: nat, n: nat)
    requires n < USER && x != y && CopiedUpTo(s, t, x, y, n) && Grown(t, u, y, n, n + 1) && Live(u, x) &&
      CopiedPage(u, x, y, n)
    ensures CopiedUpTo(s, u, x, y, n + 1)
  {
    assert SpaceOk(t, x) && SpaceOk(t, y);
    forall p: nat | p < n
      ensures CopiedPage(u, x, y, p)
    {
      assert CopiedPage(t, x, y, p) && PageOk(t, x, p) && PageOk(t, y, p);
    }
  }

  /** The copy's pages are on distinct frames that were free before. */
  lemma CopyFresh(s: State, t: State, x: nat, y: nat, n: nat, p: nat, q: nat)
    requires Inv(s) && y < |s.spaces| && s.spaces[y] == Gone && n <= USER && CopiedUpTo(s, t, x, y, n) && p < n && q < n
    ensures Lookup(t.spaces[y], p).Pte? && Lookup(t.spaces[y], q).Pte?
    ensures Lookup(t.spaces[y], p).frame < |s.owner| && s.owner[Lookup(t.spaces[y], p).frame] == InFree
    ensures p != q ==> Lookup(t.spaces[y], p).frame != Lookup(t.spaces[y], q).frame
  {
    assert CopiedPage(t, x, y, p) && CopiedPage(t, x, y, q);
    assert SpaceOk(t, y) && PageOk(t, y, p) && PageOk(t, y, q);
    assert FrameOk(s, Lookup(t.spaces[y], p).frame);
  }

  /** From t to u one free frame was taken in hand; nothing else changed hands. */
  ghost predicate Hand(t: State, u: State) {
    && Inv(u) && u.spaces == t.spaces && |u.owner| == |t.owner|
    && exists f: nat :: f < |t.owner| && t.owner[f] == InFree && u.owner == t.owner[f := InHand]
  }

  lemma TableOfPage(p: nat)
    ensures NPT * (p / NPT) < p <==> p % NPT != 0
    ensures forall d: nat :: NPT * d < p + 1 <==> d == p / NPT || NPT * d < p
  {
  }

  // ---------- the code ----------

  class Kernel {
    var free: seq<nat>
    var data: seq<Data>
    var spaces: seq<Space>
    ghost var owner: seq<Owner>
    const kernel: seq<KPage>

    ghost function View(): State
      reads this
    {
      State(free, data, spaces, owner)
    }

    /** kinit's freerange over n frames; no address space yet. */
    constructor (n: nat, nspaces: nat, kernel: seq<KPage>)
      ensures Inv(View()) && |free| == |owner| == n && this.kernel == kernel
      ensures spaces == seq(nspaces, x => Gone)
    {
      this.kernel, free, data, spaces := kernel, [], seq(n, f => []), seq(nspaces, x => Gone);
      owner := seq(n, f => InHand);
      new;
      var i := 0;
      while i < n
        invariant 0 <= i <= n == |owner| && |free| == i && Inv(View()) && spaces == seq(nspaces, x => Gone)
        invariant forall f :: i <= f < n ==> owner[f] == InHand
      {
        Kfree(i);
        i := i + 1;
      }
    }

    /** The head of the free list, or -1. */
    method Kalloc() returns (f: int)
      requires Inv(View())
      modifies `free, `owner
      ensures Inv(View())
      ensures f == -1 <==> old(|free|) == 0
      ensures f == -1 ==> View() == old(View())
      ensures f >= 0 ==> f == old(free[0]) < |owner| && old(owner[f]) == InFree && View() == Taken(old(View()))
      ensures f >= -1
    {
      if free == [] { return -1; }
      TakenInv(View());
      f := free[0];
      free, owner := free[1..], owner[f := InHand];
    }

    /** kfree of a frame in hand. */
    method Kfree(f: nat)
      requires Inv(View()) && f < |owner| && owner[f] == InHand
      modifies `free, `data, `owner
      ensures Inv(View()) && View() == Returned(old(View()), f)
      ensures free == [f] + old(free) && data == old(data)[f := Junk()] && owner == old(owner)[f := InFree]
    {
      ReturnedInv(View(), f);
      data := data[f := Junk()];
      free, owner := [f] + free, owner[f := InFree];
    }

    /** walkpgdir with alloc: false when there is no table and no frame for one. */
    method Walk(x: nat, p: nat) returns (ok: bool)
      requires Inv(View()) && Live(View(), x) && p < ND * NPT
      modifies `free, `data, `spaces, `owner
      ensures ok <==> old(spaces[x].tabs[p / NPT].Tab? || |free| > 0)
      ensures Inv(View()) && Live(View(), x) && Grown(old(View()), View(), x, 0, 0)
      ensures !ok ==> View() == old(View())
      ensures ok ==>
        spaces[x].tabs[p / NPT].Tab? && spaces[x].tabs == old(spaces[x].tabs)[p / NPT := spaces[x].tabs[p / NPT]]
      ensures ok ==> |free| == old(|free|) - if old(spaces[x].tabs[p / NPT].Tab?) then 0 else 1
      ensures forall f :: 0 <= f < |owner| && owner[f] != old(owner)[f] ==> data[f] == Zero()
    {
      if spaces[x].tabs[p / NPT].Tab? { return true; }
      ghost var s := View();
      var f := Kalloc();
      if f < 0 { return false; }
      AddTabInv(View(), x, p / NPT, f);
      forall q: nat | q < ND * NPT
        ensures Lookup(WithTab(spaces[x], p / NPT, f), q) == Lookup(spaces[x], q)
      {
        LookupWithTab(spaces[x], p / NPT, f, q);
      }
      data := data[f := Zero()];
      spaces, owner := spaces[x := WithTab(spaces[x], p / NPT, f)], owner[f := TabOf(x, p / NPT)];
      ok := true;
    }
  
    /** Frame f, in hand, mapped as user page p once its table exists. */
    method SetPage(x: nat, p: nat, f: nat, flags: nat)
      requires Inv(View()) && Live(View(), x) && p < USER && spaces[x].tabs[p / NPT].Tab? &&
        Lookup(spaces[x], p) == Absent
      requires f < |owner| && owner[f] == InHand
      modifies `spaces, `owner
      ensures View() == Install(old(View()), x, p, Pte(f, flags)) && Inv(View()) && Live(View(), x)
      ensures forall q: nat :: q < ND * NPT ==>
        Lookup(spaces[x], q) == if q == p then Pte(f, flags) else Lookup(old(spaces[x]), q)
      ensures forall d :: 0 <= d < ND ==> SameTable(spaces[x].tabs[d], old(spaces[x].tabs[d]))
    {
      InstallInv(View(), x, p, Pte(f, flags));
      forall q: nat | q < ND * NPT
        ensures Lookup(WithPte(spaces[x], p, Pte(f, flags)), q)
          == if p == q then Pte(f, flags) else Lookup(spaces[x], q)
      {
        LookupWithPte(spaces[x], p, Pte(f, flags), q);
      }
      spaces, owner := spaces[x := WithPte(spaces[x], p, Pte(f, flags))], owner[f := PageOf(x, p)];
    }

    /** kalloc, fill the frame, mappages of the one page: allocuvm's and copyuvm's loop body. */
    method MapNew(x: nat, p: nat, flags: nat, content: Data) returns (r: Outcome, f: int)
      requires Inv(View()) && Live(View(), x) && p < USER && Lookup(spaces[x], p) == Absent
      modifies `free, `data, `spaces, `owner
      ensures Inv(View()) && Live(View(), x)
      ensures r == NoFrame <==> old(|free|) == 0
      ensures r == NoTable <==> old(|free|) == 1 && old(spaces[x].tabs[p / NPT].NoTab?)
      ensures r == NoFrame ==> View() == old(View())
      ensures r == NoTable ==>
        f == old(free[0]) < |owner| && View() == Taken(old(View())).(data := old(data)[f := content])
      ensures r == Done ==>
        Grown(old(View()), View(), x, p, p + 1) && 0 <= f < |data| && Lookup(spaces[x], p) == Pte(f, flags) &&
        data[f] == content
      ensures r == Done ==> |free| == old(|free|) - 1 - (if old(spaces[x].tabs[p / NPT].Tab?) then 0 else 1)
      ensures r == Done ==>
        forall d :: 0 <= d < ND ==> spaces[x].tabs[d].Tab? == (d == p / NPT || old(spaces[x].tabs[d].Tab?))
    {
      f := Kalloc();
      if f < 0 { return NoFrame, f; }
      ghost var t := View();
      SameButData(t, f, content);
      data := data[f := content];
      ghost var u := View();
      var ok := Walk(x, p);
      if !ok { return NoTable, f; }
      SetPage(x, p, f, flags);
      r := Done;
    }

    /** deallocuvm at a page whose table exists. */
    method ClearPage(x: nat, p: nat)
      requires Inv(View()) && Live(View(), x) && p < USER && spaces[x].tabs[p / NPT].Tab?
      modifies `free, `data, `spaces, `owner
      ensures Inv(View()) && Live(View(), x) && View() == PageStep(old(View()), x, p)
    {
      ghost var s := View();
      PageStepUnmaps(s, x, p);
      var pte := spaces[x].tabs[p / NPT].ptes[p % NPT];
      assert pte == Lookup(s.spaces[x], p);
      if pte.Pte? {
        DetachInv(s, x, p);
        data := data[pte.frame := Junk()];
        free, owner := [pte.frame] + free, owner[pte.frame := InFree];
        spaces := spaces[x := WithPte(spaces[x], p, Absent)];
        assert View() == Returned(Detach(s, x, p), pte.frame);
      }
    }

    /** Frees the pages from PGROUNDUP(newsz) up to oldsz, a directory entry at a time where one is
        absent: the same state as the page-by-page scan. */
    method Deallocuvm(x: nat, oldsz: nat, newsz: nat) returns (sz: nat)
      requires Inv(View()) && Live(View(), x) && oldsz <= KERNBASE
      modifies `free, `data, `spaces, `owner
      ensures sz == if newsz >= oldsz then oldsz else newsz
      ensures newsz >= oldsz ==> View() == old(View())
      ensures newsz < oldsz ==> Up(oldsz) <= USER && View() == Scan(old(View()), x, Up(newsz), Up(oldsz))
    {
      if newsz >= oldsz { return oldsz; }
      ghost var want, hi, p := Scan(View(), x, Up(newsz), Up(oldsz)), Up(oldsz), Up(newsz);
      var a := Up(newsz) * PGSIZE;
      UpBounds(oldsz, newsz);
      while a < oldsz
        invariant a == PGSIZE * p && Inv(View()) && Live(View(), x) && Scan(View(), x, p, hi) == want
      {
        PageOfAddr(a, p, oldsz);
        var d := a / (NPT * PGSIZE);
        if spaces[x].tabs[d].NoTab? {
          SkipToNext(View(), x, p, hi);
          a := (d + 1) * NPT * PGSIZE - PGSIZE;
          p := (d + 1) * NPT;
        } else {
          ClearPage(x, a / PGSIZE);
          p := p + 1;
        }
        a := a + PGSIZE;
      }
      sz := newsz;
    }
  
    /** allocuvm's failure paths: deallocuvm, then kfree of the frame it could not map. */
    method Undo(x: nat, oldsz: nat, newsz: nat, o: Outcome, f: int, ghost s: State, ghost t: State, ghost p: nat)
      requires Inv(s) && Live(s, x) && Live(t, x) && oldsz < newsz < KERNBASE && Up(oldsz) <= p < Up(newsz) <= USER
      requires Grown(s, t, x, Up(oldsz), p) && forall q: nat :: Up(oldsz) <= q < USER ==>
        Lookup(s.spaces[x], q) == Absent
      requires o != Done && Inv(View())
      requires o == NoFrame ==> View() == t
      requires o == NoTable ==> |t.free| > 0 && f == t.free[0] && View() == Taken(t).(data := t.data[f := Zero()])
      modifies `free, `data, `spaces, `owner
      ensures Grown(s, View(), x, 0, 0)
    {
      ghost var v := View();
      UpMonotone(oldsz, newsz);
      ScanUnmaps(v, x, Up(oldsz), Up(newsz));
      var sz := Deallocuvm(x, newsz, oldsz);
      if o == NoTable {
        GrownUndoneHand(s, t, Zero(), View(), x, Up(oldsz), p, Up(newsz));
        Kfree(f);
      } else {
        GrownUndone(s, t, View(), x, Up(oldsz), p, Up(newsz));
      }
    }

    /** One turn of allocuvm's loop. */
    method AllocPage(ghost s: State, x: nat, ghost lo: nat, p: nat) returns (o: Outcome, f: int)
      requires Live(s, x) && p < USER && GrownBy(s, View(), x, lo, p) && Lookup(s.spaces[x], p) == Absent
      modifies `free, `data, `spaces, `owner
      ensures o == Done ==> GrownBy(s, View(), x, lo, p + 1)
      ensures o != Done ==> Inv(View()) && |s.free| < Spent(s.spaces[x], lo, p + 1)
      ensures o == NoFrame ==> View() == old(View())
      ensures o == NoTable ==>
        old(|free|) > 0 && f == old(free[0]) && View() == Taken(old(View())).(data := old(data)[f := Zero()])
    {
      ghost var t := View();
      BudgetPage(s, t, x, lo, p);
      o, f := MapNew(x, p, PTE_W + PTE_U, Zero());
      if o == Done {
        BudgetStep(s, t, View(), x, lo, p);
        GrownJoin(s, t, View(), x, lo, p, p + 1);
        ZeroedKept(t, View(), x, lo, p);
      }
    }

    /** One turn of allocuvm's loop, undone where it fails. */
    method AllocTurn(ghost s: State, x: nat, oldsz: nat, newsz: nat, p: nat) returns (ok: bool)
      requires Inv(s) && Live(s, x) && oldsz < newsz < KERNBASE && Up(oldsz) <= p < Up(newsz) <= USER
      requires forall q: nat :: Up(oldsz) <= q < USER ==> Lookup(s.spaces[x], q) == Absent
      requires GrownBy(s, View(), x, Up(oldsz), p)
      modifies `free, `data, `spaces, `owner
      ensures ok ==> GrownBy(s, View(), x, Up(oldsz), p + 1)
      ensures !ok ==>
        Live(View(), x) && Grown(s, View(), x, 0, 0) && |s.free| < Spent(s.spaces[x], Up(oldsz), Up(newsz))
    {
      ghost var t := View();
      var o, f := AllocPage(s, x, Up(oldsz), p);
      ok := o == Done;
      if !ok {
        SpentMonotone(s.spaces[x], Up(oldsz), p + 1, Up(newsz));
        Undo(x, oldsz, newsz, o, f, s, t, p);
      }
    }

    /** allocuvm's loop. */
    method AllocLoop(ghost s: State, x: nat, oldsz: nat, newsz: nat) returns (ok: bool)
      requires s == View() && Inv(View()) && Live(View(), x) && oldsz <= newsz < KERNBASE
      requires forall p: nat :: Up(oldsz) <= p < USER ==> Lookup(spaces[x], p) == Absent
      modifies `free, `data, `spaces, `owner
      ensures Up(newsz) <= USER
      ensures ok ==> GrownBy(s, View(), x, Up(oldsz), Up(newsz))
      ensures !ok ==> Grown(s, View(), x, 0, 0) && |s.free| < Spent(s.spaces[x], Up(oldsz), Up(newsz))
    {
      ghost var p := Up(oldsz);
      var a := Up(oldsz) * PGSIZE;
      UpMonotone(oldsz, newsz);
      GrownByNone(s, x, Up(oldsz));
      while a < newsz
        invariant a == PGSIZE * p && Up(oldsz) <= p <= Up(newsz) && GrownBy(s, View(), x, Up(oldsz), p)
      {
        PageOfAddr(a, p, newsz);
        ok := AllocTurn(s, x, oldsz, newsz, a / PGSIZE);
        if !ok { return; }
        a, p := a + PGSIZE, p + 1;
      }
      assert p == Up(newsz);
      ok := true;
    }

    /** Grows space x from oldsz to newsz; on failure every translation is as before and every user
        frame is back (tables that walkpgdir added stay). */
    method Allocuvm(x: nat, oldsz: nat, newsz: nat) returns (r: nat)
      requires Inv(View()) && Live(View(), x) && oldsz < KERNBASE
      requires forall p: nat :: Up(oldsz) <= p < USER ==> Lookup(spaces[x], p) == Absent
      modifies `free, `data, `spaces, `owner
      ensures newsz >= KERNBASE ==> r == 0 && View() == old(View())
      ensures newsz < KERNBASE && newsz < oldsz ==> r == oldsz && View() == old(View())
      ensures oldsz <= newsz < KERNBASE ==> Up(newsz) <= USER
      ensures oldsz <= newsz < KERNBASE ==>
        r == if old(|free|) >= Spent(old(spaces[x]), Up(oldsz), Up(newsz)) then newsz else 0
      ensures oldsz <= newsz < KERNBASE && r == newsz > 0 ==>
        Grown(old(View()), View(), x, Up(oldsz), Up(newsz)) && Zeroed(View(), x, Up(oldsz), Up(newsz))
      ensures oldsz <= newsz < KERNBASE && r == newsz > 0 ==>
        |free| == old(|free|) - Spent(old(spaces[x]), Up(oldsz), Up(newsz))
      ensures oldsz <= newsz < KERNBASE && r != newsz ==> Grown(old(View()), View(), x, 0, 0)
    {
      if newsz >= KERNBASE { return 0; }
      if newsz < oldsz { return oldsz; }
      var ok := AllocLoop(View(), x, oldsz, newsz);
      r := if ok then newsz else 0;
    }

    /** freevm's loop over the directory entries. */
    method FreeTables(x: nat)
      requires Inv(View()) && Live(View(), x)
      modifies `free, `data, `owner
      ensures FreedTabs(old(View()), View(), x, ND)
    {
      ghost var u := View();
      forall f: nat | f < |owner| && owner[f] == InFree ensures f in free { assert FrameOk(u, f); }
      var i := 0;
      while i < ND
        invariant 0 <= i <= ND && FreedTabs(u, View(), x, i)
      {
        FreeTabNext(u, View(), x, i);
        if spaces[x].tabs[i].Tab? { PutBack(spaces[x].tabs[i].frame); }
        i := i + 1;
      }
    }

    method Freevm(x: nat)
      requires Inv(View()) && Live(View(), x)
      modifies `free, `data, `spaces, `owner
      ensures Released(old(View()), View(), x)
    {
      ghost var s := View();
      ScanUnmaps(s, x, 0, USER);
      var sz := Deallocuvm(x, KERNBASE, 0);
      ghost var u := View();
      FreeTables(x);
      ReleasedAll(s, u, View(), x);
      PutBack(spaces[x].dir);
      spaces := spaces[x := Gone];
      assert u.spaces[x := Gone] == s.spaces[x := Gone];
    }

    /** kfree of a frame still named by the space being freed. */
    method PutBack(f: nat)
      requires FreeOk(View()) && f < |owner|
      modifies `free, `data, `owner
      ensures View() == Returned(old(View()), f) && data == old(data)[f := Junk()]
    {
      data := data[f := Junk()];
      free, owner := [f] + free, owner[f := InFree];
    }
  
    /** mappages of one kernel page into the space x being set up. */
    method MapKernel(x: nat, p: nat, pte: Pte, ghost s: State) returns (ok: bool)
      requires Inv(View()) && Live(View(), x) && USER <= p < ND * NPT && pte.Pte? && Lookup(spaces[x], p) == Absent &&
        Born(s, View(), x)
      modifies `free, `data, `spaces, `owner
      ensures ok <==> old(spaces[x].tabs[p / NPT].Tab? || |free| > 0)
      ensures Inv(View()) && Live(View(), x) && Born(s, View(), x)
      ensures ok ==> Lookup(spaces[x], p) == pte
      ensures ok ==> forall q: nat :: q < ND * NPT && q != p ==> Lookup(spaces[x], q) == Lookup(old(spaces[x]), q)
      ensures ok ==> forall d :: 0 <= d < ND ==> spaces[x].tabs[d].Tab? == (d == p / NPT || old(spaces[x].tabs[d].Tab?))
      ensures ok ==> |free| == old(|free|) - if old(spaces[x].tabs[p / NPT].Tab?) then 0 else 1
      ensures !ok ==> View() == old(View())
    {
      ok := Walk(x, p);
      if !ok { return; }
      InstallInv(View(), x, p, pte);
      forall q: nat | q < ND * NPT
        ensures Lookup(WithPte(spaces[x], p, pte), q) == if p == q then pte else Lookup(spaces[x], q)
      {
        LookupWithPte(spaces[x], p, pte, q);
      }
      spaces := spaces[x := WithPte(spaces[x], p, pte)];
    }

    /** setupkvm's directory page. */
    method NewDir(x: nat) returns (ok: bool)
      requires Inv(View()) && x < |spaces| && spaces[x] == Gone
      modifies `free, `data, `spaces, `owner
      ensures ok <==> old(|free|) > 0
      ensures !ok ==> View() == old(View())
      ensures ok ==> Inv(View()) && Live(View(), x) && Born(old(View()), View(), x) && |free| == old(|free|) - 1
      ensures ok ==> forall d :: 0 <= d < ND ==> spaces[x].tabs[d].NoTab?
    {
      var f := Kalloc();
      if f < 0 { return false; }
      CreateInv(View(), x, f, Zero());
      data := data[f := Zero()];
      spaces, owner := spaces[x := Blank(f)], owner[f := DirOf(x)];
      ok := true;
    }

    /** setupkvm has mapped the first m kernel pages into the new space x. */
    ghost predicate KernelUpTo(s: State, x: nat, m: nat)
      reads this
    {
      SetUp(kernel, s, View(), x, m)
    }

    method KernelNext(ghost s: State, x: nat, m: nat) returns (ok: bool, m': nat)
      requires m < |kernel| && KernelUpTo(s, x, m)
      modifies `free, `data, `spaces, `owner
      ensures KernelUpTo(s, x, m') && m' == if ok then m + 1 else m
      ensures !ok ==> View() == old(View()) && |s.free| < KernelFrames(kernel)
    {
      ghost var t := View();
      NotListed(kernel, m);
      ok := MapKernel(x, kernel[m].page, kernel[m].pte, s);
      NewTabsMonotone(kernel, m + 1, |kernel|);
      if ok { SetUpNext(kernel, s, t, View(), x, m); }
      m' := if ok then m + 1 else m;
    }

    method KernelLoop(ghost s: State, x: nat) returns (ok: bool)
      requires KernelUpTo(s, x, 0)
      modifies `free, `data, `spaces, `owner
      ensures ok ==> KernelUpTo(s, x, |kernel|)
      ensures !ok ==> Inv(View()) && Live(View(), x) && Born(s, View(), x) && |s.free| < KernelFrames(kernel)
    {
      var m: nat := 0;
      while m < |kernel|
        invariant m <= |kernel| && KernelUpTo(s, x, m)
      {
        ok, m := KernelNext(s, x, m);
        if !ok { return; }
      }
      ok := true;
    }

    /** freevm of a space made since s: every frame is back, except one in hand. */
    method Abandon(ghost s: State, x: nat)
      requires Inv(s) && Inv(View()) && Live(View(), x) && |spaces| == |s.spaces| && |owner| == |s.owner| &&
        s.spaces[x] == Gone
      requires forall y :: 0 <= y < |s.spaces| && y != x ==> spaces[y] == s.spaces[y]
      requires forall f :: 0 <= f < |s.owner| && s.owner[f] != InFree ==> owner[f] == s.owner[f]
      requires forall f :: 0 <= f < |s.owner| && owner[f] != s.owner[f] ==> Of(owner[f], x) || owner[f] == InHand
      modifies `free, `data, `spaces, `owner
      ensures Inv(View()) && spaces == s.spaces && |owner| == |s.owner|
      ensures forall f :: 0 <= f < |s.owner| ==>
        owner[f] == if s.owner[f] == InFree && old(owner)[f] == InHand then InHand else s.owner[f]
    {
      ghost var t := View();
      Freevm(x);
      BornReleased(s, t, View(), x);
    }

    /** A directory with the kernel mappings in slot x, or none and every frame back. */
    method Setupkvm(x: nat) returns (ok: bool)
      requires Inv(View()) && x < |spaces| && spaces[x] == Gone && GoodKernel(kernel)
      modifies `free, `data, `spaces, `owner
      ensures ok <==> old(|free|) >= KernelFrames(kernel)
      ensures !ok ==> Inv(View()) && owner == old(owner) && spaces == old(spaces)
      ensures ok ==>
        Inv(View()) && Live(View(), x) && Born(old(View()), View(), x) && |free| == old(|free|) - KernelFrames(kernel)
      ensures ok ==> KernelMapped(spaces[x], kernel, |kernel|)
      ensures ok ==> forall d :: 0 <= d < 512 ==> spaces[x].tabs[d].NoTab?
    {
      ghost var s := View();
      ok := NewDir(x);
      if !ok { return; }
      ok := KernelLoop(s, x);
      if !ok { Abandon(s, x); }
    }
  
    /** copyuvm's loop before page p: n0 frames were free at the start. */
    ghost predicate Copying(s: State, x: nat, y: nat, p: nat)
      reads this
    {
      && p <= USER && CopiedUpTo(s, View(), x, y, p) && GoodKernel(kernel)
      && KernelMapped(spaces[y], kernel, |kernel|)
      && |free| == |s.free| - Need(KernelFrames(kernel), p)
      && forall d :: 0 <= d < 512 ==> (spaces[y].tabs[d].Tab? <==> NPT * d < p)
    }

    method CopyPage(ghost s: State, x: nat, y: nat, p: nat) returns (r: Outcome)
      requires p < USER && x != y && Copying(s, x, y, p) && Lookup(spaces[x], p).Pte?
      modifies `free, `data, `spaces, `owner
      ensures r == Done ==> Copying(s, x, y, p + 1)
      ensures r == NoFrame ==> View() == old(View()) && |s.free| == Need(KernelFrames(kernel), p)
      ensures r == NoTable ==> p % NPT == 0 && |s.free| == Need(KernelFrames(kernel), p) + 1
      ensures r == NoTable ==> Inv(View()) && Hand(old(View()), View())
    {
      ghost var t := View();
      var pte := Lookup(spaces[x], p);
      assert SpaceOk(t, x) && PageOk(t, x, p);
      NeedMonotone(KernelFrames(kernel), p, p);
      TableOfPage(p);
      var f;
      r, f := MapNew(y, p, pte.flags, data[pte.frame]);
      if r == Done {
        CopiedNext(s, t, View(), x, y, p);
        KernelKept(t.spaces[y], spaces[y], kernel);
      }
      if r == NoTable { assert t.owner[f] == InFree; }
    }

    /** copyuvm's loop: t is the state before the page that failed, if one did. */
    method CopyLoop(ghost s: State, x: nat, y: nat, sz: nat) returns (r: Outcome, ghost p: nat, ghost t: State)
      requires x != y && sz <= KERNBASE && Live(s, x) && Copying(s, x, y, 0)
      requires forall q: nat :: q < Up(sz) && q < USER ==> Lookup(s.spaces[x], q).Pte?
      modifies `free, `data, `spaces, `owner
      ensures p <= Up(sz) <= USER && (r != Done ==> p < Up(sz))
      ensures r == Done ==> p == Up(sz) && Copying(s, x, y, p)
      ensures r != Done ==> CopiedUpTo(s, t, x, y, p)
      ensures r == NoFrame ==> View() == t && |s.free| == Need(KernelFrames(kernel), p)
      ensures r == NoTable ==> Hand(t, View()) && p % NPT == 0 && |s.free| == Need(KernelFrames(kernel), p) + 1
    {
      var i := 0;
      p, t := 0, View();
      UpMonotone(0, sz);
      while i < sz
        invariant i == PGSIZE * p && p <= Up(sz) <= USER && Copying(s, x, y, p)
      {
        PageOfAddr(i, p, sz);
        t := View();
        r := CopyPage(s, x, y, i / PGSIZE);
        if r != Done { return; }
        i, p := i + PGSIZE, p + 1;
      }
      r := Done;
    }

    /** Copies the first sz bytes of space x into a new space in slot y.  A frame is lost exactly
        when the supply ends between a page's frame and its table. */
    method Copyuvm(x: nat, y: nat, sz: nat) returns (ok: bool)
      requires Inv(View()) && Live(View(), x) && y < |spaces| && spaces[y] == Gone && GoodKernel(kernel) &&
        sz <= KERNBASE
      requires forall q: nat :: q < Up(sz) && q < USER ==> Lookup(spaces[x], q).Pte?
      modifies `free, `data, `spaces, `owner
      ensures Up(sz) <= USER && (ok <==> old(|free|) >= Need(KernelFrames(kernel), Up(sz)))
      ensures ok ==> CopiedUpTo(old(View()), View(), x, y, Up(sz)) && KernelMapped(spaces[y], kernel, |kernel|)
      ensures !ok ==> Inv(View()) && spaces == old(spaces)
      ensures !ok && !Leaks(old(|free|), KernelFrames(kernel), Up(sz)) ==> owner == old(owner)
      ensures Leaks(old(|free|), KernelFrames(kernel), Up(sz)) ==> Hand(old(View()), View())
    {
      ghost var s, k := View(), KernelFrames(kernel);
      UpMonotone(sz, KERNBASE);
      ok := Setupkvm(y);
      NeedMonotone(k, 0, Up(sz));
      if !ok { NoLeak(|s.free|, k, Up(sz), 0); return; }
      ok := CopyPages(s, x, y, sz);
    }

    /** copyuvm after its setupkvm, with s the state before that. */
    method CopyPages(ghost s: State, x: nat, y: nat, sz: nat) returns (ok: bool)
      requires Inv(s) && y < |s.spaces| && s.spaces[y] == Gone && Up(sz) <= USER
      requires x != y && sz <= KERNBASE && Live(s, x) && Copying(s, x, y, 0)
      requires forall q: nat :: q < Up(sz) && q < USER ==> Lookup(s.spaces[x], q).Pte?
      modifies `free, `data, `spaces, `owner
      ensures ok <==> |s.free| >= Need(KernelFrames(kernel), Up(sz))
      ensures ok ==> Copying(s, x, y, Up(sz))
      ensures !ok ==> Inv(View()) && spaces == s.spaces
      ensures !ok && !Leaks(|s.free|, KernelFrames(kernel), Up(sz)) ==> owner == s.owner
      ensures Leaks(|s.free|, KernelFrames(kernel), Up(sz)) ==> Hand(s, View())
    {
      ghost var k := KernelFrames(kernel);
      ghost var p, t;
      var r;
      r, p, t := CopyLoop(s, x, y, sz);
      NeedMonotone(k, p, Up(sz));
      ok := r == Done;
      if r != NoTable { NoLeak(|s.free|, k, Up(sz), p); }
      if !ok { Abandon(s, y); }
    }
  }

  /** copyuvm loses a frame in a run from boot: one process of one page, and one frame too few for the
      copy's table. */
  method LoseFrame(kernel: seq<KPage>) returns (k: Kernel, ok: bool)
    requires GoodKernel(kernel)
    ensures !ok && Inv(k.View()) && |k.spaces| == 2 && k.spaces[1] == Gone
    ensures exists f: nat :: f < |k.owner| && k.owner[f] == InHand
  {
    var n := KernelFrames(kernel);
    k := new Kernel(2 * n + 3, 2, kernel);
    var booted := k.Setupkvm(0);
    assert Up(0) == 0 && Up(PGSIZE) == 1;
    assert Spent(k.spaces[0], 0, 1) == Spent(k.spaces[0], 0, 0) + PageCost(k.spaces[0], 0, 0) == 2;
    var sz := k.Allocuvm(0, 0, PGSIZE);
    ghost var s := k.View();
    LeakFirstPage(n);
    assert Need(n, 1) == n + 2;
    ok := k.Copyuvm(0, 1, PGSIZE);
    ghost var f: nat :| f < |s.owner| && k.owner == s.owner[f := InHand];
    assert k.owner[f] == InHand;
  }
}
