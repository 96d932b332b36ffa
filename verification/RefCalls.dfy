/** The system calls that hold inode and file references, as one process runs them between any steps
    of the others. */
module RefCalls {
  import opened Refs

  // ---------- what the others leave alone ----------

  /** From s to t the locks of p, what it locked, and the processes it makes are as they were; entry x
      is left out (-1 leaves out none). */
  ghost predicate Steady(s: State, t: State, p: nat, x: int) {
    && |t.cache| == |s.cache| && |t.disk| == |s.disk| && |t.files| == |s.files| && |t.procs| == |s.procs|
    && (forall q :: 0 <= q < |s.procs| && s.procs[q].phase == Embryo(p) ==> t.procs[q] == s.procs[q])
    && (forall e :: 0 <= e < |s.cache| && e != x ==> (t.cache[e].lock == Some(p) <==> s.cache[e].lock == Some(p)))
    && (forall e :: 0 <= e < |s.cache| && e != x && s.cache[e].lock == Some(p) ==>
        t.cache[e].(ref := 0) == s.cache[e].(ref := 0))
  }

  /** ... and so are p's record, the inodes of the entries it holds and the files only it names. */
  ghost predicate Rely(s: State, t: State, p: nat) {
    && Steady(s, t, p, -1) && p < |s.procs| && t.procs[p] == s.procs[p]
    && (forall e :: 0 <= e < |s.cache| && Holds(s.procs[p], e) > 0 ==> t.cache[e].inum == s.cache[e].inum)
    && (forall f :: 0 <= f < |s.files| && s.files[f].ref == Names(s.procs[p], f) > 0 ==> t.files[f] == s.files[f])
  }

  predicate Alive(q: Proc) { q.phase != Unused && !q.phase.Embryo? }

  lemma RefRely(s: State, p: nat, r: RefOp, i: nat)
    requires Inv(s) && CanRef(s, p, r) && p != i && i < |s.procs| && Alive(s.procs[i])
    ensures Rely(s, DoRef(s, p, r), i)
  {
    forall e: nat | e < |s.cache| && Holds(s.procs[i], e) > 0 ensures s.cache[e].ref > 0 { HeldEntry(s, i, e); }
    forall e: nat | e < |s.cache| && s.cache[e].lock == Some(i) ensures s.cache[e].ref > 0 {
      assert EntryOk(s, e);
      HeldEntry(s, i, e);
    }
  }

  lemma LockRely(s: State, p: nat, l: LockOp, i: nat)
    requires Inv(s) && CanLock(s, p, l) && p != i && i < |s.procs| && Alive(s.procs[i])
    ensures Rely(s, DoLock(s, p, l), i)
  {
    assert ProcOk(s, p);
  }

  lemma FileRely(s: State, p: nat, x: FileOp, i: nat)
    requires Inv(s) && CanFile(s, p, x) && p != i && i < |s.procs| && Alive(s.procs[i])
    ensures Rely(s, DoFile(s, p, x), i)
  {
    forall f: nat | f < |s.files| && s.files[f].ref == Names(s.procs[i], f) > 0 ensures f != x.f {
      assert FileOk(s, f);
      NamedByTwo(s.procs, i, p, f, |s.procs|);
    }
  }

  lemma OwnRely(s: State, p: nat, o: OwnOp, i: nat)
    requires Inv(s) && CanOwn(s, p, o) && p != i && i < |s.procs| && Alive(s.procs[i])
    ensures Rely(s, s.(procs := DoOwn(s, p, o)), i)
  {
  }

  /** Every step of another process does. */
  lemma StepRely(s: State, st: Step, i: nat)
    requires Inv(s) && Can(s, st) && st.p != i && i < |s.procs| && Alive(s.procs[i])
    ensures Rely(s, Do(s, st), i)
  {
    match st
    case ByRef(p, r) => RefRely(s, p, r, i);
    case ByLock(p, l) => LockRely(s, p, l, i);
    case ByFile(p, x) => FileRely(s, p, x, i);
    case ByOwn(p, o) => OwnRely(s, p, o, i);
  }

  lemma SteadyTwice(s: State, t: State, u: State, p: nat, x: int)
    requires Steady(s, t, p, x) && Steady(t, u, p, x)
    ensures Steady(s, u, p, x)
  {
  }

  lemma RelyTwice(s: State, t: State, u: State, p: nat)
    requires Rely(s, t, p) && Rely(t, u, p)
    ensures Rely(s, u, p)
  {
    SteadyTwice(s, t, u, p, -1);
  }

  /** Locks that p neither had nor has at x. */
  lemma SteadyClose(s: State, t: State, p: nat, x: nat)
    requires Steady(s, t, p, x) && x < |s.cache| && s.cache[x].lock != Some(p) && t.cache[x].lock != Some(p)
    ensures Steady(s, t, p, -1)
  {
  }

  lemma SteadyOpen(s: State, t: State, p: nat, x: int)
    requires Steady(s, t, p, -1)
    ensures Steady(s, t, p, x)
  {
  }

  lemma RefSteady(s: State, p: nat, r: RefOp)
    requires Inv(s) && CanRef(s, p, r)
    ensures Steady(s, DoRef(s, p, r), p, -1)
  {
    forall e: nat | e < |s.cache| && s.cache[e].lock == Some(p) ensures s.cache[e].ref > 0 {
      assert EntryOk(s, e);
      HeldEntry(s, p, e);
    }
  }

  function EntryOf(s: State, p: nat, l: LockOp): int
    requires CanLock(s, p, l)
  {
    match l
    case Mark(_, _) => -1
    case Free => s.procs[p].phase.e
    case _ => l.e
  }

  lemma LockSteady(s: State, p: nat, l: LockOp)
    requires Inv(s) && CanLock(s, p, l)
    ensures Steady(s, DoLock(s, p, l), p, EntryOf(s, p, l))
  {
  }

  lemma FileSteady(s: State, p: nat, x: FileOp)
    requires CanFile(s, p, x)
    ensures Steady(s, DoFile(s, p, x), p, -1)
  {
  }

  /** The entries that p holds in t stand for the same inodes as in s. */
  ghost predicate Inums(s: State, t: State, p: nat) {
    && p < |t.procs| && |t.cache| == |s.cache|
    && forall x :: 0 <= x < |t.cache| && Holds(t.procs[p], x) > 0 ==> t.cache[x].inum == s.cache[x].inum
  }

  /** ... and so do those that it holds in s. */
  ghost predicate HeldInums(s: State, t: State, p: nat) {
    && p < |s.procs| && |t.cache| == |s.cache|
    && forall x :: 0 <= x < |s.cache| && Holds(s.procs[p], x) > 0 ==> t.cache[x].inum == s.cache[x].inum
  }

  /** The inodes of the entries that q holds. */
  ghost function InumsOf(s: State, q: Proc): seq<Option<nat>> {
    seq(|s.cache|, x requires 0 <= x < |s.cache| => if Holds(q, x) > 0 then Some(s.cache[x].inum) else None)
  }

  lemma SameInums(s: State, t: State, p: nat, q: Proc)
    requires Inums(s, t, p) || HeldInums(s, t, p)
    requires p < |s.procs| && p < |t.procs| && Within(q, s.procs[p]) && Within(q, t.procs[p])
    ensures InumsOf(t, q) == InumsOf(s, q)
  {
  }

  /** q holds no more than r. */
  predicate Within(q: Proc, r: Proc) {
    |q.hand| == |r.hand| && q.cwd == r.cwd && forall x :: 0 <= x < |q.hand| ==> q.hand[x] <= r.hand[x]
  }

  /** The files that only p names in s are unchanged in t. */
  ghost predicate SoleFiles(s: State, t: State, p: nat) {
    && p < |s.procs| && |t.files| == |s.files|
    && forall f :: 0 <= f < |s.files| && s.files[f].ref == Names(s.procs[p], f) > 0 ==> t.files[f] == s.files[f]
  }

  // ---------- a process's record ----------

  /** One reference more or less in hand. */
  function Grab(q: Proc, e: nat): Proc { if e < |q.hand| then q.(hand := Plus(q.hand, e)) else q }

  function Let(q: Proc, e: nat): Proc { if e < |q.hand| && q.hand[e] > 0 then q.(hand := Minus(q.hand, e)) else q }

  function GrabFile(q: Proc, f: nat): Proc { if f < |q.fileHand| then q.(fileHand := Plus(q.fileHand, f)) else q }

  function LetFile(q: Proc, f: nat): Proc {
    if f < |q.fileHand| && q.fileHand[f] > 0 then q.(fileHand := Minus(q.fileHand, f)) else q
  }

  lemma LetGrab(q: Proc, e: nat)
    ensures Let(Grab(q, e), e) == q && (e < |q.hand| ==> Grab(q, e).hand[e] > 0)
  {
    if e < |q.hand| { assert Minus(Plus(q.hand, e), e) == q.hand; }
  }

  lemma LetGrabFile(q: Proc, f: nat)
    ensures LetFile(GrabFile(q, f), f) == q && (f < |q.fileHand| ==> GrabFile(q, f).fileHand[f] > 0)
  {
    if f < |q.fileHand| { assert Minus(Plus(q.fileHand, f), f) == q.fileHand; }
  }

  /** A second reference taken before the first is given back. */
  lemma PassOn(q: Proc, e: nat, next: nat)
    requires e < |q.hand| && next < |q.hand|
    ensures var two := Grab(Grab(q, e), next); two.hand[e] > 0 && Let(two, e) == Grab(q, next)
  {
    assert Minus(Plus(Plus(q.hand, e), next), e) == Plus(q.hand, next);
  }

  predicate GoodPath(found: seq<Option<nat>>, n: nat) {
    forall i :: 0 <= i < |found| && found[i].Some? ==> found[i].value < n
  }

  /** The disk after an iput that nobody interrupts. */
  function FreedDisk(disk: seq<DInode>, x: Entry): seq<DInode> {
    if Frees(x) && x.inum < |disk| then disk[x.inum := DInode(0, 0)] else disk
  }

  // ---------- while nobody else runs ----------

  /** An inode on disk after steps that neither allocate it nor take its last link: it keeps its kind or
      becomes free, and stays if it has links. */
  predicate Stays(a: DInode, b: DInode) {
    (b.kind == a.kind || b.kind == 0) && (a.nlink > 0 ==> b.kind == a.kind && b.nlink > 0)
  }

  predicate KeptFrom(d: seq<DInode>, disk: seq<DInode>) {
    |d| == |disk| && forall i :: 0 <= i < |d| ==> Stays(d[i], disk[i])
  }

  lemma KeptTwice(a: seq<DInode>, b: seq<DInode>, c: seq<DInode>)
    requires KeptFrom(a, b) && KeptFrom(b, c)
    ensures KeptFrom(a, c)
  {
  }

  /** The references to each entry that process p does not have in hand. */
  ghost function Base(s: State, p: nat): seq<int>
    requires p < |s.procs|
  {
    seq(|s.cache|, x requires 0 <= x < |s.cache| => s.cache[x].ref - Count(s.procs[p].hand, x))
  }

  /** The locks of the other processes. */
  ghost function Foreign(s: State, p: nat): seq<Option<nat>> {
    seq(|s.cache|, x requires 0 <= x < |s.cache| => if s.cache[x].lock == Some(p) then None else s.cache[x].lock)
  }

  /** From s to t process p alone has run: references come and go with what it has in hand, and no file and no
      lock of another process changes. */
  ghost predicate Calmly(s: State, t: State, p: nat) {
    && p < |s.procs| && p < |t.procs| && |t.disk| == |s.disk| && t.files == s.files
    && Base(t, p) == Base(s, p) && Foreign(t, p) == Foreign(s, p)
  }

  /** ... and inodes stay. */
  ghost predicate Quietly(s: State, t: State, p: nat) { Calmly(s, t, p) && KeptFrom(s.disk, t.disk) }

  lemma QuietTwice(s: State, t: State, u: State, p: nat)
    requires Quietly(s, t, p) && Quietly(t, u, p)
    ensures Quietly(s, u, p)
  {
  }

  lemma RefQuietly(s: State, p: nat, r: RefOp)
    requires Inv(s) && CanRef(s, p, r)
    ensures Quietly(s, DoRef(s, p, r), p)
  {
    match r
    case Lookup(_, e) => assert EntryOk(s, e);
    case Take(e) => assert EntryOk(s, e);
    case Dup(e) =>
    case Drop =>
  }

  lemma LockCalmly(s: State, p: nat, l: LockOp)
    requires Inv(s) && CanLock(s, p, l)
    ensures Calmly(s, DoLock(s, p, l), p)
  {
    if l.Free? { assert ProcOk(s, p); }
  }

  lemma LockQuietly(s: State, p: nat, l: LockOp)
    requires Inv(s) && CanLock(s, p, l) && !l.Mark? && (l.SetLinks? ==> l.n > 0 || s.cache[l.e].nlink <= 0)
    ensures Quietly(s, DoLock(s, p, l), p)
  {
    LockCalmly(s, p, l);
    match l
    case SetLinks(e, _) =>
      assert EntryOk(s, e);
      HeldEntry(s, p, e);
    case Free =>
      assert ProcOk(s, p);
      HeldEntry(s, p, s.procs[p].phase.e);
    case _ =>
  }

  predicate AllNone(locks: seq<Option<nat>>) { forall x :: 0 <= x < |locks| ==> locks[x] == None }

  lemma Unlocked(s: State, p: nat, x: nat)
    requires AllNone(Foreign(s, p)) && x < |s.cache| && s.cache[x].lock != Some(p)
    ensures s.cache[x].lock == None
  {
    assert Foreign(s, p)[x] == None;
  }

  /** Entry x is unused when a process holds no more than q does, given the references of the others. */
  predicate Idle(base: seq<int>, q: Proc, x: nat) { x < |base| && base[x] + Count(q.hand, x) == 0 }

  ghost predicate Spare(base: seq<int>, q: Proc) {
    exists a: nat, b: nat :: Idle(base, q, a) && Idle(base, q, b) && a != b
  }

  ghost predicate SpareThree(base: seq<int>, q: Proc) {
    exists a: nat, b: nat, c: nat ::
      Idle(base, q, a) && Idle(base, q, b) && Idle(base, q, c) && a != b && a != c && b != c
  }

  lemma SpareTwo(base: seq<int>, q: Proc, e: nat)
    requires SpareThree(base, q)
    ensures Spare(base, q) && Spare(base, Grab(q, e))
  {
    var a: nat, b: nat, c: nat :|
      Idle(base, q, a) && Idle(base, q, b) && Idle(base, q, c) && a != b && a != c && b != c;
    var x, y := if a == e then b else a, if b == e || a == e then c else b;
    assert Idle(base, Grab(q, e), x) && Idle(base, Grab(q, e), y);
  }

  /** With one more reference in hand an entry is left. */
  lemma OneLeft(s: State, p: nat, q: Proc, d: nat)
    requires p < |s.procs| && Spare(Base(s, p), q)
    requires s.procs[p].hand == q.hand || s.procs[p].hand == Grab(q, d).hand
    ensures Vacant(s.cache)
  {
    var b := Base(s, p);
    var x: nat, y: nat :| Idle(b, q, x) && Idle(b, q, y) && x != y;
    var w := if x != d then x else y;
    assert b[w] == s.cache[w].ref - Count(s.procs[p].hand, w);
  }

  /** Some entry of the inode cache is unused. */
  predicate Vacant(cache: seq<Entry>) { exists x :: 0 <= x < |cache| && cache[x].ref == 0 }

  /** Some inode but the root's is free on disk. */
  predicate HasFree(disk: seq<DInode>) { exists i :: 0 < i < |disk| && disk[i].kind == 0 }

  /** Some entry of the file table is unused. */
  predicate HasUnused(files: seq<File>) { exists f :: 0 <= f < |files| && files[f].ref == 0 }

  /** Two entries in use for the same inode are one. */
  lemma SameEntry(s: State, p: nat, d: nat, e: nat)
    requires Inv(s) && p < |s.procs| && Holds(s.procs[p], d) > 0 && Holds(s.procs[p], e) > 0
    ensures d < |s.cache| && e < |s.cache| && (s.cache[d].inum == s.cache[e].inum <==> d == e)
  {
    HeldEntry(s, p, d);
    HeldEntry(s, p, e);
    assert Apart(s, d, e);
  }

  /** What is said of q's entries is said of each. */
  lemma InumAt(s: State, t: State, q: Proc, e: nat)
    requires InumsOf(t, q) == InumsOf(s, q) && e < |s.cache| && Holds(q, e) > 0
    ensures e < |t.cache| && t.cache[e].inum == s.cache[e].inum
  {
    assert |InumsOf(t, q)| == |t.cache| && InumsOf(t, q)[e] == InumsOf(s, q)[e];
  }

  // ---------- paths ----------

  /** The inode at which namex stands after k elements. */
  function PathAt(found: seq<Option<nat>>, k: nat, start: nat): Option<nat>
    requires k <= |found|
  {
    if k == 0 then Some(start) else found[k - 1]
  }

  /** Where a path leads: to its last element, or to the one before. */
  function PathEnd(found: seq<Option<nat>>, start: nat, parent: bool): Option<nat> {
    if !parent then PathAt(found, |found|, start)
    else if found == [] then None else PathAt(found, |found| - 1, start)
  }

  predicate OfKind(disk: seq<DInode>, i: Option<nat>, kind: int) {
    i.Some? && i.value < |disk| && disk[i.value].kind == kind
  }

  /** The first i elements are looked up in directories. */
  predicate Passed(disk: seq<DInode>, found: seq<Option<nat>>, start: nat, i: nat)
    requires i <= |found|
  {
    forall k: nat :: k < i ==> OfKind(disk, PathAt(found, k, start), T_DIR)
  }

  /** Every element is looked up in a directory, and what is looked up and gone on from is found. */
  predicate Leads(disk: seq<DInode>, found: seq<Option<nat>>, start: nat, parent: bool) {
    Passed(disk, found, start, |found|) && PathEnd(found, start, parent).Some?
  }

  /** Where namex gives up. */
  lemma NoWay(disk: seq<DInode>, found: seq<Option<nat>>, start: nat, parent: bool, i: nat)
    requires i < |found|
    ensures !OfKind(disk, PathAt(found, i, start), T_DIR) ==> !Leads(disk, found, start, parent)
    ensures found[i] == None && !(parent && i == |found| - 1) ==> !Leads(disk, found, start, parent)
  {
    if found[i] == None && i < |found| - 1 { assert !OfKind(disk, PathAt(found, i + 1, start), T_DIR); }
  }

  /** Allocated on disk and named there. */
  predicate Linked(disk: seq<DInode>, i: Option<nat>) {
    i.Some? ==> i.value < |disk| && disk[i.value].kind != 0 && disk[i.value].nlink > 0
  }

  predicate AllLinked(disk: seq<DInode>, found: seq<Option<nat>>, start: nat) {
    forall k: nat :: k <= |found| ==> Linked(disk, PathAt(found, k, start))
  }

  lemma LinkedStays(d: seq<DInode>, disk: seq<DInode>, i: Option<nat>)
    requires KeptFrom(d, disk)
    ensures Linked(d, i) ==> Linked(disk, i)
  {
  }

  lemma LinkedEnd(d: seq<DInode>, disk: seq<DInode>, found: seq<Option<nat>>, start: nat, parent: bool)
    requires KeptFrom(d, disk)
    ensures AllLinked(d, found, start) ==> Linked(disk, PathEnd(found, start, parent))
  {
    if AllLinked(d, found, start) {
      var k := if parent && found != [] then |found| - 1 else |found|;
      LinkedStays(d, disk, PathAt(found, k, start));
    }
  }

  lemma LinkedAll(d: seq<DInode>, disk: seq<DInode>, found: seq<Option<nat>>, start: nat)
    requires KeptFrom(d, disk)
    ensures AllLinked(d, found, start) ==> AllLinked(disk, found, start)
  {
    if AllLinked(d, found, start) {
      forall k: nat | k <= |found| ensures Linked(disk, PathAt(found, k, start)) {
        LinkedStays(d, disk, PathAt(found, k, start));
      }
    }
  }

  /** Process `me` running calls.  `script` is what the other processes do each time this one is
      interrupted.  `stopped` is set where the kernel panics or the process waits for a lock for ever. */
  class Caller {
    const me: nat
    var cache: seq<Entry>
    var disk: seq<DInode>
    var files: seq<File>
    var procs: seq<Proc>
    var script: seq<seq<Step>>
    var stopped: bool

    ghost function View(): State
      reads this
    {
      State(cache, disk, files, procs)
    }

    ghost predicate Valid()
      reads this
    {
      Inv(View()) && me < |procs| && Alive(procs[me]) && ROOTINO < |disk|
    }

    ghost predicate Ready()
      reads this
    {
      Valid() && procs[me].phase == Running && !stopped
    }

    /** This process holds no inode's lock. */
    ghost predicate NoLocks()
      reads this
    {
      forall e :: 0 <= e < |cache| ==> cache[e].lock != Some(me)
    }

    /** Nobody else runs or has a lock. */
    ghost predicate Sole()
      reads this
    {
      script == [] && AllNone(Foreign(View(), me))
    }

    /** This process has a current directory. */
    ghost predicate InDir()
      reads this
    {
      me < |procs| && procs[me].cwd.Some? && procs[me].cwd.value < |cache|
    }

    /** A running first process over a disk whose free inodes are cleared. */
    constructor (n: nat, disk: seq<DInode>, nfile: nat, nproc: nat, script: seq<seq<Step>>)
      requires nproc > 0 && ROOTINO < |disk| && forall i :: 0 <= i < |disk| && disk[i].kind == 0 ==> disk[i].nlink == 0
      ensures Initial(View()) && Ready() && NoLocks() && me == 0 && this.disk == disk && this.script == script
    {
      me := 0;
      this.disk, this.script, stopped := disk, script, false;
      cache := seq(n, e => Entry(0, 0, false, 0, 0, None));
      files := seq(nfile, f => File(0, None));
      var blank := Proc(Unused, None, seq(NOFILE, d => None), seq(n, e => 0), seq(nfile, f => 0));
      procs := seq(nproc, p => if p == 0 then blank.(phase := Running) else blank);
      new;
      InitialInv(View());
    }

    /** The other processes go on. */
    method Others()
      requires Valid()
      modifies `cache, `disk, `files, `procs, `script
      ensures Valid() && Rely(old(View()), View(), me)
      ensures old(script) == [] ==> script == [] && View() == old(View())
      ensures |script| < old(|script|) || script == []
    {
      if script == [] { return; }
      var now := script[0];
      script := script[1..];
      var i := 0;
      while i < |now|
        invariant 0 <= i <= |now| && Valid() && Rely(old(View()), View(), me) && |script| < old(|script|)
      {
        var s := State(cache, disk, files, procs);
        if now[i].p != me && Can(s, now[i]) {
          var t := Do(s, now[i]);
          StepKeepsInv(s, now[i]);
          StepRely(s, now[i], me);
          cache, disk, files, procs := t.cache, t.disk, t.files, t.procs;
          assert View() == t;
          RelyTwice(old(View()), s, t, me);
        }
        i := i + 1;
      }
    }

    // ---------- inodes ----------

    /** iget's scan: the entry in use for inum, and the first entry not in use; -1 for none. */
    method Scan(inum: nat) returns (found: int, empty: int)
      requires forall e: nat :: e < |cache| ==> cache[e].ref >= 0
      ensures found >= 0 ==> found < |cache| && cache[found].ref > 0 && cache[found].inum == inum
      ensures found < 0 ==> forall e :: 0 <= e < |cache| && cache[e].ref > 0 ==> cache[e].inum != inum
      ensures found < 0 && empty >= 0 ==>
        empty < |cache| && cache[empty].ref == 0 && forall e :: 0 <= e < empty ==> cache[e].ref > 0
      ensures found < 0 && empty < 0 ==> forall e :: 0 <= e < |cache| ==> cache[e].ref > 0
    {
      found, empty := -1, -1;
      var i := 0;
      while i < |cache|
        invariant 0 <= i <= |cache| && found == -1
        invariant forall e :: 0 <= e < i && cache[e].ref > 0 ==> cache[e].inum != inum
        invariant empty >= 0 ==> empty < i && cache[empty].ref == 0 && forall e :: 0 <= e < empty ==> cache[e].ref > 0
        invariant empty < 0 ==> forall e :: 0 <= e < i ==> cache[e].ref > 0
      {
        if cache[i].ref > 0 && cache[i].inum == inum { return i, empty; }
        if empty < 0 && cache[i].ref == 0 { empty := i; }
        i := i + 1;
      }
    }

    /** iget under icache.lock, by a lookup or (born) by ialloc: the step taken, or no entry is left. */
    method TakeEntry(inum: nat, born: bool) returns (e: nat)
      requires Valid() && !stopped && inum < |disk| && procs[me].phase == if born then Born(inum) else Running
      modifies `cache, `procs, `stopped
      ensures stopped <==> forall x :: 0 <= x < |old(cache)| ==> old(cache)[x].ref > 0 && old(cache)[x].inum != inum
      ensures stopped ==> View() == old(View())
      ensures !stopped ==> Ready() && e < |cache| == |old(cache)| && cache[e].inum == inum
      ensures !stopped ==>
        procs[me] == Grab(old(procs[me]), e).(phase := Running) && Steady(old(View()), View(), me, -1)
      ensures !stopped ==> disk == old(disk) && files == old(files) && Quietly(old(View()), View(), me)
      ensures !stopped ==> HeldInums(old(View()), View(), me)
    {
      ghost var s := View();
      forall x: nat | x < |cache| ensures cache[x].ref >= 0 { assert EntryOk(s, x); }
      var found, empty := Scan(inum);
      e := 0;
      if found < 0 && empty < 0 {
        stopped := true;
        return;
      }
      e := if found >= 0 then found else empty;
      ghost var r := if born then Take(e) else Lookup(inum, e);
      assert ProcOk(s, me);
      assert CanRef(s, me, r);
      StepKeepsInv(s, ByRef(me, r));
      RefSteady(s, me, r);
      RefQuietly(s, me, r);
      forall x: nat | x < |cache| && Holds(procs[me], x) > 0 ensures cache[x].ref > 0 { HeldEntry(s, me, x); }
      if cache[e].ref > 0 {
        cache := cache[e := cache[e].(ref := cache[e].ref + 1)];
      } else {
        cache := cache[e := cache[e].(inum := inum, ref := 1, valid := false)];
      }
      procs := procs[me := procs[me].(phase := Running, hand := Plus(procs[me].hand, e))];
      assert View() == DoRef(s, me, r);
    }

    /** A reference to the one entry for inum; panics when the cache is full. */
    method Iget(inum: nat) returns (e: nat)
      requires Ready() && inum < |disk|
      modifies this
      ensures !stopped ==> Ready() && Steady(old(View()), View(), me, -1)
      ensures !stopped ==> e < |cache| && cache[e].inum == inum && procs[me] == Grab(old(procs[me]), e)
      ensures !stopped ==> HeldInums(old(View()), View(), me)
      ensures old(script) == [] ==>
        (stopped <==> forall x :: 0 <= x < |old(cache)| ==> old(cache)[x].ref > 0 && old(cache)[x].inum != inum)
      ensures old(script) == [] && !stopped ==> script == [] && Quietly(old(View()), View(), me)
    {
      Others();
      ghost var s := View();
      e := TakeEntry(inum, false);
      if !stopped { SteadyTwice(old(View()), s, View(), me, -1); }
    }

    method Idup(e: nat)
      requires Ready() && e < |cache| && Holds(procs[me], e) > 0
      modifies this
      ensures Ready() && Steady(old(View()), View(), me, -1) && procs[me] == Grab(old(procs[me]), e)
      ensures cache[e].inum == old(cache[e].inum) && HeldInums(old(View()), View(), me)
      ensures old(script) == [] && !stopped ==> script == [] && Quietly(old(View()), View(), me)
    {
      Others();
      ghost var s := View();
      HeldEntry(s, me, e);
      assert ProcOk(s, me);
      StepKeepsInv(s, ByRef(me, Dup(e)));
      RefSteady(s, me, Dup(e));
      RefQuietly(s, me, Dup(e));
      cache := cache[e := cache[e].(ref := cache[e].ref + 1)];
      procs := procs[me := procs[me].(hand := Plus(procs[me].hand, e))];
      assert View() == DoRef(s, me, Dup(e));
      SteadyTwice(old(View()), s, View(), me, -1);
    }

    /** acquiresleep on an inode's lock: waits while the others run. */
    method LockEntry(e: nat)
      requires Ready() && e < |cache| && Holds(procs[me], e) > 0
      modifies this
      ensures !stopped ==> Ready() && Steady(old(View()), View(), me, e) && procs[me] == old(procs[me])
      ensures !stopped ==> old(cache[e].lock) != Some(me) && cache[e].lock == Some(me) && Inums(old(View()), View(), me)
      ensures old(script) == [] ==> script == [] && (stopped <==> old(cache[e].lock).Some?)
      ensures old(script) == [] && !stopped ==>
        disk == old(disk) && cache == old(cache)[e := old(cache[e]).(lock := Some(me))]
      ensures old(script) == [] && !stopped ==> script == [] && Quietly(old(View()), View(), me)
    {
      Others();
      while cache[e].lock != None && script != []
        invariant Ready() && Rely(old(View()), View(), me)
        invariant old(script) == [] ==> script == [] && View() == old(View())
        decreases |script|
      {
        ghost var v := View();
        Others();
        RelyTwice(old(View()), v, View(), me);
      }
      if cache[e].lock != None {
        stopped := true;
        return;
      }
      ghost var s := View();
      StepKeepsInv(s, ByLock(me, Lock(e)));
      LockSteady(s, me, Lock(e));
      LockQuietly(s, me, Lock(e));
      cache := cache[e := cache[e].(lock := Some(me))];
      assert View() == DoLock(s, me, Lock(e));
      SteadyOpen(old(View()), s, me, e);
      SteadyTwice(old(View()), s, View(), me, e);
    }

    /** Locks the inode and loads it if need be; panics on a free one. */
    method Ilock(e: nat)
      requires Ready() && e < |cache| && Holds(procs[me], e) > 0
      modifies this
      ensures !stopped ==> Ready() && Steady(old(View()), View(), me, e) && procs[me] == old(procs[me])
      ensures !stopped ==> old(cache[e].lock) != Some(me) && cache[e].lock == Some(me) && cache[e].valid
      ensures !stopped ==> Inums(old(View()), View(), me)
      ensures old(script) == [] ==> old(cache[e].inum) < |old(disk)|
      ensures old(script) == [] ==>
        (stopped <==> old(cache[e].lock).Some? || (!old(cache[e].valid) && old(disk)[old(cache[e].inum)].kind == 0))
      ensures old(script) == [] && !stopped ==> script == [] && Quietly(old(View()), View(), me)
    {
      HeldEntry(View(), me, e);
      LockEntry(e);
      if stopped || cache[e].valid { return; }
      ghost var v := View();
      Others();
      ghost var s := View();
      HeldEntry(s, me, e);
      var d := disk[cache[e].inum];
      if d.kind == 0 {
        stopped := true;
        return;
      }
      StepKeepsInv(s, ByLock(me, Load(e)));
      LockSteady(s, me, Load(e));
      LockQuietly(s, me, Load(e));
      cache := cache[e := cache[e].(valid := true, kind := d.kind, nlink := d.nlink)];
      assert View() == DoLock(s, me, Load(e));
      SteadyOpen(v, s, me, e);
      SteadyTwice(old(View()), v, s, me, e);
      SteadyTwice(old(View()), s, View(), me, e);
    }

    method Iunlock(e: nat)
      requires Ready() && e < |cache| && cache[e].lock == Some(me)
      modifies this
      ensures Ready() && Steady(old(View()), View(), me, e) && procs[me] == old(procs[me])
      ensures cache[e].lock != Some(me) && Inums(old(View()), View(), me) && SoleFiles(old(View()), View(), me)
      ensures old(script) == [] ==> cache[e].lock == None
      ensures old(script) == [] && !stopped ==> script == [] && Quietly(old(View()), View(), me)
    {
      Others();
      ghost var s := View();
      StepKeepsInv(s, ByLock(me, Unlock(e)));
      LockSteady(s, me, Unlock(e));
      LockQuietly(s, me, Unlock(e));
      cache := cache[e := cache[e].(lock := None)];
      assert View() == DoLock(s, me, Unlock(e));
      SteadyOpen(old(View()), s, me, e);
      SteadyTwice(old(View()), s, View(), me, e);
    }

    /** iput with the lock: reads valid, nlink and ref, and lets the lock go unless it frees. */
    method JudgeEntry(e: nat) returns (free: bool)
      requires Ready() && HasEntry(View(), me, e) && cache[e].lock == Some(me)
      modifies `cache, `procs
      ensures Valid() && View() == DoLock(old(View()), me, Judge(e)) && free == Frees(old(cache[e]))
    {
      ghost var s := View();
      StepKeepsInv(s, ByLock(me, Judge(e)));
      free := cache[e].valid && cache[e].nlink == 0 && cache[e].ref == 1;
      if free {
        procs := procs[me := procs[me].(phase := Freeing(e))];
      } else {
        procs := procs[me := procs[me].(phase := Dropping(e))];
        cache := cache[e := cache[e].(lock := None)];
      }
    }

    /** itrunc, type = 0, iupdate, valid = 0, releasesleep. */
    method FreeInode(e: nat)
      requires Valid() && procs[me].phase == Freeing(e)
      modifies `cache, `procs, `disk
      ensures Valid() && CanLock(old(View()), me, Refs.Free) && View() == DoLock(old(View()), me, Refs.Free)
    {
      ghost var s := View();
      assert ProcOk(s, me);
      HeldEntry(s, me, e);
      StepKeepsInv(s, ByLock(me, Refs.Free));
      disk := disk[cache[e].inum := DInode(0, cache[e].nlink)];
      cache := cache[e := cache[e].(valid := false, kind := 0, lock := None)];
      procs := procs[me := procs[me].(phase := Dropping(e))];
    }

    method DropRef(e: nat)
      requires Valid() && !stopped && procs[me].phase == Dropping(e)
      modifies `cache, `procs
      ensures Ready() && Steady(old(View()), View(), me, -1) && procs[me] == Let(old(procs[me]), e).(phase := Running)
      ensures e < |cache| && cache[e].lock != Some(me) && Inums(old(View()), View(), me)
      ensures disk == old(disk) && Quietly(old(View()), View(), me)
    {
      ghost var s := View();
      assert ProcOk(s, me);
      StepKeepsInv(s, ByRef(me, Drop));
      RefSteady(s, me, Drop);
      RefQuietly(s, me, Drop);
      cache := cache[e := cache[e].(ref := cache[e].ref - 1)];
      procs := procs[me := procs[me].(phase := Running, hand := Minus(procs[me].hand, e))];
      assert View() == DoRef(s, me, Drop);
    }

    /** iput's free, once it is decided; the others may run first. */
    method SettleFree(e: nat)
      requires Valid() && procs[me].phase == Refs.Freeing(e)
      modifies this
      ensures Valid() && stopped == old(stopped) && Steady(old(View()), View(), me, e)
      ensures procs[me] == old(procs[me]).(phase := Dropping(e)) && Inums(old(View()), View(), me)
      ensures old(script) == [] ==> script == [] && e < |old(cache)| && old(cache)[e].inum < |old(disk)|
      ensures old(script) == [] ==> disk == old(disk)[old(cache)[e].inum := DInode(0, 0)]
      ensures old(script) == [] && !stopped ==> script == [] && Quietly(old(View()), View(), me)
    {
      assert ProcOk(View(), me);
      Others();
      ghost var s := View();
      SteadyOpen(old(View()), s, me, e);
      FreeInode(e);
      LockSteady(s, me, Refs.Free);
      LockQuietly(s, me, Refs.Free);
      SteadyTwice(old(View()), s, View(), me, e);
    }

    /** iput from its look at valid, nlink and ref to the release of the lock; the others may run before
        the look and before the free. */
    method SettlePut(e: nat)
      requires Ready() && HasEntry(View(), me, e) && cache[e].lock == Some(me)
      modifies this
      ensures Valid() && stopped == old(stopped) && Steady(old(View()), View(), me, e)
      ensures procs[me] == old(procs[me]).(phase := Dropping(e)) && Inums(old(View()), View(), me)
      ensures old(script) == [] ==> script == [] && disk == FreedDisk(old(disk), old(cache[e]))
      ensures old(script) == [] && !stopped ==> script == [] && Quietly(old(View()), View(), me)
    {
      Others();
      ghost var s := View();
      LockSteady(s, me, Judge(e));
      LockQuietly(s, me, Judge(e));
      SteadyOpen(old(View()), s, me, e);
      var free := JudgeEntry(e);
      ghost var t := View();
      SteadyTwice(old(View()), s, t, me, e);
      if free {
        SettleFree(e);
        SteadyTwice(old(View()), t, View(), me, e);
      }
    }

    /** Gives a reference back; the last one to an inode without links frees it on disk. */
    method Iput(e: nat)
      requires Ready() && HasEntry(View(), me, e)
      modifies this
      ensures !stopped ==> Ready() && Steady(old(View()), View(), me, -1) && procs[me] == Let(old(procs[me]), e)
      ensures !stopped ==> Inums(old(View()), View(), me)
      ensures old(script) == [] ==> (stopped <==> old(cache[e].lock).Some?)
      ensures old(script) == [] && !stopped ==> script == [] && disk == FreedDisk(old(disk), old(cache[e]))
      ensures old(script) == [] && !stopped ==> script == [] && Quietly(old(View()), View(), me)
    {
      LockEntry(e);
      if stopped { return; }
      ghost var s := View();
      SettlePut(e);
      SteadyTwice(old(View()), s, View(), me, e);
      ghost var t := View();
      Others();
      ghost var u := View();
      SteadyOpen(t, u, me, e);
      SteadyTwice(old(View()), t, u, me, e);
      DropRef(e);
      SteadyOpen(u, View(), me, e);
      SteadyTwice(old(View()), u, View(), me, e);
      SteadyClose(old(View()), View(), me, e);
    }

    /** iunlockput */
    method Iunlockput(e: nat)
      requires Ready() && HasEntry(View(), me, e) && cache[e].lock == Some(me)
      modifies this
      ensures !stopped ==> Ready() && Steady(old(View()), View(), me, e) && procs[me] == Let(old(procs[me]), e)
      ensures !stopped ==> cache[e].lock != Some(me) && Inums(old(View()), View(), me)
      ensures old(script) == [] ==> !stopped
      ensures old(script) == [] && !stopped ==> script == [] && Quietly(old(View()), View(), me)
    {
      Iunlock(e);
      ghost var s := View();
      Iput(e);
      if !stopped {
        SteadyOpen(s, View(), me, e);
        SteadyTwice(old(View()), s, View(), me, e);
      }
    }

    /** nlink and iupdate. */
    method SetNlink(e: nat, n: int)
      requires Ready() && e < |cache| && cache[e].lock == Some(me) && cache[e].valid
      modifies this
      ensures Ready() && Steady(old(View()), View(), me, e) && procs[me] == old(procs[me])
      ensures cache[e].(ref := 0) == old(cache[e]).(ref := 0, nlink := n) && Inums(old(View()), View(), me)
      ensures old(script) == [] ==> script == [] && Calmly(old(View()), View(), me)
      ensures old(script) == [] && (n > 0 || old(cache[e].nlink) <= 0) ==> Quietly(old(View()), View(), me)
    {
      Others();
      ghost var s := View();
      assert EntryOk(s, e);
      HeldEntry(s, me, e);
      StepKeepsInv(s, ByLock(me, SetLinks(e, n)));
      LockSteady(s, me, SetLinks(e, n));
      LockCalmly(s, me, SetLinks(e, n));
      if n > 0 || cache[e].nlink <= 0 { LockQuietly(s, me, SetLinks(e, n)); }
      cache := cache[e := cache[e].(nlink := n)];
      disk := disk[cache[e].inum := DInode(cache[e].kind, n)];
      assert View() == DoLock(s, me, SetLinks(e, n));
      SteadyOpen(old(View()), s, me, e);
      SteadyTwice(old(View()), s, View(), me, e);
    }

    /** ialloc's loop: one inode block is read at a time. */
    method ScanDisk() returns (j: nat)
      requires Ready()
      modifies `cache, `disk, `files, `procs, `script
      ensures Ready() && Rely(old(View()), View(), me) && j >= 1 && (j < |disk| ==> disk[j].kind == 0)
      ensures old(script) == [] ==> script == [] && View() == old(View())
      ensures old(script) == [] ==> forall i :: 0 < i < j && i < |disk| ==> disk[i].kind != 0
    {
      j := 1;
      Others();
      while j < |disk| && disk[j].kind != 0
        invariant 1 <= j && Ready() && Rely(old(View()), View(), me)
        invariant old(script) == [] ==> script == [] && View() == old(View())
        invariant old(script) == [] ==> forall i :: 0 < i < j && i < |disk| ==> disk[i].kind != 0
        decreases |old(disk)| - j
      {
        ghost var v := View();
        Others();
        RelyTwice(old(View()), v, View(), me);
        j := j + 1;
      }
    }

    /** ialloc up to its mark on a free inode; panics when it has found none. */
    method MarkFree(kind: int) returns (j: nat)
      requires Ready() && kind != 0
      modifies this
      ensures !stopped ==> Valid() && j < |disk| && procs[me] == old(procs[me]).(phase := Born(j))
      ensures !stopped ==> Steady(old(View()), View(), me, -1)
      ensures old(script) == [] ==>
        script == [] && (stopped <==> forall i :: 0 < i < |old(disk)| ==> old(disk)[i].kind != 0)
      ensures old(script) == [] && !stopped ==>
        j < |old(disk)| && old(disk)[j].kind == 0 && disk == old(disk)[j := DInode(kind, 0)] && cache == old(cache)
      ensures old(script) == [] && !stopped ==> Calmly(old(View()), View(), me)
    {
      j := ScanDisk();
      if j >= |disk| {
        stopped := true;
        return;
      }
      ghost var s := View();
      StepKeepsInv(s, ByLock(me, Mark(j, kind)));
      LockSteady(s, me, Mark(j, kind));
      LockCalmly(s, me, Mark(j, kind));
      disk := disk[j := DInode(kind, 0)];
      procs := procs[me := procs[me].(phase := Born(j))];
      assert View() == DoLock(s, me, Mark(j, kind));
      SteadyTwice(old(View()), s, View(), me, -1);
    }

    /** ialloc: the first free inode on disk, marked and referenced; panics when there is none. */
    method Ialloc(kind: int) returns (e: nat)
      requires Ready() && kind != 0
      modifies this
      ensures !stopped ==>
        Ready() && Steady(old(View()), View(), me, -1) && e < |cache| && procs[me] == Grab(old(procs[me]), e)
      ensures old(script) == [] && !stopped ==>
        script == [] && Calmly(old(View()), View(), me) && cache[e].inum < |disk| == |old(disk)| &&
        old(disk)[cache[e].inum].kind == 0 && disk == old(disk)[cache[e].inum := DInode(kind, 0)]
      ensures old(script) == [] && HasFree(old(disk)) && Vacant(old(cache)) ==>
        !stopped
    {
      e := 0;
      var j := MarkFree(kind);
      if stopped { return; }
      ghost var s := View();
      Others();
      SteadyTwice(old(View()), s, View(), me, -1);
      ghost var t := View();
      e := TakeEntry(j, true);
      if !stopped { SteadyTwice(old(View()), t, View(), me, -1); }
    }

    // ---------- files and descriptors ----------

    /** filealloc: the first unused file, or -1. */
    method Filealloc() returns (f: int)
      requires Ready()
      modifies this
      ensures Ready() && Steady(old(View()), View(), me, -1)
      ensures f < 0 ==> procs[me] == old(procs[me]) && forall x :: 0 <= x < |files| ==> files[x].ref != 0
      ensures f >= 0 ==> f < |files| && procs[me] == GrabFile(old(procs[me]), f) && files[f] == File(1, None)
      ensures f >= 0 ==> Names(old(procs[me]), f) == 0
      ensures old(script) == [] && f >= 0 ==> forall x :: 0 <= x < f ==> old(files)[x].ref != 0
      ensures old(script) == [] ==> script == [] && cache == old(cache) && disk == old(disk)
      ensures old(script) == [] ==> (f >= 0 <==> HasUnused(old(files)))
    {
      Others();
      f := 0;
      while f < |files| && files[f].ref != 0
        invariant 0 <= f <= |files| && forall x :: 0 <= x < f ==> files[x].ref != 0
      {
        f := f + 1;
      }
      if f == |files| { return -1; }
      ghost var s := View();
      assert FileOk(s, f) && ProcOk(s, me);
      NamedByTwo(s.procs, me, me, f, |s.procs|);
      StepKeepsInv(s, ByFile(me, Refs.FileAlloc(f)));
      FileSteady(s, me, Refs.FileAlloc(f));
      files := files[f := files[f].(ref := 1)];
      procs := procs[me := procs[me].(fileHand := Plus(procs[me].fileHand, f))];
      assert View() == DoFile(s, me, Refs.FileAlloc(f));
      SteadyTwice(old(View()), s, View(), me, -1);
    }

    /** filedup. */
    method Filedup(f: nat)
      requires Ready() && f < |files| && Names(procs[me], f) > 0
      modifies this
      ensures Ready() && Steady(old(View()), View(), me, -1) && procs[me] == GrabFile(old(procs[me]), f)
    {
      Others();
      ghost var s := View();
      assert ProcOk(s, me);
      StepKeepsInv(s, ByFile(me, FileDup(f)));
      FileSteady(s, me, FileDup(f));
      files := files[f := files[f].(ref := files[f].ref + 1)];
      procs := procs[me := procs[me].(fileHand := Plus(procs[me].fileHand, f))];
      assert View() == DoFile(s, me, FileDup(f));
      SteadyTwice(old(View()), s, View(), me, -1);
    }

    /** fdalloc's search: the first free descriptor, or -1. */
    method FreeFd() returns (d: int)
      requires me < |procs|
      ensures d >= 0 ==>
        d < |procs[me].ofile| && procs[me].ofile[d] == None && forall x :: 0 <= x < d ==> procs[me].ofile[x].Some?
      ensures d < 0 ==> None !in procs[me].ofile
    {
      d := 0;
      var ofile := procs[me].ofile;
      while d < |ofile|
        invariant 0 <= d <= |ofile| && forall x :: 0 <= x < d ==> ofile[x].Some?
      {
        if ofile[d] == None { return; }
        d := d + 1;
      }
      d := -1;
    }

    /** Descriptor d takes over the caller's file reference. */
    method InstallFd(d: nat, f: nat)
      requires Ready() && HasFile(View(), me, f) && d < |procs[me].ofile| && procs[me].ofile[d] == None
      modifies `procs
      ensures Ready() && Steady(old(View()), View(), me, -1)
      ensures procs[me] == LetFile(old(procs[me]), f).(ofile := old(procs[me]).ofile[d := Some(f)])
    {
      ghost var s := View();
      StepKeepsInv(s, ByOwn(me, Install(me, d, f)));
      procs := procs[me := procs[me].(fileHand := Minus(procs[me].fileHand, f))];
      procs := procs[me := procs[me].(ofile := procs[me].ofile[d := Some(f)])];
      assert procs == DoOwn(s, me, Install(me, d, f));
    }

    /** The caller takes over a descriptor's file reference. */
    method RemoveFd(d: nat)
      requires Ready() && d < |procs[me].ofile| && procs[me].ofile[d].Some?
      modifies `procs
      ensures Ready() && Steady(old(View()), View(), me, -1) && old(procs[me]).ofile[d].value < |files|
      ensures procs[me]
        == GrabFile(old(procs[me]), old(procs[me]).ofile[d].value).(ofile := old(procs[me]).ofile[d := None])
    {
      ghost var s := View();
      assert ProcOk(s, me);
      StepKeepsInv(s, ByOwn(me, Remove(d)));
      var f := procs[me].ofile[d].value;
      procs := procs[me := procs[me].(ofile := procs[me].ofile[d := None], fileHand := Plus(procs[me].fileHand, f))];
      assert procs == DoOwn(s, me, Remove(d));
    }

    /** fileclose under ftable.lock. */
    method CloseFile(f: nat) returns (ip: Option<nat>)
      requires Ready() && HasFile(View(), me, f)
      modifies `files, `procs
      ensures View() == DoFile(old(View()), me, Refs.FileClose(f))
      ensures ip == if old(files[f]).ref > 1 then None else old(files[f]).ip
    {
      ghost var s := View();
      assert FileOk(s, f) && ProcOk(s, me);
      var y := files[f];
      ip := if y.ref > 1 then None else y.ip;
      files := files[f := if y.ref > 1 then y.(ref := y.ref - 1) else File(0, None)];
      procs := procs[me := procs[me].(fileHand := Minus(procs[me].fileHand, f))];
      if ip.Some? { procs := procs[me := procs[me].(hand := Plus(procs[me].hand, ip.value))]; }
    }

    /** fileclose up to its iput: the inode of a file closed for the last time is in hand. */
    method LetFileGo(f: nat) returns (ip: Option<nat>)
      requires Ready() && HasFile(View(), me, f)
      modifies this
      ensures Ready() && Steady(old(View()), View(), me, -1) && (ip.Some? ==> ip.value < |cache|)
      ensures procs[me] == if ip.Some? then Grab(LetFile(old(procs[me]), f), ip.value) else LetFile(old(procs[me]), f)
      ensures old(script) == [] ==> ip == if old(files[f]).ref == 1 then old(files[f]).ip else None
      ensures old(files[f]) == File(1, None) && Names(old(procs[me]), f) == 1 ==> ip == None
      ensures old(script) == [] ==> script == [] && cache == old(cache) && disk == old(disk)
    {
      Others();
      ghost var s := View();
      assert FileOk(s, f) && ProcOk(s, me);
      NamedByTwo(s.procs, me, me, f, |s.procs|);
      StepKeepsInv(s, ByFile(me, Refs.FileClose(f)));
      FileSteady(s, me, Refs.FileClose(f));
      ip := CloseFile(f);
      SteadyTwice(old(View()), s, View(), me, -1);
    }

    /** sys_open's last lines: the file takes the inode reference over. */
    method FillFile(f: nat, e: nat)
      requires Ready() && HasEntry(View(), me, e) && cache[e].lock != Some(me)
      requires f < |files| && files[f] == File(1, None) && Names(procs[me], f) == 1
      modifies this
      ensures Ready() && Steady(old(View()), View(), me, -1) && procs[me] == Let(old(procs[me]), e)
      ensures files[f] == File(1, Some(e)) && cache[e].inum == old(cache[e].inum)
      ensures old(script) == [] ==> script == [] && cache == old(cache) && disk == old(disk)
    {
      Others();
      ghost var s := View();
      StepKeepsInv(s, ByFile(me, FileOpen(f, e)));
      FileSteady(s, me, FileOpen(f, e));
      files := files[f := files[f].(ip := Some(e))];
      procs := procs[me := procs[me].(hand := Minus(procs[me].hand, e))];
      assert View() == DoFile(s, me, FileOpen(f, e));
      SteadyTwice(old(View()), s, View(), me, -1);
    }

    /** The current directory becomes a reference in hand, and the other way round. */
    method LeaveDir()
      requires Ready() && procs[me].cwd.Some?
      modifies `procs
      ensures Ready() && Steady(old(View()), View(), me, -1)
      ensures procs[me] == Grab(old(procs[me]), old(procs[me]).cwd.value).(cwd := None) &&
        old(procs[me]).cwd.value < |cache|
    {
      ghost var s := View();
      assert ProcOk(s, me);
      StepKeepsInv(s, ByOwn(me, Depart));
      procs := procs[me := procs[me].(cwd := None, hand := Plus(procs[me].hand, procs[me].cwd.value))];
      assert procs == DoOwn(s, me, Depart);
    }

    method EnterDir(e: nat)
      requires Ready() && HasEntry(View(), me, e) && cache[e].lock != Some(me) && procs[me].cwd == None
      modifies `procs
      ensures Ready() && Steady(old(View()), View(), me, -1) && procs[me] == Let(old(procs[me]), e).(cwd := Some(e))
    {
      ghost var s := View();
      StepKeepsInv(s, ByOwn(me, Enter(me, e)));
      procs := procs[me := procs[me].(hand := Minus(procs[me].hand, e))];
      procs := procs[me := procs[me].(cwd := Some(e))];
      assert procs == DoOwn(s, me, Enter(me, e));
    }

    // ---------- namex ----------

    /** iget of inode inum with entry e locked and in hand. */
    method Reach(e: nat, inum: nat, ghost q: Proc) returns (x: nat)
      requires Ready() && e < |cache| && e < |q.hand| && procs[me] == Grab(q, e) && inum < |disk|
      requires forall x :: 0 <= x < |cache| ==> (cache[x].lock == Some(me) <==> x == e)
      modifies this
      ensures !stopped ==> Ready() && |disk| == old(|disk|) && |cache| == old(|cache|)
      ensures !stopped ==> x < |cache| && x < |q.hand| && procs[me] == Grab(Grab(q, e), x) && cache[x].inum == inum
      ensures !stopped ==> forall x :: 0 <= x < |cache| ==> (cache[x].lock == Some(me) <==> x == e)
      ensures !stopped ==> cache[e].(ref := 0) == old(cache[e]).(ref := 0) && (x == e <==> inum == old(cache[e].inum))
      ensures !stopped ==> InumsOf(View(), q) == old(InumsOf(View(), q))
      ensures old(script) == [] && !stopped ==> script == [] && Quietly(old(View()), View(), me)
      ensures old(script) == [] && old(Spare(Base(View(), me), q)) ==> !stopped
      ensures old(Sole()) && !stopped && x != e ==> cache[x].lock == None
    {
      ghost var s := View();
      if script == [] && Spare(Base(s, me), q) { OneLeft(s, me, q, e); }
      LetGrab(q, e);
      x := Iget(inum);
      if stopped { return; }
      assert ProcOk(View(), me);
      LetGrab(Grab(q, e), x);
      SameEntry(View(), me, e, x);
      SameInums(s, View(), me, q);
      if old(Sole()) && x != e { Unlocked(View(), me, x); }
    }

    /** From locked entry e on to the entry for inode inum, whose reference is taken first. */
    method StepOn(e: nat, inum: nat, ghost q: Proc) returns (next: nat)
      requires Ready() && e < |cache| && e < |q.hand| && procs[me] == Grab(q, e) && inum < |disk|
      requires forall x :: 0 <= x < |cache| ==> (cache[x].lock == Some(me) <==> x == e)
      modifies this
      ensures !stopped ==> Ready() && NoLocks() && |disk| == old(|disk|) && |cache| == old(|cache|)
      ensures !stopped ==> next < |cache| && next < |q.hand| && procs[me] == Grab(q, next) && cache[next].inum == inum
      ensures !stopped ==> InumsOf(View(), q) == old(InumsOf(View(), q))
      ensures old(script) == [] && !stopped ==> script == [] && Quietly(old(View()), View(), me)
      ensures old(script) == [] && old(Spare(Base(View(), me), q)) ==> !stopped
    {
      ghost var s := View();
      next := Reach(e, inum, q);
      if stopped { return; }
      PassOn(q, e, next);
      ghost var t := View();
      Iunlockput(e);
      if stopped { return; }
      LetGrab(q, next);
      SameInums(t, View(), me, q);
      if old(script) == [] { QuietTwice(s, t, View(), me); }
    }

    /** iunlockput of the one entry that is locked. */
    method Leave(e: nat, ghost q: Proc)
      requires Ready() && e < |cache| && e < |q.hand| && procs[me] == Grab(q, e)
      requires forall x :: 0 <= x < |cache| ==> (cache[x].lock == Some(me) <==> x == e)
      modifies this
      ensures !stopped ==> Ready() && NoLocks() && procs[me] == q && |disk| == old(|disk|) && |cache| == old(|cache|)
      ensures !stopped ==> InumsOf(View(), q) == old(InumsOf(View(), q))
      ensures old(script) == [] ==> !stopped && script == [] && Quietly(old(View()), View(), me)
    {
      LetGrab(q, e);
      ghost var s := View();
      Iunlockput(e);
      if !stopped { SameInums(s, View(), me, q); }
    }

    /** ilock of an entry in hand, when nobody else runs: it shows the kind that the inode has on disk and
        had on the earlier disk d. */
    method Look(e: nat, ghost d: seq<DInode>)
      requires Ready() && NoLocks() && HasEntry(View(), me, e)
      modifies this
      ensures !stopped ==> Ready() && Steady(old(View()), View(), me, e) && procs[me] == old(procs[me])
      ensures !stopped ==> |disk| == old(|disk|) && |cache| == old(|cache|) && cache[e].valid
      ensures !stopped ==> forall x :: 0 <= x < |cache| ==> (cache[x].lock == Some(me) <==> x == e)
      ensures !stopped ==> Inums(old(View()), View(), me) && cache[e].inum == old(cache[e].inum) && cache[e].kind != 0
      ensures old(script) == [] && !stopped ==> script == [] && Quietly(old(View()), View(), me)
      ensures old(script) == [] && !stopped && KeptFrom(d, old(disk)) ==>
        OfKind(d, Some(cache[e].inum), cache[e].kind) && KeptFrom(d, disk)
      ensures old(Sole()) && Linked(old(disk), Some(old(cache[e].inum))) ==> !stopped
    {
      if Sole() { Unlocked(View(), me, e); }
      ghost var disk0 := disk;
      Ilock(e);
      if stopped { return; }
      HeldEntry(View(), me, e);
      if old(script) == [] && KeptFrom(d, disk0) { KeptTwice(d, disk0, disk); }
    }

    /** One turn of namex's loop, at entry e; `found` is what dirlookup finds, `stop` that this is the
        last element and the parent is wanted.  `more` says to go on at `next`.  d is an earlier disk. */
    method Walk(e: nat, found: Option<nat>, stop: bool, ghost q: Proc, ghost d: seq<DInode>)
      returns (more: bool, next: nat)
      requires Ready() && NoLocks() && e < |cache| && e < |q.hand| && procs[me] == Grab(q, e)
      requires found.Some? ==> found.value < |disk|
      modifies this
      ensures !stopped ==> Ready() && NoLocks() && |disk| == old(|disk|) && |cache| == old(|cache|)
      ensures !stopped && more ==> next < |cache| && next < |q.hand| && procs[me] == Grab(q, next)
      ensures !stopped && more ==>
        if stop then next == e && cache[e].inum == old(cache[e].inum)
        else found.Some? && cache[next].inum == found.value
      ensures !stopped && !more ==> procs[me] == q
      ensures !stopped ==> InumsOf(View(), q) == old(InumsOf(View(), q))
      ensures old(script) == [] && !stopped ==> script == [] && Quietly(old(View()), View(), me)
      ensures old(script) == [] && !stopped && KeptFrom(d, old(disk)) ==>
        (more <==> OfKind(d, Some(old(cache[e].inum)), T_DIR) && (stop || found.Some?))
      ensures old(Sole()) && old(Spare(Base(View(), me), q)) && Linked(old(disk), Some(old(cache[e].inum))) ==> !stopped
    {
      more, next := false, e;
      ghost var s := View();
      LetGrab(q, e);
      Look(e, d);
      if stopped { return; }
      ghost var t := View();
      SameInums(s, t, me, q);
      if cache[e].kind != T_DIR || (!stop && found == None) {
        Leave(e, q);
      } else if stop {
        Iunlock(e);
        SameInums(t, View(), me, q);
        more := true;
      } else {
        next := StepOn(e, found.value, q);
        more := true;
      }
      if !stopped && old(script) == [] { QuietTwice(s, t, View(), me); }
    }

    /** The inode of the current directory. */
    ghost function Here(): nat
      requires InDir()
      reads this
    {
      cache[procs[me].cwd.value].inum
    }

    /** Where namex starts: the root or the current directory. */
    static function From(absolute: bool, here: nat): nat { if absolute then ROOTINO else here }

    method StartWalk(absolute: bool) returns (e: nat)
      requires Ready() && NoLocks() && InDir()
      modifies this
      ensures !stopped ==> Ready() && NoLocks() && |disk| == old(|disk|) && |cache| == old(|cache|)
      ensures !stopped ==> e < |cache| && e < |old(procs[me]).hand| && procs[me] == Grab(old(procs[me]), e)
      ensures !stopped ==> cache[e].inum == From(absolute, old(Here()))
      ensures !stopped ==> InumsOf(View(), old(procs[me])) == old(InumsOf(View(), procs[me]))
      ensures old(script) == [] && !stopped ==> script == [] && Quietly(old(View()), View(), me)
      ensures old(script) == [] && old(Spare(Base(View(), me), procs[me])) ==> !stopped
    {
      e := 0;
      if absolute {
        if script == [] && Spare(Base(View(), me), procs[me]) { OneLeft(View(), me, procs[me], 0); }
        e := Iget(ROOTINO);
        if stopped { return; }
      } else {
        e := procs[me].cwd.value;
        Idup(e);
      }
      assert ProcOk(View(), me);
      SameInums(old(View()), View(), me, old(procs[me]));
    }

    /** namex: found[i] is what dirlookup finds for the i-th path element; d is an earlier disk. */
    method Namex(absolute: bool, found: seq<Option<nat>>, parent: bool, ghost d: seq<DInode>)
      returns (ip: Option<nat>)
      requires Ready() && NoLocks() && InDir() && GoodPath(found, |disk|)
      modifies this
      ensures !stopped ==> Ready() && NoLocks() && |disk| == old(|disk|) && |cache| == old(|cache|)
      ensures !stopped && ip == None ==> procs[me] == old(procs[me])
      ensures !stopped && ip.Some? ==> ip.value < |cache| && procs[me] == Grab(old(procs[me]), ip.value)
      ensures !stopped && ip.Some? ==>
        PathEnd(found, From(absolute, old(Here())), parent) == Some(cache[ip.value].inum)
      ensures !stopped ==> InumsOf(View(), old(procs[me])) == old(InumsOf(View(), procs[me]))
      // alone, it succeeds exactly on directories and names that are there, and never stops on linked ones
      ensures old(script) == [] && !stopped ==> script == [] && Quietly(old(View()), View(), me)
      ensures old(script) == [] && !stopped && KeptFrom(d, old(disk)) ==>
        (ip.Some? <==> Leads(d, found, From(absolute, old(Here())), parent))
      ensures old(Sole()) && old(Spare(Base(View(), me), procs[me])) &&
              AllLinked(old(disk), found, From(absolute, old(Here()))) ==>
        !stopped
    {
      ghost var q, s := procs[me], View();
      var e := StartWalk(absolute);
      if stopped { return None; }
      if old(script) == [] {
        if KeptFrom(d, s.disk) { KeptTwice(d, s.disk, disk); }
        LinkedAll(s.disk, disk, found, From(absolute, old(Here())));
      }
      ghost var t := View();
      ip := Follow(e, found, parent, q, d);
      if !stopped && old(script) == [] { QuietTwice(s, t, View(), me); }
    }

    /** namex's loop from entry e on. */
    method Follow(first: nat, found: seq<Option<nat>>, parent: bool, ghost q: Proc, ghost d: seq<DInode>)
      returns (ip: Option<nat>)
      requires Ready() && NoLocks() && GoodPath(found, |disk|) && first < |cache| && first < |q.hand| &&
        procs[me] == Grab(q, first)
      modifies this
      ensures !stopped ==> Ready() && NoLocks() && |disk| == old(|disk|) && |cache| == old(|cache|)
      ensures !stopped && ip == None ==> procs[me] == q
      ensures !stopped && ip.Some? ==> ip.value < |cache| && procs[me] == Grab(q, ip.value)
      ensures !stopped && ip.Some? ==> PathEnd(found, old(cache[first].inum), parent) == Some(cache[ip.value].inum)
      ensures !stopped ==> InumsOf(View(), q) == old(InumsOf(View(), q))
      ensures old(script) == [] && !stopped ==> script == [] && Quietly(old(View()), View(), me)
      ensures old(script) == [] && !stopped && KeptFrom(d, old(disk)) ==>
        (ip.Some? <==> Leads(d, found, old(cache[first].inum), parent))
      ensures old(Sole()) && old(Spare(Base(View(), me), q)) && AllLinked(old(disk), found, old(cache[first].inum)) ==>
        !stopped
    {
      ghost var s, start := View(), cache[first].inum;
      var e: nat, i := first, 0;
      while i < |found|
        invariant 0 <= i <= |found| && Ready() && NoLocks() && |disk| == old(|disk|) && e < |cache| == old(|cache|)
        invariant e < |q.hand| && procs[me] == Grab(q, e) && PathAt(found, i, start) == Some(cache[e].inum)
        invariant (parent && i == |found| ==> found == []) && InumsOf(View(), q) == InumsOf(s, q)
        invariant old(script) == [] ==> script == [] && Quietly(s, View(), me)
        invariant old(script) == [] && KeptFrom(d, s.disk) ==> Passed(d, found, start, i)
      {
        var stop := parent && i == |found| - 1;
        var more;
        ghost var v := View();
        if old(script) == [] {
          if KeptFrom(d, s.disk) { KeptTwice(d, s.disk, disk); }
          LinkedStays(s.disk, disk, PathAt(found, i, start));
        }
        more, e := Walk(e, found[i], stop, q, d);
        if stopped { return None; }
        if old(script) == [] { QuietTwice(s, v, View(), me); }
        if !more {
          NoWay(d, found, start, parent, i);
          return None;
        }
        if stop { return Some(e); }
        i := i + 1;
      }
      if parent {
        ip := None;
        GiveBack(e, q);
        if !stopped && old(script) == [] { assert !Leads(d, found, start, parent); }
        return;
      }
      ip := Some(e);
    }

    /** iput of the entry in hand. */
    method GiveBack(e: nat, ghost q: Proc)
      requires Ready() && NoLocks() && e < |cache| && e < |q.hand| && procs[me] == Grab(q, e)
      modifies this
      ensures !stopped ==> Ready() && NoLocks() && procs[me] == q && |disk| == old(|disk|) && |cache| == old(|cache|)
      ensures !stopped ==> InumsOf(View(), q) == old(InumsOf(View(), q))
      ensures old(script) == [] && !stopped ==> script == [] && Quietly(old(View()), View(), me)
      ensures old(Sole()) ==> !stopped
    {
      LetGrab(q, e);
      if Sole() { Unlocked(View(), me, e); }
      ghost var s := View();
      Iput(e);
      if !stopped { SameInums(s, View(), me, q); }
    }

    /** namex and ilock: the inode locked and in hand, or none; d is an earlier disk. */
    method Find(absolute: bool, found: seq<Option<nat>>, parent: bool, ghost d: seq<DInode>) returns (ip: Option<nat>)
      requires Ready() && NoLocks() && InDir() && GoodPath(found, |disk|)
      modifies this
      ensures !stopped ==> Ready() && |disk| == old(|disk|) && |cache| == old(|cache|)
      ensures !stopped ==> forall x :: 0 <= x < |cache| ==> (cache[x].lock == Some(me) <==> ip == Some(x))
      ensures !stopped && ip == None ==> procs[me] == old(procs[me])
      ensures !stopped && ip.Some? ==> ip.value < |cache| && ip.value < |old(procs[me]).hand| && cache[ip.value].valid
      ensures !stopped && ip.Some? ==> procs[me] == Grab(old(procs[me]), ip.value) && cache[ip.value].kind != 0
      ensures !stopped && ip.Some? ==>
        PathEnd(found, From(absolute, old(Here())), parent) == Some(cache[ip.value].inum)
      ensures !stopped ==> InumsOf(View(), old(procs[me])) == old(InumsOf(View(), procs[me]))
      ensures old(script) == [] && !stopped ==> script == [] && Quietly(old(View()), View(), me)
      ensures old(script) == [] && !stopped && KeptFrom(d, old(disk)) ==>
        KeptFrom(d, disk) && (ip.Some? <==> Leads(d, found, From(absolute, old(Here())), parent)) &&
        (ip.Some? ==> OfKind(d, Some(cache[ip.value].inum), cache[ip.value].kind))
      ensures old(Sole()) && old(Spare(Base(View(), me), procs[me])) &&
              AllLinked(old(disk), found, From(absolute, old(Here()))) ==>
        !stopped
    {
      ghost var q, s, start := procs[me], View(), From(absolute, Here());
      ip := Namex(absolute, found, parent, d);
      if stopped { return; }
      assert ProcOk(View(), me);
      if old(script) == [] && KeptFrom(d, s.disk) { KeptTwice(d, s.disk, disk); }
      if ip == None { return; }
      LetGrab(q, ip.value);
      if old(script) == [] { LinkedEnd(s.disk, disk, found, start, parent); }
      ghost var t := View();
      Look(ip.value, d);
      if stopped { return; }
      SameInums(t, View(), me, q);
      if old(script) == [] { QuietTwice(s, t, View(), me); }
    }

    // ---------- create ----------

    /** create where the name exists, as inode inum; dp is locked.  d is an earlier disk. */
    method CreateOld(dp: nat, inum: nat, kind: int, ghost q: Proc, ghost d: seq<DInode>) returns (ip: Option<nat>)
      requires Ready() && dp < |cache| && dp < |q.hand| && procs[me] == Grab(q, dp) && inum < |disk|
      requires forall x :: 0 <= x < |cache| ==> (cache[x].lock == Some(me) <==> x == dp)
      modifies this
      ensures !stopped ==>
        Ready() && (ip.Some? ==> ip.value < |cache|) && procs[me] == if ip.Some? then Grab(q, ip.value) else q
      ensures !stopped ==> forall x :: 0 <= x < |cache| ==> (cache[x].lock == Some(me) <==> ip == Some(x))
      ensures !stopped && ip.Some? ==>
        cache[ip.value].valid && cache[ip.value].kind == T_FILE && cache[ip.value].inum == inum
      ensures old(script) == [] && !stopped ==> script == [] && Calmly(old(View()), View(), me)
      ensures old(script) == [] && !stopped && KeptFrom(d, old(disk)) ==>
        (ip.Some? <==> kind == T_FILE && OfKind(d, Some(inum), T_FILE))
      ensures old(Sole()) && old(Spare(Base(View(), me), q)) && Linked(old(disk), Some(inum)) ==> !stopped
    {
      ghost var disk0 := disk;
      var e := StepOn(dp, inum, q);
      if stopped { return None; }
      if old(script) == [] {
        if KeptFrom(d, disk0) { KeptTwice(d, disk0, disk); }
        LinkedStays(disk0, disk, Some(inum));
      }
      LetGrab(q, e);
      Look(e, d);
      if stopped { return None; }
      if kind == T_FILE && cache[e].kind == T_FILE { return Some(e); }
      Leave(e, q);
      ip := None;
    }

    /** create's ialloc, ilock and first iupdate. */
    method NewInode(kind: int, dp: nat) returns (e: nat)
      requires Ready() && kind != 0 && dp < |cache| && cache[dp].lock == Some(me) && cache[dp].valid
      requires forall x :: 0 <= x < |cache| ==> (cache[x].lock == Some(me) <==> x == dp)
      modifies this
      ensures !stopped ==> Ready() && e < |cache| && dp < |cache| && procs[me] == Grab(old(procs[me]), e)
      ensures !stopped ==> e != dp && cache[dp].valid && cache[e].valid && cache[e].nlink == 1
      ensures !stopped ==> forall x :: 0 <= x < |cache| ==> (cache[x].lock == Some(me) <==> x == dp || x == e)
      ensures old(script) == [] && !stopped ==>
        script == [] && Calmly(old(View()), View(), me) && cache[e].kind == kind
      ensures old(Sole()) && HasFree(old(disk)) && Vacant(old(cache)) ==>
        !stopped
    {
      ghost var q := procs[me];
      assert EntryOk(View(), dp);
      HeldEntry(View(), me, dp);
      e := Ialloc(kind);
      if stopped { return; }
      assert ProcOk(View(), me);
      LetGrab(q, e);
      if old(Sole()) { Unlocked(View(), me, e); }
      Ilock(e);
      if stopped { return; }
      HeldEntry(View(), me, e);
      SetNlink(e, 1);
    }

    /** create where the name is new; dp is locked. */
    method CreateNew(dp: nat, kind: int, ghost q: Proc) returns (e: nat)
      requires Ready() && kind != 0 && dp < |cache| && cache[dp].valid && dp < |q.hand| && procs[me] == Grab(q, dp)
      requires forall x :: 0 <= x < |cache| ==> (cache[x].lock == Some(me) <==> x == dp)
      modifies this
      ensures !stopped ==> Ready() && e < |cache| && procs[me] == Grab(q, e) && cache[e].valid && cache[e].nlink == 1
      ensures !stopped ==> forall x :: 0 <= x < |cache| ==> (cache[x].lock == Some(me) <==> x == e)
      ensures old(script) == [] && !stopped ==>
        script == [] && Calmly(old(View()), View(), me) && cache[e].kind == kind
      ensures old(Sole()) && HasFree(old(disk)) && old(Spare(Base(View(), me), q)) ==> !stopped
    {
      if Sole() && Spare(Base(View(), me), q) { OneLeft(View(), me, q, dp); }
      e := NewInode(kind, dp);
      if stopped { return; }
      assert ProcOk(View(), me);
      PassOn(q, dp, e);
      if kind == T_DIR { SetNlink(dp, cache[dp].nlink + 1); }
      Iunlockput(dp);
    }

    /** When create succeeds if nobody else runs: in a directory that is there, for a new name, or for an
        old file that a file is asked for. */
    static predicate Creates(disk: seq<DInode>, path: seq<Option<nat>>, start: nat, found: Option<nat>, kind: int) {
      Leads(disk, path, start, true) && (found == None || (kind == T_FILE && OfKind(disk, found, T_FILE)))
    }

    /** create: a locked, referenced inode, or none and no reference kept. */
    method Create(absolute: bool, path: seq<Option<nat>>, found: Option<nat>, kind: int) returns (ip: Option<nat>)
      requires Ready() && NoLocks() && InDir()
      requires GoodPath(path, |disk|) && kind != 0 && (found.Some? ==> found.value < |disk|)
      modifies this
      ensures !stopped ==> Ready() && (ip.Some? ==> ip.value < |cache|)
      ensures !stopped ==> procs[me] == if ip.Some? then Grab(old(procs[me]), ip.value) else old(procs[me])
      ensures !stopped ==> forall x :: 0 <= x < |cache| ==> (cache[x].lock == Some(me) <==> ip == Some(x))
      ensures !stopped && ip.Some? && found.Some? ==> cache[ip.value].inum == found.value
      ensures !stopped && ip.Some? && found == None ==> cache[ip.value].nlink == 1
      ensures old(script) == [] && !stopped ==> script == [] && Calmly(old(View()), View(), me)
      ensures old(script) == [] && !stopped ==>
        (ip.Some? <==> Creates(old(disk), path, From(absolute, old(Here())), found, kind)) &&
        (ip.Some? ==> cache[ip.value].kind == kind)
      ensures old(Sole()) && old(Spare(Base(View(), me), procs[me])) && Linked(old(disk), found) &&
              AllLinked(old(disk), path, From(absolute, old(Here()))) && (found == None ==> HasFree(old(disk))) ==>
        !stopped
    {
      ghost var q, s := procs[me], View();
      var dp := Find(absolute, path, true, s.disk);
      if stopped || dp == None { return None; }
      if old(script) == [] { LinkedStays(s.disk, disk, found); }
      if found.Some? {
        ip := CreateOld(dp.value, found.value, kind, q, s.disk);
      } else {
        var e := CreateNew(dp.value, kind, q);
        ip := Some(e);
      }
    }

    /** sys_mkdir and sys_mknod. */
    method Mknod(absolute: bool, path: seq<Option<nat>>, found: Option<nat>, kind: int) returns (ok: bool)
      requires Ready() && NoLocks() && InDir()
      requires GoodPath(path, |disk|) && kind != 0 && (found.Some? ==> found.value < |disk|)
      modifies this
      ensures !stopped ==> Ready() && NoLocks() && procs[me] == old(procs[me])
      ensures old(script) == [] && !stopped ==> script == [] && Calmly(old(View()), View(), me)
      ensures old(script) == [] && !stopped ==>
        (ok <==> Creates(old(disk), path, From(absolute, old(Here())), found, kind))
      ensures old(Sole()) && old(Spare(Base(View(), me), procs[me])) && Linked(old(disk), found) &&
              AllLinked(old(disk), path, From(absolute, old(Here()))) && (found == None ==> HasFree(old(disk))) ==>
        !stopped
    {
      ghost var q := procs[me];
      var ip := Create(absolute, path, found, kind);
      if stopped || ip == None { return false; }
      assert ProcOk(View(), me);
      Leave(ip.value, q);
      ok := true;
    }

    // ---------- link and unlink ----------

    /** dirlink's test of the name that it finds, as inode inum, with dp locked. */
    method Meet(dp: nat, inum: nat, ghost q: Proc)
      requires Ready() && dp < |cache| && dp < |q.hand| && procs[me] == Grab(q, dp) && inum < |disk|
      requires forall x :: 0 <= x < |cache| ==> (cache[x].lock == Some(me) <==> x == dp)
      modifies this
      ensures !stopped ==> Ready() && procs[me] == old(procs[me]) && |cache| == old(|cache|)
      ensures !stopped ==> forall x :: 0 <= x < |cache| ==> (cache[x].lock == Some(me) <==> x == dp)
      ensures !stopped ==> InumsOf(View(), q) == old(InumsOf(View(), q))
      ensures old(script) == [] && !stopped ==> script == [] && Quietly(old(View()), View(), me)
      ensures old(Sole()) && old(Spare(Base(View(), me), q)) ==> (stopped <==> inum == old(cache[dp].inum))
    {
      ghost var s := View();
      var x := Reach(dp, inum, q);
      if stopped { return; }
      LetGrab(Grab(q, dp), x);
      ghost var t := View();
      Iput(x);
      if stopped { return; }
      SameInums(t, View(), me, q);
      if old(script) == [] { QuietTwice(s, t, View(), me); }
    }

    /** sys_link after its nlink++: `found` is dirlink's dirlookup in the new parent. */
    method LinkName(absolute: bool, path: seq<Option<nat>>, found: Option<nat>, ghost d: seq<DInode>)
      returns (ok: bool)
      requires Ready() && NoLocks() && InDir() && GoodPath(path, |disk|) && (found.Some? ==> found.value < |disk|)
      modifies this
      ensures !stopped ==> Ready() && NoLocks() && |cache| == old(|cache|) && procs[me] == old(procs[me])
      ensures !stopped ==> InumsOf(View(), procs[me]) == old(InumsOf(View(), procs[me]))
      ensures old(script) == [] && !stopped ==> script == [] && Quietly(old(View()), View(), me)
      ensures old(script) == [] && !stopped && KeptFrom(d, old(disk)) ==>
        (ok <==> Leads(d, path, From(absolute, old(Here())), true) && found == None)
      ensures old(Sole()) && old(Spare(Base(View(), me), procs[me])) &&
              AllLinked(old(disk), path, From(absolute, old(Here()))) && KeptFrom(d, old(disk)) ==>
        (stopped <==> Leads(d, path, From(absolute, old(Here())), true) && found.Some? &&
                      found == PathEnd(path, From(absolute, old(Here())), true))
    {
      ghost var q, s := procs[me], View();
      var dp := Find(absolute, path, true, d);
      if stopped || dp == None { return false; }
      ghost var t := View();
      if found.Some? {
        Meet(dp.value, found.value, q);
        if stopped { return false; }
        if old(script) == [] { QuietTwice(s, t, View(), me); }
        t := View();
      }
      Leave(dp.value, q);
      if old(script) == [] { QuietTwice(s, t, View(), me); }
      ok := found == None;
    }

    /** sys_link's end: on failure nlink-- ; either way the old inode's reference is given back. */
    method LinkEnd(e: nat, ok: bool, ghost q: Proc)
      requires Ready() && NoLocks() && e < |cache| && e < |q.hand| && procs[me] == Grab(q, e)
      modifies this
      ensures !stopped ==> Ready() && NoLocks() && procs[me] == q
      ensures old(script) == [] && !stopped ==> script == [] && Calmly(old(View()), View(), me)
      ensures old(Sole()) && Linked(old(disk), Some(old(cache[e].inum))) ==> !stopped
    {
      LetGrab(q, e);
      if !ok {
        Look(e, disk);
        if stopped { return; }
        SetNlink(e, cache[e].nlink - 1);
        Iunlockput(e);
      } else {
        GiveBack(e, q);
      }
    }

    /** What sys_link goes on with if nobody else runs: a name that leads to something but a directory. */
    static predicate Nameable(disk: seq<DInode>, path: seq<Option<nat>>, start: nat) {
      Leads(disk, path, start, false) && !OfKind(disk, PathEnd(path, start, false), T_DIR)
    }

    /** sys_link up to its nlink++: the old inode in hand and unlocked, or none. */
    method Raise(absolute: bool, path: seq<Option<nat>>) returns (ip: Option<nat>)
      requires Ready() && NoLocks() && InDir() && GoodPath(path, |disk|)
      modifies this
      ensures !stopped ==> Ready() && NoLocks() && |cache| == old(|cache|) && |disk| == old(|disk|)
      ensures !stopped && ip == None ==> procs[me] == old(procs[me])
      ensures !stopped && ip.Some? ==> ip.value < |cache| && procs[me] == Grab(old(procs[me]), ip.value)
      ensures !stopped && ip.Some? ==> PathEnd(path, From(absolute, old(Here())), false) == Some(cache[ip.value].inum)
      ensures !stopped ==> InumsOf(View(), old(procs[me])) == old(InumsOf(View(), procs[me]))
      ensures old(script) == [] && !stopped ==> script == [] && Quietly(old(View()), View(), me)
      ensures old(script) == [] && !stopped ==>
        (ip.Some? <==> Nameable(old(disk), path, From(absolute, old(Here()))))
      ensures old(Sole()) && old(Spare(Base(View(), me), procs[me])) &&
              AllLinked(old(disk), path, From(absolute, old(Here()))) ==>
        !stopped
    {
      ghost var q, s := procs[me], View();
      ip := Find(absolute, path, false, s.disk);
      if stopped || ip == None { return None; }
      ghost var t := View();
      if cache[ip.value].kind == T_DIR {
        Leave(ip.value, q);
        if !stopped && old(script) == [] { QuietTwice(s, t, View(), me); }
        return None;
      }
      Bump(ip.value, q);
      if old(script) == [] { QuietTwice(s, t, View(), me); }
    }

    /** nlink++ and iunlock of the one entry that is locked. */
    method Bump(e: nat, ghost q: Proc)
      requires Ready() && e < |cache| && e < |q.hand| && procs[me] == Grab(q, e) && cache[e].valid
      requires forall x :: 0 <= x < |cache| ==> (cache[x].lock == Some(me) <==> x == e)
      modifies this
      ensures Ready() && NoLocks() && procs[me] == old(procs[me]) && |disk| == old(|disk|) && |cache| == old(|cache|)
      ensures cache[e].inum == old(cache[e].inum) && InumsOf(View(), q) == old(InumsOf(View(), q))
      ensures old(script) == [] ==> script == [] && Quietly(old(View()), View(), me)
    {
      ghost var s := View();
      SetNlink(e, cache[e].nlink + 1);
      ghost var t := View();
      Iunlock(e);
      LetGrab(q, e);
      SameInums(s, t, me, q);
      SameInums(t, View(), me, q);
      if old(script) == [] { QuietTwice(s, t, View(), me); }
    }

    /** sys_link.  Alone and on linked paths it hangs exactly when the new name is found to be its own
        directory, whose lock dirlink's iput then waits for. */
    method Link(absolute: bool, path: seq<Option<nat>>, newAbsolute: bool, newPath: seq<Option<nat>>,
        found: Option<nat>)
      returns (ok: bool)
      requires Ready() && NoLocks() && InDir() && (found.Some? ==> found.value < |disk|)
      requires GoodPath(path, |disk|) && GoodPath(newPath, |disk|)
      modifies this
      ensures !stopped ==> Ready() && NoLocks() && procs[me] == old(procs[me])
      ensures old(script) == [] && !stopped ==> script == [] && Calmly(old(View()), View(), me)
      ensures old(script) == [] && !stopped ==>
        (ok <==> Nameable(old(disk), path, From(absolute, old(Here()))) && found == None &&
                 Leads(old(disk), newPath, From(newAbsolute, old(Here())), true))
      ensures old(Sole()) && old(SpareThree(Base(View(), me), procs[me])) &&
              AllLinked(old(disk), path, From(absolute, old(Here()))) &&
              AllLinked(old(disk), newPath, From(newAbsolute, old(Here()))) ==>
        (stopped <==> Nameable(old(disk), path, From(absolute, old(Here()))) && found.Some? &&
                      Leads(old(disk), newPath, From(newAbsolute, old(Here())), true) &&
                      found == PathEnd(newPath, From(newAbsolute, old(Here())), true))
    {
      ghost var q, s, here := procs[me], View(), Here();
      if SpareThree(Base(s, me), q) { SpareTwo(Base(s, me), q, 0); }
      var ip := Raise(absolute, path);
      if stopped || ip == None { return false; }
      assert ProcOk(View(), me);
      if SpareThree(Base(s, me), q) { SpareTwo(Base(s, me), q, ip.value); }
      InumAt(s, View(), q, q.cwd.value);
      if old(script) == [] {
        LinkedAll(s.disk, disk, newPath, From(newAbsolute, here));
        LinkedEnd(s.disk, disk, path, From(absolute, here), false);
      }
      ok := LinkRest(ip.value, newAbsolute, newPath, found, q, s.disk);
    }

    /** sys_link from its second namex on. */
    method LinkRest(e: nat, absolute: bool, path: seq<Option<nat>>, found: Option<nat>, ghost q: Proc,
        ghost d: seq<DInode>)
      returns (ok: bool)
      requires Ready() && NoLocks() && InDir() && GoodPath(path, |disk|) && (found.Some? ==> found.value < |disk|)
      requires e < |cache| && e < |q.hand| && procs[me] == Grab(q, e)
      modifies this
      ensures !stopped ==> Ready() && NoLocks() && procs[me] == q
      ensures old(script) == [] && !stopped ==> script == [] && Calmly(old(View()), View(), me)
      ensures old(script) == [] && !stopped && KeptFrom(d, old(disk)) ==>
        (ok <==> Leads(d, path, From(absolute, old(Here())), true) && found == None)
      ensures old(Sole()) && old(Spare(Base(View(), me), procs[me])) && Linked(old(disk), Some(old(cache[e].inum))) &&
              AllLinked(old(disk), path, From(absolute, old(Here()))) && KeptFrom(d, old(disk)) ==>
        (stopped <==> Leads(d, path, From(absolute, old(Here())), true) && found.Some? &&
                      found == PathEnd(path, From(absolute, old(Here())), true))
    {
      ghost var s := View();
      LetGrab(q, e);
      ok := LinkName(absolute, path, found, d);
      if stopped { return; }
      InumAt(s, View(), procs[me], e);
      if old(script) == [] { LinkedStays(s.disk, disk, Some(s.cache[e].inum)); }
      LinkEnd(e, ok, q);
    }

    /** sys_unlink's updates: dp and e are locked and e loses a name. */
    method Unname(dp: nat, e: nat, ghost q: Proc)
      requires Ready() && dp < |cache| && e < |cache| && dp != e && dp < |q.hand| && e < |q.hand|
      requires procs[me] == Grab(Grab(q, dp), e) && cache[dp].valid && cache[e].valid
      requires forall x :: 0 <= x < |cache| ==> (cache[x].lock == Some(me) <==> x == dp || x == e)
      modifies this
      ensures !stopped ==> Ready() && NoLocks() && procs[me] == q
      ensures old(script) == [] ==> !stopped && script == [] && Calmly(old(View()), View(), me)
    {
      PassOn(q, dp, e);
      if cache[e].kind == T_DIR { SetNlink(dp, cache[dp].nlink - 1); }
      Iunlockput(dp);
      if stopped { return; }
      LetGrab(q, e);
      SetNlink(e, cache[e].nlink - 1);
      Iunlockput(e);
    }

    /** sys_unlink of a directory that is not empty: both inodes are given back. */
    method GiveUp(dp: nat, e: nat, ghost q: Proc)
      requires Ready() && dp < |cache| && e < |cache| && dp != e && dp < |q.hand| && e < |q.hand|
      requires procs[me] == Grab(Grab(q, dp), e)
      requires forall x :: 0 <= x < |cache| ==> (cache[x].lock == Some(me) <==> x == dp || x == e)
      modifies this
      ensures !stopped ==> Ready() && NoLocks() && procs[me] == q
      ensures old(script) == [] ==> !stopped && script == [] && Calmly(old(View()), View(), me)
    {
      LetGrab(Grab(q, dp), e);
      Iunlockput(e);
      if stopped { return; }
      LetGrab(q, dp);
      Iunlockput(dp);
    }

    /** iget and ilock of inode inum while dp is locked: alone, it hangs exactly when that is dp's. */
    method Second(dp: nat, inum: nat, ghost q: Proc, ghost d: seq<DInode>) returns (e: nat)
      requires Ready() && dp < |cache| && cache[dp].valid && dp < |q.hand| && procs[me] == Grab(q, dp) && inum < |disk|
      requires forall x :: 0 <= x < |cache| ==> (cache[x].lock == Some(me) <==> x == dp)
      modifies this
      ensures !stopped ==> Ready() && |cache| == old(|cache|) && e < |cache| && e < |q.hand| && e != dp
      ensures !stopped ==> procs[me] == Grab(Grab(q, dp), e) && cache[dp].valid && cache[e].valid
      ensures !stopped ==> forall x :: 0 <= x < |cache| ==> (cache[x].lock == Some(me) <==> x == dp || x == e)
      ensures old(script) == [] && !stopped ==> script == [] && Calmly(old(View()), View(), me)
      ensures old(script) == [] && !stopped && KeptFrom(d, old(disk)) ==> OfKind(d, Some(inum), cache[e].kind)
      ensures old(script) == [] && !stopped && Linked(old(disk), Some(inum)) ==> cache[e].nlink > 0
      ensures old(Sole()) && old(Spare(Base(View(), me), q)) && Linked(old(disk), Some(inum)) ==>
        (stopped <==> inum == old(cache[dp].inum))
    {
      ghost var s := View();
      e := Reach(dp, inum, q);
      if stopped { return; }
      LetGrab(Grab(q, dp), e);
      ghost var t := View();
      Ilock(e);
      if stopped { return; }
      HeldEntry(View(), me, e);
      if old(script) == [] {
        KeptTwice(s.disk, t.disk, disk);
        if KeptFrom(d, s.disk) { KeptTwice(d, s.disk, disk); }
      }
    }

    /** sys_unlink once the parent dp is locked and names inode inum. */
    method UnlinkFrom(dp: nat, inum: nat, empty: bool, ghost q: Proc, ghost d: seq<DInode>) returns (ok: bool)
      requires Ready() && dp < |cache| && cache[dp].valid && dp < |q.hand| && procs[me] == Grab(q, dp) && inum < |disk|
      requires forall x :: 0 <= x < |cache| ==> (cache[x].lock == Some(me) <==> x == dp)
      modifies this
      ensures !stopped ==> Ready() && NoLocks() && procs[me] == q
      ensures old(script) == [] && !stopped ==> script == [] && Calmly(old(View()), View(), me)
      ensures old(script) == [] && !stopped && KeptFrom(d, old(disk)) ==>
        (ok <==> empty || !OfKind(d, Some(inum), T_DIR))
      ensures old(Sole()) && old(Spare(Base(View(), me), q)) && Linked(old(disk), Some(inum)) ==>
        (stopped <==> inum == old(cache[dp].inum))
    {
      var e := Second(dp, inum, q, d);
      if stopped { return false; }
      if cache[e].nlink < 1 {
        stopped := true;
        return false;
      }
      if cache[e].kind == T_DIR && !empty {
        GiveUp(dp, e, q);
        return false;
      }
      Unname(dp, e, q);
      ok := true;
    }

    /** sys_unlink: `dots` for "." and "..", `found` its dirlookup, `empty` its isdirempty. */
    method Unlink(absolute: bool, path: seq<Option<nat>>, dots: bool, found: Option<nat>, empty: bool)
      returns (ok: bool)
      requires Ready() && NoLocks() && InDir() && GoodPath(path, |disk|) && (found.Some? ==> found.value < |disk|)
      modifies this
      ensures !stopped ==> Ready() && NoLocks() && procs[me] == old(procs[me])
      ensures old(script) == [] && !stopped ==> script == [] && Calmly(old(View()), View(), me)
      ensures old(script) == [] && !stopped ==>
        (ok <==> Leads(old(disk), path, From(absolute, old(Here())), true) && !dots && found.Some? &&
                 (empty || !OfKind(old(disk), found, T_DIR)))
      ensures old(Sole()) && old(Spare(Base(View(), me), procs[me])) && Linked(old(disk), found) &&
              AllLinked(old(disk), path, From(absolute, old(Here()))) ==>
        (stopped <==> Leads(old(disk), path, From(absolute, old(Here())), true) && !dots && found.Some? &&
                      found == PathEnd(path, From(absolute, old(Here())), true))
    {
      ghost var q, s := procs[me], View();
      var dp := Find(absolute, path, true, s.disk);
      if stopped || dp == None { return false; }
      if dots || found == None {
        Leave(dp.value, q);
        return false;
      }
      if old(script) == [] { LinkedStays(s.disk, disk, found); }
      ok := UnlinkFrom(dp.value, found.value, empty, q, s.disk);
    }

    // ---------- descriptors ----------

    method Fileclose(f: nat)
      requires Ready() && NoLocks() && HasFile(View(), me, f)
      modifies this
      ensures !stopped ==> Ready() && NoLocks() && procs[me] == LetFile(old(procs[me]), f)
      ensures old(Sole()) ==> !stopped && Sole()
    {
      ghost var q := LetFile(procs[me], f);
      var ip := LetFileGo(f);
      if ip.Some? {
        assert ProcOk(View(), me);
        GiveBack(ip.value, q);
      }
    }

    /** sys_close. */
    method Close(d: int) returns (ok: bool)
      requires Ready() && NoLocks()
      modifies this
      ensures ok ==> 0 <= d < |old(procs[me]).ofile| && old(procs[me]).ofile[d].Some?
      ensures !stopped ==>
        Ready() && NoLocks() && (0 <= d < |old(procs[me]).ofile| && old(procs[me]).ofile[d].Some? ==> ok)
      ensures !stopped ==>
        procs[me] == if ok then old(procs[me]).(ofile := old(procs[me]).ofile[d := None]) else old(procs[me])
      ensures old(Sole()) ==> !stopped && Sole()
    {
      var q := procs[me];
      if d < 0 || d >= |q.ofile| || q.ofile[d] == None { return false; }
      var f := q.ofile[d].value;
      RemoveFd(d);
      assert ProcOk(View(), me);
      LetGrabFile(q.(ofile := q.ofile[d := None]), f);
      assert procs[me] == GrabFile(q.(ofile := q.ofile[d := None]), f);
      Fileclose(f);
      ok := true;
    }

    /** sys_dup.  The count is raised before the slot is filled; the source does it after, with nothing
        in between. */
    method DupFd(d: int) returns (r: int)
      requires Ready() && NoLocks()
      modifies this
      ensures Ready() && NoLocks()
      ensures r >= 0
        <==> 0 <= d < |old(procs[me]).ofile| && old(procs[me]).ofile[d].Some? && None in old(procs[me]).ofile
      ensures r < 0 ==> procs[me] == old(procs[me])
      ensures r >= 0 ==> r < |old(procs[me]).ofile| && old(procs[me]).ofile[r] == None
      ensures r >= 0 ==> procs[me] == old(procs[me]).(ofile := old(procs[me]).ofile[r := old(procs[me]).ofile[d]])
    {
      var q := procs[me];
      if d < 0 || d >= |q.ofile| || q.ofile[d] == None { return -1; }
      var f := q.ofile[d].value;
      r := FreeFd();
      if r < 0 { return -1; }
      assert ProcOk(View(), me);
      FdRefsAtLeast(q.ofile, d, f, |q.ofile|);
      Filedup(f);
      LetGrabFile(q, f);
      InstallFd(r, f);
    }

    // ---------- open, chdir ----------

    /** The file just installed at descriptor d is named there only. */
    lemma NamedOnce(q: Proc, d: nat, f: nat)
      requires f < |q.fileHand| && d < |q.ofile| && q.ofile[d] == None && Names(q, f) == 0
      ensures LetFile(GrabFile(q, f), f).(ofile := q.ofile[d := Some(f)]) == q.(ofile := q.ofile[d := Some(f)])
      ensures Names(q.(ofile := q.ofile[d := Some(f)]), f) == 1
    {
      LetGrabFile(q, f);
      FdRefsUpdate(q.ofile, d, Some(f), f, |q.ofile|);
    }

    /** sys_open's filealloc and fdalloc: a file and a descriptor for it, or (-1, -1) and neither kept. */
    method NewFile() returns (f: int, fd: int)
      requires Ready()
      modifies this
      ensures Ready() && Steady(old(View()), View(), me, -1) && (f >= 0 <==> fd >= 0)
      ensures fd < 0 ==> procs[me] == old(procs[me])
      ensures fd >= 0 ==> f < |files| && files[f] == File(1, None) && Names(procs[me], f) == 1
      ensures fd >= 0 ==> fd < |old(procs[me]).ofile| && old(procs[me]).ofile[fd] == None
      ensures fd >= 0 ==> procs[me] == old(procs[me]).(ofile := old(procs[me]).ofile[fd := Some(f)])
      ensures old(script) == [] ==> script == [] && cache == old(cache) && disk == old(disk)
      ensures old(script) == [] ==> (fd >= 0 <==> HasUnused(old(files)) && None in old(procs[me]).ofile)
    {
      ghost var q := procs[me];
      f := Filealloc();
      if f < 0 { return -1, -1; }
      assert ProcOk(View(), me);
      LetGrabFile(q, f);
      fd := FreeFd();
      ghost var s := View();
      if fd < 0 {
        var ip := LetFileGo(f);
        SteadyTwice(old(View()), s, View(), me, -1);
        return -1, -1;
      }
      InstallFd(fd, f);
      NamedOnce(q, fd, f);
      SteadyTwice(old(View()), s, View(), me, -1);
    }

    /** sys_open with its inode e locked and in hand: a descriptor for it, or -1 and e given back. */
    method OpenInode(e: nat, ghost q: Proc) returns (fd: int)
      requires Ready() && e < |cache| && e < |q.hand| && procs[me] == Grab(q, e)
      requires forall x :: 0 <= x < |cache| ==> (cache[x].lock == Some(me) <==> x == e)
      modifies this
      ensures !stopped ==> Ready() && NoLocks()
      ensures !stopped && fd < 0 ==> procs[me] == q
      ensures !stopped && fd >= 0 ==> procs[me] == q.(ofile := procs[me].ofile) && fd < |q.ofile| == |procs[me].ofile|
      ensures !stopped && fd >= 0 ==> q.ofile[fd] == None && procs[me].ofile[fd := None] == q.ofile
      ensures !stopped && fd >= 0 ==> procs[me].ofile[fd].Some? && procs[me].ofile[fd].value < |files|
      ensures !stopped && fd >= 0 ==> files[procs[me].ofile[fd].value] == File(1, Some(e))
      ensures !stopped && fd >= 0 ==> e < |cache| && cache[e].inum == old(cache[e].inum)
      ensures old(script) == [] ==> !stopped && script == [] && Foreign(View(), me) == old(Foreign(View(), me))
      ensures old(script) == [] ==> (fd >= 0 <==> HasUnused(old(files)) && None in q.ofile)
    {
      var f;
      LetGrab(q, e);
      f, fd := NewFile();
      if fd < 0 {
        Leave(e, q);
        return -1;
      }
      LetGrab(procs[me], e);
      Iunlock(e);
      FillFile(f, e);
    }

    /** When sys_open finds or makes its inode if nobody else runs. */
    static predicate Opens(disk: seq<DInode>, create: bool, path: seq<Option<nat>>, start: nat, found: Option<nat>,
        readOnly: bool) {
      if create then Creates(disk, path, start, found, T_FILE)
      else Leads(disk, path, start, false) && (readOnly || !OfKind(disk, PathEnd(path, start, false), T_DIR))
    }

    /** sys_open up to its filealloc: the inode locked and in hand, or none. */
    method FindInode(create: bool, absolute: bool, path: seq<Option<nat>>, found: Option<nat>, readOnly: bool)
      returns (ip: Option<nat>)
      requires Ready() && NoLocks() && InDir() && GoodPath(path, |disk|) && (found.Some? ==> found.value < |disk|)
      modifies this
      ensures !stopped ==> Ready() && (ip.Some? ==> ip.value < |cache|)
      ensures !stopped ==> procs[me] == if ip.Some? then Grab(old(procs[me]), ip.value) else old(procs[me])
      ensures !stopped ==> forall x :: 0 <= x < |cache| ==> (cache[x].lock == Some(me) <==> ip == Some(x))
      ensures !stopped && ip.Some? && (!create || found.Some?) ==>
        Some(cache[ip.value].inum) == if create then found else PathEnd(path, From(absolute, old(Here())), false)
      ensures old(script) == [] && !stopped ==> script == [] && Calmly(old(View()), View(), me)
      ensures old(script) == [] && !stopped ==>
        (ip.Some? <==> Opens(old(disk), create, path, From(absolute, old(Here())), found, readOnly))
      ensures old(Sole()) && old(Spare(Base(View(), me), procs[me])) && Linked(old(disk), found) &&
              AllLinked(old(disk), path, From(absolute, old(Here()))) &&
              (create && found == None ==> HasFree(old(disk))) ==>
        !stopped
    {
      ghost var q := procs[me];
      if create {
        ip := Create(absolute, path, found, T_FILE);
        return;
      }
      ip := Find(absolute, path, false, disk);
      if stopped || ip == None { return None; }
      if cache[ip.value].kind == T_DIR && !readOnly {
        Leave(ip.value, q);
        ip := None;
      }
    }

    /** sys_open: alone, a descriptor exactly when the inode is found or made and a file and a descriptor
        are free. */
    method Open(create: bool, absolute: bool, path: seq<Option<nat>>, found: Option<nat>, readOnly: bool)
      returns (fd: int)
      requires Ready() && NoLocks() && InDir() && GoodPath(path, |disk|) && (found.Some? ==> found.value < |disk|)
      modifies this
      ensures !stopped ==> Ready() && NoLocks()
      ensures !stopped && fd < 0 ==> procs[me] == old(procs[me])
      ensures !stopped && fd >= 0 ==> fd < |procs[me].ofile| && procs[me] == old(procs[me]).(ofile := procs[me].ofile)
      ensures !stopped && fd >= 0 ==> procs[me].ofile[fd := None] == old(procs[me]).ofile && procs[me].ofile[fd].Some?
      ensures !stopped && fd >= 0 ==> Opened(procs[me].ofile[fd].value)
      ensures !stopped && fd >= 0 && (!create || found.Some?) ==>
        Some(cache[files[procs[me].ofile[fd].value].ip.value].inum)
        == if create then found else PathEnd(path, From(absolute, old(Here())), false)
      ensures old(script) == [] && !stopped ==> script == [] && Foreign(View(), me) == old(Foreign(View(), me))
      ensures old(script) == [] && !stopped ==>
        (fd >= 0 <==> Opens(old(disk), create, path, From(absolute, old(Here())), found, readOnly) &&
                      HasUnused(old(files)) && None in old(procs[me]).ofile)
      ensures old(Sole()) && old(Spare(Base(View(), me), procs[me])) && Linked(old(disk), found) &&
              AllLinked(old(disk), path, From(absolute, old(Here()))) &&
              (create && found == None ==> HasFree(old(disk))) ==>
        !stopped
    {
      ghost var q := procs[me];
      var ip := FindInode(create, absolute, path, found, readOnly);
      if stopped || ip == None { return -1; }
      assert ProcOk(View(), me);
      fd := OpenInode(ip.value, q);
    }

    /** File f is an open inode. */
    ghost predicate Opened(f: nat)
      reads this
    {
      f < |files| && files[f].ip.Some? && files[f].ip.value < |cache|
    }

    /** sys_chdir's swap: the old directory's reference is given back, e's becomes the new one. */
    method SwapCwd(e: nat, ghost q: Proc)
      requires Ready() && NoLocks() && InDir() && e < |cache| && e < |q.hand| && procs[me] == Grab(q, e)
      modifies this
      ensures !stopped ==>
        Ready() && NoLocks() && procs[me] == q.(cwd := Some(e)) && e < |cache| && cache[e].inum == old(cache[e].inum)
      ensures old(script) == [] && !stopped ==> script == [] && Foreign(View(), me) == old(Foreign(View(), me))
      ensures old(Sole()) ==> !stopped
    {
      var c := procs[me].cwd.value;
      ghost var r := q.(cwd := None);
      LeaveDir();
      assert ProcOk(View(), me);
      LetGrab(Grab(r, e), c);
      assert procs[me] == Grab(Grab(r, e), c);
      if Sole() { Unlocked(View(), me, c); }
      Iput(c);
      if stopped { return; }
      LetGrab(r, e);
      EnterDir(e);
    }

    /** sys_chdir: on success the current directory is the inode the path leads to. */
    method Chdir(absolute: bool, path: seq<Option<nat>>) returns (ok: bool)
      requires Ready() && NoLocks() && InDir() && GoodPath(path, |disk|)
      modifies this
      ensures !stopped ==> Ready() && NoLocks() && InDir()
      ensures !stopped && !ok ==> procs[me] == old(procs[me])
      ensures !stopped && ok ==> procs[me] == old(procs[me]).(cwd := procs[me].cwd)
      ensures !stopped && ok ==> Some(Here()) == PathEnd(path, From(absolute, old(Here())), false)
      ensures old(script) == [] && !stopped ==> script == [] && Foreign(View(), me) == old(Foreign(View(), me))
      ensures old(script) == [] && !stopped ==>
        (ok <==> Leads(old(disk), path, From(absolute, old(Here())), false) &&
                 OfKind(old(disk), PathEnd(path, From(absolute, old(Here())), false), T_DIR))
      ensures old(Sole()) && old(Spare(Base(View(), me), procs[me])) &&
              AllLinked(old(disk), path, From(absolute, old(Here()))) ==>
        !stopped
    {
      ghost var q := procs[me];
      var ip := Find(absolute, path, false, disk);
      if stopped { return false; }
      assert ProcOk(View(), me);
      if ip == None { return false; }
      if cache[ip.value].kind != T_DIR {
        Leave(ip.value, q);
        if !stopped { assert ProcOk(View(), me); }
        return false;
      }
      LetGrab(q, ip.value);
      Iunlock(ip.value);
      SwapCwd(ip.value, q);
      ok := true;
    }

    // ---------- fork and exit ----------

    /** Descriptor d of the process being made takes over the caller's file reference. */
    method GiveFd(c: nat, d: nat, f: nat)
      requires Ready() && c != me && c < |procs| && procs[c].phase == Embryo(me)
      requires HasFile(View(), me, f) && d < |procs[c].ofile| && procs[c].ofile[d] == None
      modifies `procs
      ensures Ready() && |procs| == old(|procs|) && procs[me] == LetFile(old(procs[me]), f)
      ensures procs[c] == old(procs[c]).(ofile := old(procs[c]).ofile[d := Some(f)])
    {
      ghost var s := View();
      StepKeepsInv(s, ByOwn(me, Install(c, d, f)));
      procs := procs[me := procs[me].(fileHand := Minus(procs[me].fileHand, f))];
      procs := procs[c := procs[c].(ofile := procs[c].ofile[d := Some(f)])];
      assert procs == DoOwn(s, me, Install(c, d, f));
    }

    /** fork's loop over the descriptors. */
    method ForkFiles(c: nat)
      requires Ready() && NoLocks() && c != me && c < |procs| && procs[c].phase == Embryo(me) && Empty(procs[c])
      modifies this
      ensures Ready() && NoLocks() && |cache| == old(|cache|) && |procs| == old(|procs|) && procs[me] == old(procs[me])
      ensures procs[c] == old(procs[c]).(ofile := old(procs[me]).ofile)
    {
      ghost var q, r := procs[me], procs[c];
      var i := 0;
      assert ProcOk(View(), me) && ProcOk(View(), c);
      while i < NOFILE
        invariant 0 <= i <= NOFILE && Ready() && NoLocks() && |cache| == old(|cache|) && |procs| == old(|procs|)
        invariant procs[me] == q && |q.ofile| == NOFILE && |procs[c].ofile| == NOFILE &&
          procs[c] == r.(ofile := procs[c].ofile)
        invariant forall d :: 0 <= d < NOFILE ==> procs[c].ofile[d] == if d < i then q.ofile[d] else None
      {
        if procs[me].ofile[i].Some? {
          var f := procs[me].ofile[i].value;
          assert ProcOk(View(), me);
          FdRefsAtLeast(q.ofile, i, f, NOFILE);
          Filedup(f);
          LetGrabFile(q, f);
          GiveFd(c, i, f);
        }
        i := i + 1;
      }
      assert procs[c].ofile == q.ofile;
    }

    /** The current directory of the process being made takes over the caller's reference. */
    method GiveDir(c: nat, e: nat)
      requires Ready() && NoLocks() && c != me && c < |procs| && procs[c].phase == Embryo(me) && procs[c].cwd == None
      requires HasEntry(View(), me, e)
      modifies `procs
      ensures Ready() && NoLocks() && |procs| == old(|procs|) && procs[me] == Let(old(procs[me]), e)
      ensures procs[c] == old(procs[c]).(cwd := Some(e))
    {
      ghost var s := View();
      StepKeepsInv(s, ByOwn(me, Enter(c, e)));
      procs := procs[me := procs[me].(hand := Minus(procs[me].hand, e))];
      procs := procs[c := procs[c].(cwd := Some(e))];
      assert procs == DoOwn(s, me, Enter(c, e));
    }

    /** fork with table entry c, which allocproc chose; `copied` says that copyuvm did not fail.  The
        child has the parent's descriptors and directory, each counted. */
    method Fork(c: nat, copied: bool) returns (ok: bool)
      requires Ready() && NoLocks() && InDir() && c < |procs| && procs[c].phase == Unused
      modifies this
      ensures Ready() && NoLocks() && procs[me] == old(procs[me])
      ensures ok ==>
        c < |procs| &&
        procs[c] == old(procs[c]).(phase := Running, ofile := old(procs[me]).ofile, cwd := old(procs[me]).cwd)
      ensures ok <==> copied
    {
      ghost var q := procs[me];
      assert ProcOk(View(), c);
      MakeEntry(c, Embryo(me));
      if !copied {
        Others();
        MakeEntry(c, Unused);
        return false;
      }
      ForkFiles(c);
      var e := procs[me].cwd.value;
      Idup(e);
      assert ProcOk(View(), me);
      LetGrab(q, e);
      GiveDir(c, e);
      Others();
      MakeEntry(c, Running);
      ok := true;
    }

    /** The phases of the process being made. */
    method MakeEntry(c: nat, phase: Phase)
      requires Ready() && NoLocks() && c != me && c < |procs|
      requires if phase == Embryo(me) then procs[c].phase == Unused
        else procs[c].phase == Embryo(me) && (phase == Running || (phase == Unused && Empty(procs[c])))
      modifies `procs
      ensures Ready() && NoLocks() && procs == old(procs)[c := old(procs[c]).(phase := phase)]
    {
      ghost var s, o := View(), if phase == Running then Launch(c) else if phase == Unused then Abort(c) else Begin(c);
      assert ProcOk(s, c);
      StepKeepsInv(s, ByOwn(me, o));
      procs := procs[c := procs[c].(phase := phase)];
      assert procs == DoOwn(s, me, o);
    }

    /** exit: closes every descriptor and leaves the directory; nothing is held afterwards. */
    method Exit()
      requires Ready() && NoLocks() && InDir() && HandsEmpty(procs[me])
      modifies this
      ensures !stopped ==> Inv(View()) && NoLocks() && me < |procs| && procs[me].phase == Unused && Empty(procs[me])
      ensures old(Sole()) ==> !stopped && Sole()
    {
      CloseAll();
      if stopped { return; }
      ghost var q := procs[me].(cwd := None);
      var e := procs[me].cwd.value;
      LeaveDir();
      assert ProcOk(View(), me);
      assert procs[me] == Grab(q, e);
      GiveBack(e, q);
      if stopped { return; }
      ghost var s := View();
      StepKeepsInv(s, ByOwn(me, End));
      procs := procs[me := procs[me].(phase := Unused)];
      assert procs == DoOwn(s, me, End);
    }

    /** exit's loop over the descriptors. */
    method CloseAll()
      requires Ready() && NoLocks()
      modifies this
      ensures !stopped ==> Ready() && NoLocks() && procs[me] == old(procs[me]).(ofile := procs[me].ofile)
      ensures !stopped ==> forall d :: 0 <= d < |procs[me].ofile| ==> procs[me].ofile[d] == None
      ensures old(Sole()) ==> !stopped && Sole()
    {
      ghost var q := procs[me];
      var i := 0;
      assert ProcOk(View(), me);
      while i < NOFILE
        invariant 0 <= i <= NOFILE && Ready() && NoLocks() && procs[me] == q.(ofile := procs[me].ofile)
        invariant |procs[me].ofile| == NOFILE && forall d :: 0 <= d < i ==> procs[me].ofile[d] == None
        invariant old(Sole()) ==> Sole()
      {
        var ok := Close(i);
        if stopped { return; }
        i := i + 1;
      }
    }
  }
}
