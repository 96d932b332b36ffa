/** Inode and file references (iget, idup, ilock, iput, namex and ialloc in fs.c; filealloc, filedup
    and fileclose in file.c; the calls of sysfile.c, fork and exit that hold them), for any number of
    processes and any interleaving.  One device.  A step is one stretch under icache.lock, under
    ftable.lock or under an inode's sleep-lock, or a process's change of its own record.  What a
    directory lookup finds is an argument of the call. */
module Refs {

  datatype Option<T> = None | Some(value: T)

  const T_DIR := 1
  const T_FILE := 2
  const ROOTINO := 1
  const NOFILE := 16

  /** An icache entry; kind and nlink are meaningful when valid, lock is the sleep-lock's holder. */
  datatype Entry = Entry(inum: nat, ref: int, valid: bool, kind: int, nlink: int, lock: Option<nat>)

  /** An inode on disk; kind 0 is free. */
  datatype DInode = DInode(kind: int, nlink: int)

  /** A file structure; ip is None unless it is an open inode. */
  datatype File = File(ref: int, ip: Option<nat>)

  /** What a process is about: nothing, being made by fork, running, ialloc between its mark on disk
      and its iget, or iput before its free and before its decrement. */
  datatype Phase = Unused | Embryo(maker: nat) | Running | Born(inum: nat) | Freeing(e: nat) | Dropping(e: nat)

  /** A process: its current directory and descriptors, and how many references to each entry and to
      each file its local variables hold. */
  datatype Proc = Proc(phase: Phase, cwd: Option<nat>, ofile: seq<Option<nat>>, hand: seq<nat>, fileHand: seq<nat>)

  datatype State = State(cache: seq<Entry>, disk: seq<DInode>, files: seq<File>, procs: seq<Proc>)

  // ---------- counting ----------

  /** Open files among the first n that hold entry e. */
  function FileRefs(files: seq<File>, e: nat, n: nat): nat
    requires n <= |files|
  {
    if n == 0 then 0 else FileRefs(files, e, n - 1) + if files[n - 1].ip == Some(e) then 1 else 0
  }

  lemma {:induction false} FileRefsUpdate(files: seq<File>, f: nat, x: File, e: nat, n: nat)
    requires f < |files| && n <= |files|
    ensures FileRefs(files[f := x], e, n) == FileRefs(files, e, n)
      + if f < n then (if x.ip == Some(e) then 1 else 0) - (if files[f].ip == Some(e) then 1 else 0) else 0
  {
    if n > 0 { FileRefsUpdate(files, f, x, e, n - 1); }
  }

  lemma {:induction false} FileRefsAtLeast(files: seq<File>, f: nat, e: nat, n: nat)
    requires f < n <= |files| && files[f].ip == Some(e)
    ensures FileRefs(files, e, n) >= 1
  {
    if f < n - 1 { FileRefsAtLeast(files, f, e, n - 1); }
  }

  /** Descriptors among the first n that hold file f. */
  function FdRefs(ofile: seq<Option<nat>>, f: nat, n: nat): nat
    requires n <= |ofile|
  {
    if n == 0 then 0 else FdRefs(ofile, f, n - 1) + if ofile[n - 1] == Some(f) then 1 else 0
  }

  lemma {:induction false} FdRefsUpdate(ofile: seq<Option<nat>>, d: nat, x: Option<nat>, f: nat, n: nat)
    requires d < |ofile| && n <= |ofile|
    ensures FdRefs(ofile[d := x], f, n) == FdRefs(ofile, f, n)
      + if d < n then (if x == Some(f) then 1 else 0) - (if ofile[d] == Some(f) then 1 else 0) else 0
  {
    if n > 0 { FdRefsUpdate(ofile, d, x, f, n - 1); }
  }

  lemma {:induction false} FdRefsAtLeast(ofile: seq<Option<nat>>, d: nat, f: nat, n: nat)
    requires d < n <= |ofile| && ofile[d] == Some(f)
    ensures FdRefs(ofile, f, n) >= 1
  {
    if d < n - 1 { FdRefsAtLeast(ofile, d, f, n - 1); }
  }

  function Count(h: seq<nat>, x: nat): nat { if x < |h| then h[x] else 0 }

  /** The references of one process to entry e, and to file f. */
  function Holds(q: Proc, e: nat): nat { Count(q.hand, e) + if q.cwd == Some(e) then 1 else 0 }

  function Names(q: Proc, f: nat): nat { Count(q.fileHand, f) + FdRefs(q.ofile, f, |q.ofile|) }

  /** ... and of the first n processes together. */
  function Held(procs: seq<Proc>, e: nat, n: nat): nat
    requires n <= |procs|
  {
    if n == 0 then 0 else Held(procs, e, n - 1) + Holds(procs[n - 1], e)
  }

  function Named(procs: seq<Proc>, f: nat, n: nat): nat
    requires n <= |procs|
  {
    if n == 0 then 0 else Named(procs, f, n - 1) + Names(procs[n - 1], f)
  }

  lemma {:induction false} HeldUpdate(procs: seq<Proc>, p: nat, q: Proc, e: nat, n: nat)
    requires p < |procs| && n <= |procs|
    ensures Held(procs[p := q], e, n) == Held(procs, e, n) + if p < n then Holds(q, e) - Holds(procs[p], e) else 0
  {
    if n > 0 { HeldUpdate(procs, p, q, e, n - 1); }
  }

  lemma {:induction false} NamedUpdate(procs: seq<Proc>, p: nat, q: Proc, f: nat, n: nat)
    requires p < |procs| && n <= |procs|
    ensures Named(procs[p := q], f, n) == Named(procs, f, n) + if p < n then Names(q, f) - Names(procs[p], f) else 0
  {
    if n > 0 { NamedUpdate(procs, p, q, f, n - 1); }
  }

  /** Two processes' references are among all references. */
  lemma {:induction false} HeldByTwo(procs: seq<Proc>, p: nat, q: nat, e: nat, n: nat)
    requires p < n <= |procs| && q < n
    ensures Held(procs, e, n) >= Holds(procs[p], e) + if q == p then 0 else Holds(procs[q], e)
  {
    if p == n - 1 || q == n - 1 {
      if p < n - 1 { HeldByTwo(procs, p, p, e, n - 1); }
      if q < n - 1 { HeldByTwo(procs, q, q, e, n - 1); }
    } else {
      HeldByTwo(procs, p, q, e, n - 1);
    }
  }

  lemma {:induction false} NamedByTwo(procs: seq<Proc>, p: nat, q: nat, f: nat, n: nat)
    requires p < n <= |procs| && q < n
    ensures Named(procs, f, n) >= Names(procs[p], f) + if q == p then 0 else Names(procs[q], f)
  {
    if p == n - 1 || q == n - 1 {
      if p < n - 1 { NamedByTwo(procs, p, p, f, n - 1); }
      if q < n - 1 { NamedByTwo(procs, q, q, f, n - 1); }
    } else {
      NamedByTwo(procs, p, q, f, n - 1);
    }
  }

  // ---------- steps ----------

  /** Changes of an entry's count. */
  datatype RefOp =
    | Lookup(inum: nat, e: nat)         // iget of a looked-up inode chose entry e
    | Take(e: nat)                      // ialloc's iget
    | Dup(e: nat)                       // idup
    | Drop                              // iput's decrement

  /** Work under an entry's sleep-lock, and ialloc's mark. */
  datatype LockOp =
    | Lock(e: nat)                      // acquiresleep
    | Load(e: nat)                      // ilock's read of an entry not yet loaded
    | SetLinks(e: nat, n: int)          // nlink changed and iupdate
    | Unlock(e: nat)                    // iunlock
    | Judge(e: nat)                     // iput reads valid, nlink and ref
    | Free                              // iput frees the inode on disk
    | Mark(inum: nat, kind: int)        // ialloc marks a free inode on disk

  datatype FileOp =
    | FileAlloc(f: nat)
    | FileDup(f: nat)
    | FileOpen(f: nat, e: nat)          // sys_open hands its inode to the file
    | FileClose(f: nat)                 // the last close takes the inode back

  /** Changes of process records only. */
  datatype OwnOp =
    | Install(q: nat, d: nat, f: nat)   // descriptor d of q takes the file reference
    | Remove(d: nat)                    // takes descriptor d's file reference
    | Enter(q: nat, e: nat)             // q's current directory takes the reference
    | Depart                            // takes the current directory's reference
    | Begin(q: nat)                     // fork makes entry q
    | Launch(q: nat)                    // and lets it run
    | Abort(q: nat)                     // or gives it up
    | End                               // exit, with nothing held

  /** A step of process p. */
  datatype Step =
    | ByRef(p: nat, r: RefOp)
    | ByLock(p: nat, l: LockOp)
    | ByFile(p: nat, x: FileOp)
    | ByOwn(p: nat, o: OwnOp)

  predicate Runs(s: State, p: nat) { p < |s.procs| && s.procs[p].phase == Running }

  predicate HasEntry(s: State, p: nat, e: nat) {
    Runs(s, p) && e < |s.cache| && e < |s.procs[p].hand| && s.procs[p].hand[e] > 0
  }

  predicate HasFile(s: State, p: nat, f: nat) {
    Runs(s, p) && f < |s.files| && f < |s.procs[p].fileHand| && s.procs[p].fileHand[f] > 0
  }

  predicate HasLock(s: State, p: nat, e: nat) { Runs(s, p) && e < |s.cache| && s.cache[e].lock == Some(p) }

  /** p works on its own record or on that of a process it is making. */
  predicate Makes(s: State, p: nat, q: nat) { q < |s.procs| && (q == p || s.procs[q].phase == Embryo(p)) }

  predicate Empty(q: Proc) {
    && q.cwd == None && (forall d :: 0 <= d < |q.ofile| ==> q.ofile[d] == None)
    && (forall e :: 0 <= e < |q.hand| ==> q.hand[e] == 0) && (forall f :: 0 <= f < |q.fileHand| ==> q.fileHand[f] == 0)
  }

  predicate Can(s: State, st: Step) {
    match st
    case ByRef(p, r) => CanRef(s, p, r)
    case ByLock(p, l) => CanLock(s, p, l)
    case ByFile(p, x) => CanFile(s, p, x)
    case ByOwn(p, o) => CanOwn(s, p, o)
  }

  predicate CanRef(s: State, p: nat, r: RefOp) {
    match r
    case Lookup(inum, e) =>
      Runs(s, p) && inum < |s.disk| && e < |s.cache| && e < |s.procs[p].hand| && Chosen(s.cache, inum, e)
    case Take(e) =>
      && p < |s.procs| && s.procs[p].phase.Born? && e < |s.cache| && e < |s.procs[p].hand|
      && Chosen(s.cache, s.procs[p].phase.inum, e)
    case Dup(e) => Runs(s, p) && e < |s.cache| && e < |s.procs[p].hand| && Holds(s.procs[p], e) > 0
    case Drop =>
      && p < |s.procs| && s.procs[p].phase.Dropping? && s.procs[p].phase.e < |s.cache|
      && s.procs[p].phase.e < |s.procs[p].hand| && s.procs[p].hand[s.procs[p].phase.e] > 0
  }

  predicate CanLock(s: State, p: nat, l: LockOp) {
    match l
    case Lock(e) => Runs(s, p) && e < |s.cache| && Holds(s.procs[p], e) > 0 && s.cache[e].lock == None
    case Load(e) =>
      HasLock(s, p, e) && !s.cache[e].valid && s.cache[e].inum < |s.disk| && s.disk[s.cache[e].inum].kind != 0
    case SetLinks(e, _) => HasLock(s, p, e) && s.cache[e].valid && s.cache[e].inum < |s.disk|
    case Unlock(e) => HasLock(s, p, e)
    case Judge(e) => HasLock(s, p, e) && HasEntry(s, p, e)
    case Free =>
      && p < |s.procs| && s.procs[p].phase.Freeing? && s.procs[p].phase.e < |s.cache|
      && s.cache[s.procs[p].phase.e].inum < |s.disk|
    case Mark(inum, kind) => Runs(s, p) && inum < |s.disk| && s.disk[inum].kind == 0 && kind != 0
  }

  predicate CanFile(s: State, p: nat, x: FileOp) {
    match x
    case FileAlloc(f) => Runs(s, p) && f < |s.files| && f < |s.procs[p].fileHand| && s.files[f].ref == 0
    case FileDup(f) => Runs(s, p) && f < |s.files| && f < |s.procs[p].fileHand| && Names(s.procs[p], f) > 0
    case FileOpen(f, e) =>
      && HasEntry(s, p, e) && s.cache[e].lock != Some(p)
      && f < |s.files| && Names(s.procs[p], f) > 0 && s.files[f].ip == None
    case FileClose(f) => HasFile(s, p, f)
  }

  predicate CanOwn(s: State, p: nat, o: OwnOp) {
    match o
    case Install(q, d, f) => HasFile(s, p, f) && Makes(s, p, q) && d < |s.procs[q].ofile| && s.procs[q].ofile[d] == None
    case Remove(d) =>
      && Runs(s, p) && d < |s.procs[p].ofile| && s.procs[p].ofile[d].Some?
      && s.procs[p].ofile[d].value < |s.procs[p].fileHand|
    case Enter(q, e) => HasEntry(s, p, e) && s.cache[e].lock != Some(p) && Makes(s, p, q) && s.procs[q].cwd == None
    case Depart => Runs(s, p) && s.procs[p].cwd.Some? && s.procs[p].cwd.value < |s.procs[p].hand|
    case Begin(q) => Runs(s, p) && q < |s.procs| && s.procs[q].phase == Unused
    case Launch(q) => Runs(s, p) && q < |s.procs| && s.procs[q].phase == Embryo(p)
    case Abort(q) => Runs(s, p) && q < |s.procs| && s.procs[q].phase == Embryo(p) && Empty(s.procs[q])
    case End => Runs(s, p) && Empty(s.procs[p])
  }

  /** iget's choice: the entry in use for inum, or else one not in use. */
  predicate Chosen(cache: seq<Entry>, inum: nat, e: nat)
    requires e < |cache|
  {
    if cache[e].ref > 0 then cache[e].inum == inum
    else cache[e].ref == 0 && forall x :: 0 <= x < |cache| && cache[x].ref > 0 ==> cache[x].inum != inum
  }

  /** What iput reads when it goes on to free the inode on disk. */
  predicate Frees(x: Entry) { x.valid && x.nlink == 0 && x.ref == 1 }

  /** iget's update of the entry it chose. */
  function Referred(x: Entry, inum: nat): Entry {
    if x.ref > 0 then x.(ref := x.ref + 1) else x.(inum := inum, ref := 1, valid := false)
  }

  /** One more and one less reference. */
  function Plus(h: seq<nat>, x: nat): seq<nat>
    requires x < |h|
  {
    h[x := h[x] + 1]
  }

  function Minus(h: seq<nat>, x: nat): seq<nat>
    requires x < |h| && h[x] > 0
  {
    h[x := h[x] - 1]
  }

  function Do(s: State, st: Step): State
    requires Can(s, st)
  {
    match st
    case ByRef(p, r) => DoRef(s, p, r)
    case ByLock(p, l) => DoLock(s, p, l)
    case ByFile(p, x) => DoFile(s, p, x)
    case ByOwn(p, o) => s.(procs := DoOwn(s, p, o))
  }

  function DoRef(s: State, p: nat, r: RefOp): State
    requires CanRef(s, p, r)
  {
    var me := s.procs[p];
    match r
    case Lookup(inum, e) =>
      s.(procs := s.procs[p := me.(hand := Plus(me.hand, e))], cache := s.cache[e := Referred(s.cache[e], inum)])
    case Take(e) =>
      s.(procs := s.procs[p := me.(phase := Running, hand := Plus(me.hand, e))],
         cache := s.cache[e := Referred(s.cache[e], me.phase.inum)])
    case Dup(e) =>
      s.(procs := s.procs[p := me.(hand := Plus(me.hand, e))],
         cache := s.cache[e := s.cache[e].(ref := s.cache[e].ref + 1)])
    case Drop =>
      var e := me.phase.e;
      s.(procs := s.procs[p := me.(phase := Running, hand := Minus(me.hand, e))],
         cache := s.cache[e := s.cache[e].(ref := s.cache[e].ref - 1)])
  }

  function DoLock(s: State, p: nat, l: LockOp): State
    requires CanLock(s, p, l)
  {
    var me := s.procs[p];
    match l
    case Lock(e) => s.(cache := s.cache[e := s.cache[e].(lock := Some(p))])
    case Load(e) =>
      var d := s.disk[s.cache[e].inum];
      s.(cache := s.cache[e := s.cache[e].(valid := true, kind := d.kind, nlink := d.nlink)])
    case SetLinks(e, n) =>
      s.(cache := s.cache[e := s.cache[e].(nlink := n)], disk := s.disk[s.cache[e].inum := DInode(s.cache[e].kind, n)])
    case Unlock(e) => s.(cache := s.cache[e := s.cache[e].(lock := None)])
    case Judge(e) =>
      if Frees(s.cache[e]) then s.(procs := s.procs[p := me.(phase := Freeing(e))])
      else s.(procs := s.procs[p := me.(phase := Dropping(e))], cache := s.cache[e := s.cache[e].(lock := None)])
    case Free =>
      var e := me.phase.e;
      s.(procs := s.procs[p := me.(phase := Dropping(e))],
         cache := s.cache[e := s.cache[e].(valid := false, kind := 0, lock := None)],
         disk := s.disk[s.cache[e].inum := DInode(0, s.cache[e].nlink)])
    case Mark(inum, kind) =>
      s.(procs := s.procs[p := me.(phase := Born(inum))], disk := s.disk[inum := DInode(kind, 0)])
  }

  function DoFile(s: State, p: nat, x: FileOp): State
    requires CanFile(s, p, x)
  {
    var me := s.procs[p];
    match x
    case FileAlloc(f) =>
      s.(procs := s.procs[p := me.(fileHand := Plus(me.fileHand, f))], files := s.files[f := s.files[f].(ref := 1)])
    case FileDup(f) =>
      s.(procs := s.procs[p := me.(fileHand := Plus(me.fileHand, f))],
         files := s.files[f := s.files[f].(ref := s.files[f].ref + 1)])
    case FileOpen(f, e) =>
      s.(procs := s.procs[p := me.(hand := Minus(me.hand, e))], files := s.files[f := s.files[f].(ip := Some(e))])
    case FileClose(f) =>
      var y := s.files[f];
      s.(procs := s.procs[p := me.(fileHand := Minus(me.fileHand, f), hand := HandAfter(me.hand, y))],
         files := s.files[f := if y.ref > 1 then y.(ref := y.ref - 1) else File(0, None)])
  }

  /** The last close of a file takes its inode reference in hand. */
  function HandAfter(hand: seq<nat>, y: File): seq<nat> {
    if y.ref <= 1 && y.ip.Some? && y.ip.value < |hand| then Plus(hand, y.ip.value) else hand
  }

  function DoOwn(s: State, p: nat, o: OwnOp): seq<Proc>
    requires CanOwn(s, p, o)
  {
    var me := s.procs[p];
    match o
    case Install(q, d, f) =>
      var ps := s.procs[p := me.(fileHand := Minus(me.fileHand, f))];
      ps[q := ps[q].(ofile := ps[q].ofile[d := Some(f)])]
    case Remove(d) => s.procs[p := me.(ofile := me.ofile[d := None], fileHand := Plus(me.fileHand, me.ofile[d].value))]
    case Enter(q, e) =>
      var ps := s.procs[p := me.(hand := Minus(me.hand, e))];
      ps[q := ps[q].(cwd := Some(e))]
    case Depart => s.procs[p := me.(cwd := None, hand := Plus(me.hand, me.cwd.value))]
    case Begin(q) => s.procs[q := s.procs[q].(phase := Embryo(p))]
    case Launch(q) => s.procs[q := s.procs[q].(phase := Running)]
    case Abort(q) => s.procs[q := s.procs[q].(phase := Unused)]
    case End => s.procs[p := me.(phase := Unused)]
  }

  // ---------- the invariant ----------

  /** All references to entry e, and to file f. */
  function Holders(s: State, e: nat): nat { Held(s.procs, e, |s.procs|) + FileRefs(s.files, e, |s.files|) }

  function Namers(s: State, f: nat): nat { Named(s.procs, f, |s.procs|) }

  /** An entry's count is its holders; a loaded entry agrees with the disk; a locked one is held by
      the process that has the lock. */
  ghost predicate EntryOk(s: State, e: nat)
    requires e < |s.cache|
  {
    var x := s.cache[e];
    && x.ref == Holders(s, e) && (x.ref > 0 ==> x.inum < |s.disk|)
    && (x.ref > 0 && x.valid ==> x.kind == s.disk[x.inum].kind != 0 && x.nlink == s.disk[x.inum].nlink)
    && (x.lock.Some? ==> x.lock.value < |s.procs| && Holds(s.procs[x.lock.value], e) > 0)
  }

  ghost predicate FileOk(s: State, f: nat)
    requires f < |s.files|
  {
    s.files[f].ref == Namers(s, f) && (s.files[f].ip.Some? ==> s.files[f].ref > 0 && s.files[f].ip.value < |s.cache|)
  }

  ghost predicate ProcOk(s: State, p: nat)
    requires p < |s.procs|
  {
    var q := s.procs[p];
    && |q.hand| == |s.cache| && |q.fileHand| == |s.files| && |q.ofile| == NOFILE
    && (q.cwd.Some? ==> q.cwd.value < |s.cache|)
    && (forall d :: 0 <= d < |q.ofile| && q.ofile[d].Some? ==> q.ofile[d].value < |s.files|)
    && PhaseOk(s, p)
  }

  ghost predicate PhaseOk(s: State, p: nat)
    requires p < |s.procs| && |s.procs[p].hand| == |s.cache|
  {
    var q := s.procs[p];
    match q.phase
    case Freeing(e) =>
      e < |s.cache| && q.hand[e] > 0 && s.cache[e].lock == Some(p) && s.cache[e].valid && s.cache[e].nlink == 0
    case Dropping(e) => e < |s.cache| && q.hand[e] > 0 && s.cache[e].lock != Some(p)
    case Born(inum) => inum < |s.disk|
    case Unused => Empty(q)
    case _ => true
  }

  predicate Apart(s: State, a: nat, b: nat)
    requires a < |s.cache| && b < |s.cache|
  {
    a != b && s.cache[a].ref > 0 && s.cache[b].ref > 0 ==> s.cache[a].inum != s.cache[b].inum
  }

  ghost predicate Inv(s: State) {
    && (forall e: nat :: e < |s.cache| ==> EntryOk(s, e))
    && (forall f: nat :: f < |s.files| ==> FileOk(s, f))
    && (forall p: nat :: p < |s.procs| ==> ProcOk(s, p))
    && (forall a: nat, b: nat :: a < |s.cache| && b < |s.cache| ==> Apart(s, a, b))
  }

  /** A held entry is in use. */
  lemma HeldEntry(s: State, p: nat, e: nat)
    requires Inv(s) && p < |s.procs| && Holds(s.procs[p], e) > 0
    ensures e < |s.cache| && s.cache[e].ref >= 1 && s.cache[e].inum < |s.disk|
    ensures s.cache[e].valid ==> s.cache[e].kind == s.disk[s.cache[e].inum].kind != 0
    ensures s.cache[e].valid ==> s.cache[e].nlink == s.disk[s.cache[e].inum].nlink
  {
    assert ProcOk(s, p);
    assert EntryOk(s, e);
    HeldByTwo(s.procs, p, p, e, |s.procs|);
  }

  lemma GetEntries(s: State, p: nat, r: RefOp, e: nat)
    requires Inv(s) && CanRef(s, p, r) && (r.Lookup? || r.Take?) && e < |s.cache|
    ensures EntryOk(DoRef(s, p, r), e)
  {
    assert EntryOk(s, e) && ProcOk(s, p);
    HeldUpdate(s.procs, p, DoRef(s, p, r).procs[p], e, |s.procs|);
  }

  lemma CountEntries(s: State, p: nat, r: RefOp, e: nat)
    requires Inv(s) && CanRef(s, p, r) && (r.Dup? || r.Drop?) && e < |s.cache|
    ensures EntryOk(DoRef(s, p, r), e)
  {
    assert EntryOk(s, e) && ProcOk(s, p);
    HeldUpdate(s.procs, p, DoRef(s, p, r).procs[p], e, |s.procs|);
    if r.Dup? { HeldEntry(s, p, r.e); }
  }

  lemma LockEntries(s: State, p: nat, l: LockOp, e: nat)
    requires Inv(s) && CanLock(s, p, l) && (l.Lock? || l.Load? || l.Unlock? || l.Judge?) && e < |s.cache|
    ensures EntryOk(DoLock(s, p, l), e)
  {
    assert EntryOk(s, e) && ProcOk(s, p);
    HeldUpdate(s.procs, p, DoLock(s, p, l).procs[p], e, |s.procs|);
  }

  lemma DiskEntries(s: State, p: nat, l: LockOp, e: nat)
    requires Inv(s) && CanLock(s, p, l) && (l.SetLinks? || l.Free? || l.Mark?) && e < |s.cache|
    ensures EntryOk(DoLock(s, p, l), e)
  {
    assert EntryOk(s, e) && ProcOk(s, p);
    HeldUpdate(s.procs, p, DoLock(s, p, l).procs[p], e, |s.procs|);
    if !l.Mark? {
      var x := if l.Free? then s.procs[p].phase.e else l.e;
      assert EntryOk(s, x) && Apart(s, e, x);
      HeldEntry(s, p, x);
    }
  }

  lemma FileEntries(s: State, p: nat, x: FileOp, e: nat)
    requires Inv(s) && CanFile(s, p, x) && e < |s.cache|
    ensures EntryOk(DoFile(s, p, x), e)
  {
    assert EntryOk(s, e) && ProcOk(s, p) && FileOk(s, x.f);
    HeldUpdate(s.procs, p, DoFile(s, p, x).procs[p], e, |s.procs|);
    FileRefsUpdate(s.files, x.f, DoFile(s, p, x).files[x.f], e, |s.files|);
  }

  lemma {:induction false} HeldSame(a: seq<Proc>, b: seq<Proc>, e: nat, n: nat)
    requires n <= |a| == |b| && forall r {:trigger b[r]} :: 0 <= r < n ==> Holds(a[r], e) == Holds(b[r], e)
    ensures Held(a, e, n) == Held(b, e, n)
  {
    if n > 0 { HeldSame(a, b, e, n - 1); }
  }

  lemma EnterEntries(s: State, p: nat, q: nat, x: nat, e: nat)
    requires Inv(s) && CanOwn(s, p, Enter(q, x)) && e < |s.cache|
    ensures EntryOk(s.(procs := DoOwn(s, p, Enter(q, x))), e)
  {
    assert EntryOk(s, e) && ProcOk(s, p);
    var a := s.procs[p].(hand := Minus(s.procs[p].hand, x));
    HeldUpdate(s.procs, p, a, e, |s.procs|);
    HeldUpdate(s.procs[p := a], q, DoOwn(s, p, Enter(q, x))[q], e, |s.procs|);
  }

  lemma OwnEntries(s: State, p: nat, o: OwnOp, e: nat)
    requires Inv(s) && CanOwn(s, p, o) && !o.Enter? && e < |s.cache|
    ensures EntryOk(s.(procs := DoOwn(s, p, o)), e)
  {
    assert EntryOk(s, e) && ProcOk(s, p);
    HeldSame(s.procs, DoOwn(s, p, o), e, |s.procs|);
  }

  lemma StepEntries(s: State, st: Step, e: nat)
    requires Inv(s) && Can(s, st) && e < |s.cache|
    ensures EntryOk(Do(s, st), e)
  {
    match st
    case ByRef(p, r) => if r.Lookup? || r.Take? { GetEntries(s, p, r, e); } else { CountEntries(s, p, r, e); }
    case ByLock(p, l) =>
      if l.SetLinks? || l.Free? || l.Mark? { DiskEntries(s, p, l, e); } else { LockEntries(s, p, l, e); }
    case ByFile(p, x) => FileEntries(s, p, x, e);
    case ByOwn(p, o) => if o.Enter? { EnterEntries(s, p, o.q, o.e, e); } else { OwnEntries(s, p, o, e); }
  }

  // ---------- files, processes, distinct entries ----------

  lemma {:induction false} NamedSame(a: seq<Proc>, b: seq<Proc>, f: nat, n: nat)
    requires n <= |a| == |b| && forall r :: 0 <= r < n ==> a[r].ofile == b[r].ofile && a[r].fileHand == b[r].fileHand
    ensures Named(a, f, n) == Named(b, f, n)
  {
    if n > 0 { NamedSame(a, b, f, n - 1); }
  }

  lemma CountFiles(s: State, p: nat, x: FileOp, f: nat)
    requires Inv(s) && CanFile(s, p, x) && f < |s.files|
    ensures FileOk(DoFile(s, p, x), f)
  {
    assert FileOk(s, f) && ProcOk(s, p);
    NamedUpdate(s.procs, p, DoFile(s, p, x).procs[p], f, |s.procs|);
    if !x.FileAlloc? { NamedByTwo(s.procs, p, p, x.f, |s.procs|); }
    if x.FileOpen? { assert ProcOk(s, p); }
  }

  lemma InstallFiles(s: State, p: nat, q: nat, d: nat, g: nat, f: nat)
    requires Inv(s) && CanOwn(s, p, Install(q, d, g)) && f < |s.files|
    ensures FileOk(s.(procs := DoOwn(s, p, Install(q, d, g))), f)
  {
    assert FileOk(s, f) && ProcOk(s, p) && ProcOk(s, q);
    var a := s.procs[p].(fileHand := Minus(s.procs[p].fileHand, g));
    NamedUpdate(s.procs, p, a, f, |s.procs|);
    NamedUpdate(s.procs[p := a], q, DoOwn(s, p, Install(q, d, g))[q], f, |s.procs|);
    FdRefsUpdate(s.procs[q].ofile, d, Some(g), f, NOFILE);
  }

  lemma RemoveFiles(s: State, p: nat, d: nat, f: nat)
    requires Inv(s) && CanOwn(s, p, Remove(d)) && f < |s.files|
    ensures FileOk(s.(procs := DoOwn(s, p, Remove(d))), f)
  {
    assert FileOk(s, f) && ProcOk(s, p);
    NamedUpdate(s.procs, p, DoOwn(s, p, Remove(d))[p], f, |s.procs|);
    FdRefsUpdate(s.procs[p].ofile, d, None, f, NOFILE);
  }

  lemma OwnFiles(s: State, p: nat, o: OwnOp, f: nat)
    requires Inv(s) && CanOwn(s, p, o) && f < |s.files|
    ensures FileOk(s.(procs := DoOwn(s, p, o)), f)
  {
    if o.Install? {
      InstallFiles(s, p, o.q, o.d, o.f, f);
    } else if o.Remove? {
      RemoveFiles(s, p, o.d, f);
    } else {
      assert FileOk(s, f);
      NamedSame(s.procs, DoOwn(s, p, o), f, |s.procs|);
    }
  }

  lemma StepFiles(s: State, st: Step, f: nat)
    requires Inv(s) && Can(s, st) && f < |s.files|
    ensures f < |Do(s, st).files| && FileOk(Do(s, st), f)
  {
    assert FileOk(s, f);
    match st
    case ByRef(p, r) => NamedSame(s.procs, DoRef(s, p, r).procs, f, |s.procs|);
    case ByLock(p, l) => NamedSame(s.procs, DoLock(s, p, l).procs, f, |s.procs|);
    case ByFile(p, x) => CountFiles(s, p, x, f);
    case ByOwn(p, o) => OwnFiles(s, p, o, f);
  }

  lemma RefApart(s: State, p: nat, r: RefOp, a: nat, b: nat)
    requires Inv(s) && CanRef(s, p, r) && a < |s.cache| && b < |s.cache|
    ensures Apart(DoRef(s, p, r), a, b)
  {
    assert Apart(s, a, b) && EntryOk(s, a) && EntryOk(s, b);
    if r.Dup? { HeldEntry(s, p, r.e); }
  }

  lemma StepApart(s: State, st: Step, a: nat, b: nat)
    requires Inv(s) && Can(s, st) && a < |s.cache| && b < |s.cache|
    ensures a < |Do(s, st).cache| && b < |Do(s, st).cache| && Apart(Do(s, st), a, b)
  {
    assert Apart(s, a, b);
    match st
    case ByRef(p, r) => RefApart(s, p, r, a, b);
    case ByLock(p, l) =>
      var t := DoLock(s, p, l);
      assert forall e :: 0 <= e < |s.cache| ==> t.cache[e].ref == s.cache[e].ref && t.cache[e].inum == s.cache[e].inum;
    case ByFile(p, x) => assert DoFile(s, p, x).cache == s.cache;
    case ByOwn(p, o) =>
  }

  lemma RefProcs(s: State, p: nat, r: RefOp, i: nat)
    requires Inv(s) && CanRef(s, p, r) && i < |s.procs|
    ensures ProcOk(DoRef(s, p, r), i)
  {
    assert ProcOk(s, i) && ProcOk(s, p);
    if s.procs[i].phase.Freeing? { HeldEntry(s, i, s.procs[i].phase.e); }
  }

  lemma LockProcs(s: State, p: nat, l: LockOp, i: nat)
    requires Inv(s) && CanLock(s, p, l) && i < |s.procs|
    ensures ProcOk(DoLock(s, p, l), i)
  {
    assert ProcOk(s, i) && ProcOk(s, p);
  }

  lemma FileProcs(s: State, p: nat, x: FileOp, i: nat)
    requires Inv(s) && CanFile(s, p, x) && i < |s.procs|
    ensures ProcOk(DoFile(s, p, x), i)
  {
    assert ProcOk(s, i) && ProcOk(s, p);
  }

  lemma OwnProcs(s: State, p: nat, o: OwnOp, i: nat)
    requires Inv(s) && CanOwn(s, p, o) && i < |s.procs|
    ensures ProcOk(s.(procs := DoOwn(s, p, o)), i)
  {
    assert ProcOk(s, i) && ProcOk(s, p);
  }

  lemma StepProcs(s: State, st: Step, i: nat)
    requires Inv(s) && Can(s, st) && i < |s.procs|
    ensures i < |Do(s, st).procs| && ProcOk(Do(s, st), i)
  {
    match st
    case ByRef(p, r) => RefProcs(s, p, r, i);
    case ByLock(p, l) => LockProcs(s, p, l, i);
    case ByFile(p, x) => FileProcs(s, p, x, i);
    case ByOwn(p, o) => OwnProcs(s, p, o, i);
  }

  lemma StepSizes(s: State, st: Step)
    requires Can(s, st)
    ensures var t := Do(s, st);
      |t.cache| == |s.cache| && |t.disk| == |s.disk| && |t.files| == |s.files| && |t.procs| == |s.procs|
  {
  }

  lemma StepKeepsInv(s: State, st: Step)
    requires Inv(s) && Can(s, st)
    ensures Inv(Do(s, st))
  {
    var t := Do(s, st);
    StepSizes(s, st);
    forall e: nat | e < |t.cache| ensures EntryOk(t, e) { StepEntries(s, st, e); }
    forall f: nat | f < |t.files| ensures FileOk(t, f) { StepFiles(s, st, f); }
    forall p: nat | p < |t.procs| ensures ProcOk(t, p) { StepProcs(s, st, p); }
    forall a: nat, b: nat | a < |t.cache| && b < |t.cache| ensures Apart(t, a, b) { StepApart(s, st, a, b); }
  }

  // ---------- runs ----------

  /** A process record that holds nothing. */
  ghost predicate Blank(s: State, q: Proc) {
    |q.hand| == |s.cache| && |q.fileHand| == |s.files| && |q.ofile| == NOFILE && Empty(q)
  }

  /** Empty caches, a first process, and a disk whose free inodes are cleared. */
  ghost predicate Initial(s: State) {
    && (forall e :: 0 <= e < |s.cache| ==> s.cache[e].ref == 0 && s.cache[e].lock == None)
    && (forall f :: 0 <= f < |s.files| ==> s.files[f] == File(0, None))
    && (forall i :: 0 <= i < |s.disk| ==> s.disk[i].kind == 0 ==> s.disk[i].nlink == 0)
    && (forall p :: 0 <= p < |s.procs| ==>
        s.procs[p].phase == (if p == 0 then Running else Unused) && Blank(s, s.procs[p]))
  }

  ghost predicate Goes(s: State, st: Step, t: State) { Can(s, st) && t == Do(s, st) }

  ghost predicate Behaviour(ss: seq<State>, sts: seq<Step>) {
    && |ss| == |sts| + 1 && Initial(ss[0])
    && forall t :: 0 <= t < |sts| ==> Goes(ss[t], sts[t], ss[t + 1])
  }

  lemma {:induction false} NoFileRefs(files: seq<File>, e: nat, n: nat)
    requires n <= |files| && forall f :: 0 <= f < n ==> files[f].ip == None
    ensures FileRefs(files, e, n) == 0
  {
    if n > 0 { NoFileRefs(files, e, n - 1); }
  }

  lemma {:induction false} NoFdRefs(ofile: seq<Option<nat>>, f: nat, n: nat)
    requires n <= |ofile| && forall d :: 0 <= d < n ==> ofile[d] == None
    ensures FdRefs(ofile, f, n) == 0
  {
    if n > 0 { NoFdRefs(ofile, f, n - 1); }
  }

  lemma {:induction false} NoneHeld(procs: seq<Proc>, x: nat, n: nat)
    requires n <= |procs| && forall p :: 0 <= p < n ==> Empty(procs[p])
    ensures Held(procs, x, n) == 0 && Named(procs, x, n) == 0
  {
    if n > 0 {
      NoneHeld(procs, x, n - 1);
      NoFdRefs(procs[n - 1].ofile, x, |procs[n - 1].ofile|);
    }
  }

  lemma InitialInv(s: State)
    requires Initial(s)
    ensures Inv(s)
  {
    forall e: nat | e < |s.cache| ensures EntryOk(s, e) {
      NoneHeld(s.procs, e, |s.procs|);
      NoFileRefs(s.files, e, |s.files|);
    }
    forall f: nat | f < |s.files| ensures FileOk(s, f) { NoneHeld(s.procs, f, |s.procs|); }
  }

  lemma {:induction false} BehaviourInv(ss: seq<State>, sts: seq<Step>, t: nat)
    requires Behaviour(ss, sts) && t < |ss|
    ensures Inv(ss[t])
  {
    if t == 0 {
      InitialInv(ss[0]);
    } else {
      BehaviourInv(ss, sts, t - 1);
      assert Goes(ss[t - 1], sts[t - 1], ss[t]);
      StepKeepsInv(ss[t - 1], sts[t - 1]);
    }
  }

  /** In a call or not, all references are in current directories and descriptors. */
  predicate HandsEmpty(q: Proc) {
    (forall e :: 0 <= e < |q.hand| ==> q.hand[e] == 0) && (forall f :: 0 <= f < |q.fileHand| ==> q.fileHand[f] == 0)
  }

  /** The first n processes whose current directory is e. */
  ghost function CwdHolders(procs: seq<Proc>, e: nat, n: nat): set<nat>
    requires n <= |procs|
  {
    set p: nat | p < n && procs[p].cwd == Some(e)
  }

  /** Descriptors of the first n processes that hold file f. */
  function Descriptors(procs: seq<Proc>, f: nat, n: nat): nat
    requires n <= |procs|
  {
    if n == 0 then 0 else Descriptors(procs, f, n - 1) + FdRefs(procs[n - 1].ofile, f, |procs[n - 1].ofile|)
  }

  lemma OneMoreCwd(procs: seq<Proc>, e: nat, n: nat)
    requires 0 < n <= |procs|
    ensures |CwdHolders(procs, e, n)| == |CwdHolders(procs, e, n - 1)| + if procs[n - 1].cwd == Some(e) then 1 else 0
  {
    var less := CwdHolders(procs, e, n - 1);
    assert CwdHolders(procs, e, n) == if procs[n - 1].cwd == Some(e) then less + {n - 1} else less;
  }

  lemma {:induction false} CountCwds(procs: seq<Proc>, e: nat, n: nat)
    requires n <= |procs| && forall p :: 0 <= p < n ==> HandsEmpty(procs[p])
    ensures Held(procs, e, n) == |CwdHolders(procs, e, n)|
  {
    if n == 0 {
      assert CwdHolders(procs, e, 0) == {};
    } else {
      CountCwds(procs, e, n - 1);
      assert HandsEmpty(procs[n - 1]);
      OneMoreCwd(procs, e, n);
    }
  }

  lemma {:induction false} CountFds(procs: seq<Proc>, f: nat, n: nat)
    requires n <= |procs| && forall p :: 0 <= p < n ==> HandsEmpty(procs[p])
    ensures Named(procs, f, n) == Descriptors(procs, f, n)
  {
    if n > 0 {
      CountFds(procs, f, n - 1);
      assert HandsEmpty(procs[n - 1]);
    }
  }

  /** In every interleaving of any number of processes: one entry in use per inode; an entry's count
      is its holders and a file's count its names, over all processes; and when every process is
      between system calls, these are the open files and current directories, and the descriptors. */
  lemma ReferencesSafe(ss: seq<State>, sts: seq<Step>, t: nat)
    requires Behaviour(ss, sts) && t < |ss|
    ensures var s := ss[t]; forall a, b :: 0 <= a < b < |s.cache| && s.cache[a].ref > 0 && s.cache[b].ref > 0 ==>
      s.cache[a].inum != s.cache[b].inum
    ensures var s := ss[t]; forall e :: 0 <= e < |s.cache| ==> s.cache[e].ref == Holders(s, e)
    ensures var s := ss[t]; forall f :: 0 <= f < |s.files| ==> s.files[f].ref == Namers(s, f)
  {
    BehaviourInv(ss, sts, t);
    var s := ss[t];
    forall a, b | 0 <= a < b < |s.cache| && s.cache[a].ref > 0 && s.cache[b].ref > 0
      ensures s.cache[a].inum != s.cache[b].inum
    {
      assert Apart(s, a, b);
    }
    forall e | 0 <= e < |s.cache| ensures s.cache[e].ref == Holders(s, e) { assert EntryOk(s, e); }
    forall f | 0 <= f < |s.files| ensures s.files[f].ref == Namers(s, f) { assert FileOk(s, f); }
  }

  lemma BetweenCalls(ss: seq<State>, sts: seq<Step>, t: nat)
    requires Behaviour(ss, sts) && t < |ss| && forall p :: 0 <= p < |ss[t].procs| ==> HandsEmpty(ss[t].procs[p])
    ensures var s := ss[t];
      forall e :: 0 <= e < |s.cache| ==>
        s.cache[e].ref == FileRefs(s.files, e, |s.files|) + |CwdHolders(s.procs, e, |s.procs|)|
    ensures var s := ss[t]; forall f :: 0 <= f < |s.files| ==> s.files[f].ref == Descriptors(s.procs, f, |s.procs|)
  {
    ReferencesSafe(ss, sts, t);
    var s := ss[t];
    forall e | 0 <= e < |s.cache|
      ensures s.cache[e].ref == FileRefs(s.files, e, |s.files|) + |CwdHolders(s.procs, e, |s.procs|)|
    {
      CountCwds(s.procs, e, |s.procs|);
    }
    forall f | 0 <= f < |s.files| ensures s.files[f].ref == Descriptors(s.procs, f, |s.procs|) {
      CountFds(s.procs, f, |s.procs|);
    }
  }
}
