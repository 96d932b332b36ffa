/** When iput frees an inode on disk (fs.c): the window between its look at the reference count and
    the free, and what lookups must find for it to be harmless. */
module Freeing {
  import opened Refs

  // ---------- freeing an inode ----------

  /** Process p's reference to entry e is the only one, the inode has no link on disk, and no other
      entry is in use for it. */
  ghost predicate LastHolder(s: State, p: nat, e: nat) {
    && p < |s.procs| && e < |s.cache| && s.cache[e].inum < |s.disk| && s.disk[s.cache[e].inum].nlink == 0
    && Holds(s.procs[p], e) == 1 && (forall q: nat :: q < |s.procs| && q != p ==> Holds(s.procs[q], e) == 0)
    && (forall f: nat :: f < |s.files| ==> s.files[f].ip != Some(e))
    && (forall x: nat :: x < |s.cache| && x != e && s.cache[x].ref > 0 ==> s.cache[x].inum != s.cache[e].inum)
  }

  lemma LastHolderIff(s: State, p: nat, e: nat)
    requires Inv(s) && p < |s.procs| && s.procs[p].phase == Freeing(e)
    ensures e < |s.cache| && (LastHolder(s, p, e) <==> s.cache[e].ref == 1)
  {
    assert ProcOk(s, p);
    HeldEntry(s, p, e);
    assert EntryOk(s, e);
    HeldByTwo(s.procs, p, p, e, |s.procs|);
    if s.cache[e].ref == 1 {
      forall q: nat | q < |s.procs| && q != p
        ensures Holds(s.procs[q], e) == 0
      {
        HeldByTwo(s.procs, p, q, e, |s.procs|);
      }
      forall f: nat | f < |s.files| ensures s.files[f].ip != Some(e) {
        if s.files[f].ip == Some(e) { FileRefsAtLeast(s.files, f, e, |s.files|); }
      }
      forall x: nat | x < |s.cache| && x != e && s.cache[x].ref > 0 ensures s.cache[x].inum != s.cache[e].inum {
        assert Apart(s, x, e);
      }
    }
    if LastHolder(s, p, e) {
      OnlyHolder(s.procs, p, e, |s.procs|);
      NoSuchFile(s.files, e, |s.files|);
    }
  }

  lemma {:induction false} OnlyHolder(procs: seq<Proc>, p: nat, e: nat, n: nat)
    requires n <= |procs| && p < |procs| && forall q: nat :: q < n && q != p ==> Holds(procs[q], e) == 0
    ensures Held(procs, e, n) == if p < n then Holds(procs[p], e) else 0
  {
    if n > 0 { OnlyHolder(procs, p, e, n - 1); }
  }

  lemma {:induction false} NoSuchFile(files: seq<File>, e: nat, n: nat)
    requires n <= |files| && forall f: nat :: f < n ==> files[f].ip != Some(e)
    ensures FileRefs(files, e, n) == 0
  {
    if n > 0 { NoSuchFile(files, e, n - 1); }
  }

  /** The step is an iget of inode inum. */
  predicate Reaches(s: State, st: Step, inum: nat) {
    && st.ByRef?
    && match st.r
      case Lookup(i, _) => i == inum
      case Take(_) => st.p < |s.procs| && s.procs[st.p].phase == Born(inum)
      case _ => false
  }

  /** p is between iput's look at ref and its free, and nobody else is about to drop the entry. */
  ghost predicate InWindow(s: State, p: nat, e: nat) {
    && p < |s.procs| && e < |s.cache| && s.procs[p].phase == Freeing(e)
    && forall q: nat :: q < |s.procs| ==> s.procs[q].phase != Dropping(e)
  }

  lemma WindowOpens(s: State, p: nat, e: nat)
    requires Inv(s) && CanLock(s, p, Judge(e)) && Frees(s.cache[e])
    ensures InWindow(DoLock(s, p, Judge(e)), p, e)
  {
    forall q: nat | q < |s.procs| && q != p ensures s.procs[q].phase != Dropping(e) {
      assert ProcOk(s, q) && EntryOk(s, e);
      HeldByTwo(s.procs, p, q, e, |s.procs|);
    }
  }

  lemma WindowPhases(s: State, st: Step, p: nat, e: nat)
    requires Inv(s) && Can(s, st) && InWindow(s, p, e) && st.p != p
    ensures InWindow(Do(s, st), p, e)
  {
    assert ProcOk(s, p);
    StepSizes(s, st);
    var t := Do(s, st);
    forall q: nat | q < |t.procs| ensures t.procs[q].phase != Dropping(e) {
      assert s.procs[q].phase != Dropping(e) && ProcOk(s, q);
    }
  }

  /** While p is there only an iget of the inode changes the count. */
  lemma WindowCount(s: State, st: Step, p: nat, e: nat)
    requires Inv(s) && Can(s, st) && InWindow(s, p, e) && st.p != p
    ensures e < |Do(s, st).cache| && Do(s, st).cache[e].inum == s.cache[e].inum
    ensures Do(s, st).cache[e].ref >= s.cache[e].ref >= 1
    ensures Reaches(s, st, s.cache[e].inum) ==> Do(s, st).cache[e].ref >= 2
    ensures !Reaches(s, st, s.cache[e].inum) && s.cache[e].ref == 1 ==> Do(s, st).cache[e].ref == 1
  {
    assert ProcOk(s, p) && EntryOk(s, e);
    HeldEntry(s, p, e);
    StepSizes(s, st);
    if st.ByRef? {
      assert st.r.Drop? ==> s.procs[st.p].phase != Dropping(e);
      HeldByTwo(s.procs, p, st.p, e, |s.procs|);
      if st.r.Lookup? || st.r.Take? { assert Apart(s, st.r.e, e); }
    }
  }

  /** p's iput looks at ref at step t0, decides to free, and frees at step t. */
  ghost predicate FreesBetween(ss: seq<State>, sts: seq<Step>, t0: nat, t: nat, p: nat, e: nat) {
    && Behaviour(ss, sts) && t0 < t < |sts| && (forall i :: t0 < i < t ==> sts[i].p != p)
    && sts[t0] == ByLock(p, Judge(e)) && sts[t] == ByLock(p, Free) && e < |ss[t0].cache| && Frees(ss[t0].cache[e])
  }

  /** No iget of the inode strictly between steps a and b. */
  ghost predicate Unreached(ss: seq<State>, sts: seq<Step>, a: nat, b: nat, inum: nat)
    requires b <= |sts| <= |ss|
  {
    forall j :: a < j < b ==> !Reaches(ss[j], sts[j], inum)
  }

  lemma WindowStep(s: State, st: Step, t: State, p: nat, e: nat)
    requires Inv(s) && Can(s, st) && t == Do(s, st) && InWindow(s, p, e) && st.p != p
    ensures InWindow(t, p, e) && t.cache[e].inum == s.cache[e].inum && t.cache[e].ref >= 1
    ensures t.cache[e].ref == 1 <==> s.cache[e].ref == 1 && !Reaches(s, st, s.cache[e].inum)
  {
    WindowPhases(s, st, p, e);
    WindowCount(s, st, p, e);
  }

  lemma WindowFirst(s: State, t: State, p: nat, e: nat)
    requires Inv(s) && CanLock(s, p, Judge(e)) && Frees(s.cache[e]) && t == DoLock(s, p, Judge(e))
    ensures InWindow(t, p, e) && t.cache[e] == s.cache[e]
  {
    WindowOpens(s, p, e);
  }

  /** One state of a run and the next. */
  lemma RunStep(ss: seq<State>, sts: seq<Step>, i: nat) returns (s: State, st: Step, t: State)
    requires Behaviour(ss, sts) && i < |sts|
    ensures s == ss[i] && st == sts[i] && t == ss[i + 1] && Inv(s) && Can(s, st) && t == Do(s, st)
  {
    BehaviourInv(ss, sts, i);
    s, st, t := ss[i], sts[i], ss[i + 1];
    assert Goes(s, st, t);
  }

  ghost predicate WindowAt(ss: seq<State>, sts: seq<Step>, t0: nat, i: nat, p: nat, e: nat, inum: nat)
    requires t0 < i <= |sts| < |ss|
  {
    && InWindow(ss[i], p, e) && ss[i].cache[e].inum == inum
    && (ss[i].cache[e].ref == 1 <==> Unreached(ss, sts, t0, i, inum))
  }

  lemma WindowBase(ss: seq<State>, sts: seq<Step>, t0: nat, t: nat, p: nat, e: nat)
    requires FreesBetween(ss, sts, t0, t, p, e)
    ensures WindowAt(ss, sts, t0, t0 + 1, p, e, ss[t0].cache[e].inum)
  {
    var s, st, s' := RunStep(ss, sts, t0);
    WindowFirst(s, s', p, e);
  }

  lemma WindowMore(ss: seq<State>, sts: seq<Step>, t0: nat, i: nat, p: nat, e: nat, inum: nat)
    requires Behaviour(ss, sts) && t0 < i < |sts| && sts[i].p != p && WindowAt(ss, sts, t0, i, p, e, inum)
    ensures WindowAt(ss, sts, t0, i + 1, p, e, inum)
  {
    var s, st, s' := RunStep(ss, sts, i);
    WindowStep(s, st, s', p, e);
    assert Unreached(ss, sts, t0, i + 1, inum) <==> Unreached(ss, sts, t0, i, inum) && !Reaches(s, st, inum);
  }

  lemma {:induction false} WindowRun(ss: seq<State>, sts: seq<Step>, t0: nat, t: nat, i: nat, p: nat, e: nat)
    requires FreesBetween(ss, sts, t0, t, p, e) && t0 < i <= t
    ensures WindowAt(ss, sts, t0, i, p, e, ss[t0].cache[e].inum)
  {
    if i == t0 + 1 {
      WindowBase(ss, sts, t0, t, p, e);
    } else {
      WindowRun(ss, sts, t0, t, i - 1, p, e);
      WindowMore(ss, sts, t0, i - 1, p, e, ss[t0].cache[e].inum);
    }
  }

  /** iput frees the inode as its last holder exactly when nobody's iget reached the inode between
      its look at ref and the free. */
  lemma FreeingIff(ss: seq<State>, sts: seq<Step>, t0: nat, t: nat, p: nat, e: nat)
    requires FreesBetween(ss, sts, t0, t, p, e)
    ensures LastHolder(ss[t], p, e) <==> Unreached(ss, sts, t0, t, ss[t0].cache[e].inum)
  {
    WindowRun(ss, sts, t0, t, t, p, e);
    BehaviourInv(ss, sts, t);
    LastHolderIff(ss[t], p, e);
  }

  // ---------- lookups that find linked inodes only ----------

  /** What dirlookup and namex must find: an inode with a link on disk. */
  predicate FindsLinked(s: State, st: Step) {
    st.ByRef? && st.r.Lookup? ==> st.r.inum < |s.disk| && s.disk[st.r.inum].nlink != 0
  }

  /** Free on disk, or marked by an ialloc that has not yet taken its reference. */
  ghost predicate Unborn(s: State, i: nat)
    requires i < |s.disk|
  {
    s.disk[i].kind == 0 || exists q: nat :: q < |s.procs| && s.procs[q].phase == Born(i)
  }

  /** An entry left over from an inode that was freed: its one holder is about to drop it. */
  ghost predicate StaleOk(s: State, e: nat)
    requires e < |s.cache|
  {
    s.cache[e].ref > 0 && s.cache[e].inum < |s.disk| && Unborn(s, s.cache[e].inum) ==>
      && !s.cache[e].valid && s.cache[e].ref == 1
      && exists p: nat :: p < |s.procs| && s.procs[p].phase == Dropping(e)
  }

  /** A process that frees is the only holder; one that allocates is the only one for its inode. */
  ghost predicate AloneOk(s: State, p: nat)
    requires p < |s.procs|
  {
    match s.procs[p].phase
    case Freeing(e) => e < |s.cache| && s.cache[e].ref == 1
    case Born(i) =>
      && i < |s.disk| && s.disk[i].kind != 0 && s.disk[i].nlink == 0
      && forall q: nat :: q < |s.procs| && q != p ==> s.procs[q].phase != Born(i)
    case _ => true
  }

  ghost predicate Tidy(s: State) {
    && (forall i :: 0 <= i < |s.disk| && s.disk[i].kind == 0 ==> s.disk[i].nlink == 0)
    && (forall e: nat :: e < |s.cache| ==> StaleOk(s, e))
    && (forall p: nat :: p < |s.procs| ==> AloneOk(s, p))
  }

  /** A running process does not hold a leftover entry. */
  lemma NotStale(s: State, p: nat, e: nat)
    requires Inv(s) && Tidy(s) && Runs(s, p) && Holds(s.procs[p], e) > 0
    ensures e < |s.cache| && s.cache[e].inum < |s.disk| && s.cache[e].ref > 0 && !Unborn(s, s.cache[e].inum)
  {
    HeldEntry(s, p, e);
    assert StaleOk(s, e);
    if Unborn(s, s.cache[e].inum) {
      var r: nat :| r < |s.procs| && s.procs[r].phase == Dropping(e);
      assert ProcOk(s, r) && EntryOk(s, e);
      HeldByTwo(s.procs, p, r, e, |s.procs|);
    }
  }

  // ---------- every step keeps this ----------

  /** From s to t no inode has become free or newly marked, and nobody has dropped entry e. */
  ghost predicate Calm(s: State, t: State, e: nat) {
    && |t.disk| == |s.disk| && |t.procs| == |s.procs|
    && (forall i :: 0 <= i < |s.disk| && t.disk[i].kind == 0 ==> s.disk[i].kind == 0)
    && (forall q :: 0 <= q < |s.procs| && t.procs[q].phase.Born? ==> s.procs[q].phase == t.procs[q].phase)
    && (forall q :: 0 <= q < |s.procs| && s.procs[q].phase == Dropping(e) ==> t.procs[q].phase == Dropping(e))
  }

  lemma UnbornBack(s: State, t: State, e: nat, i: nat)
    requires Calm(s, t, e) && i < |s.disk|
    ensures Unborn(t, i) ==> Unborn(s, i)
  {
    if Unborn(t, i) && t.disk[i].kind != 0 {
      var q: nat :| q < |t.procs| && t.procs[q].phase == Born(i);
      assert s.procs[q].phase == Born(i);
    }
  }

  lemma StaleKept(s: State, t: State, e: nat)
    requires Calm(s, t, e) && e < |s.cache| && e < |t.cache| && StaleOk(s, e)
    requires t.cache[e].inum == s.cache[e].inum && t.cache[e].ref == s.cache[e].ref &&
      t.cache[e].valid == s.cache[e].valid
    ensures StaleOk(t, e)
  {
    if t.cache[e].ref > 0 && t.cache[e].inum < |t.disk| && Unborn(t, t.cache[e].inum) {
      UnbornBack(s, t, e, t.cache[e].inum);
      var p: nat :| p < |s.procs| && s.procs[p].phase == Dropping(e);
      assert t.procs[p].phase == Dropping(e);
    }
  }

  lemma BornUnborn(s: State, q: nat, i: nat)
    requires q < |s.procs| && i < |s.disk|
    ensures s.procs[q].phase == Born(i) ==> Unborn(s, i)
  {
  }

  /** A linked inode is neither free nor being allocated. */
  lemma LinkedBorn(s: State, i: nat)
    requires Tidy(s) && i < |s.disk| && s.disk[i].nlink != 0
    ensures !Unborn(s, i)
  {
    forall q: nat | q < |s.procs| ensures s.procs[q].phase != Born(i) { assert AloneOk(s, q); }
  }

  /** ialloc's reference ends the allocation of its inode. */
  lemma TakenBorn(s: State, p: nat, e: nat)
    requires Tidy(s) && CanRef(s, p, Take(e)) && s.procs[p].phase.inum < |s.disk|
    ensures !Unborn(DoRef(s, p, Take(e)), s.procs[p].phase.inum)
  {
    assert AloneOk(s, p);
  }

  lemma RefStale(s: State, p: nat, r: RefOp, e: nat)
    requires Inv(s) && Tidy(s) && CanRef(s, p, r) && FindsLinked(s, ByRef(p, r)) && e < |s.cache|
    ensures StaleOk(DoRef(s, p, r), e)
  {
    var t := DoRef(s, p, r);
    assert StaleOk(s, e) && ProcOk(s, p);
    if e != if r.Drop? then s.procs[p].phase.e else r.e {
      StaleKept(s, t, e);
    } else if t.cache[e].ref > 0 && t.cache[e].inum < |t.disk| && Unborn(t, t.cache[e].inum) {
      match r
      case Lookup(inum, _) => UnbornBack(s, t, e, inum); LinkedBorn(s, inum);
      case Take(_) => TakenBorn(s, p, e);
      case Dup(_) => UnbornBack(s, t, e, t.cache[e].inum); NotStale(s, p, e);
      case Drop => assert s.disk == t.disk; DropUnborn(s, p, e);
    }
  }

  lemma DropUnborn(s: State, p: nat, e: nat)
    requires CanRef(s, p, Drop) && s.procs[p].phase == Dropping(e) && s.cache[e].inum < |s.disk|
    requires Unborn(DoRef(s, p, Drop), s.cache[e].inum)
    ensures Unborn(s, s.cache[e].inum)
  {
    var t := DoRef(s, p, Drop);
    if t.disk[s.cache[e].inum].kind != 0 {
      var q: nat :| q < |t.procs| && t.procs[q].phase == Born(s.cache[e].inum);
      assert s.procs[q].phase == Born(s.cache[e].inum);
    }
  }

  lemma LockStale(s: State, p: nat, l: LockOp, e: nat)
    requires Inv(s) && Tidy(s) && CanLock(s, p, l) && !l.Free? && !l.Mark? && e < |s.cache|
    ensures StaleOk(DoLock(s, p, l), e)
  {
    var t := DoLock(s, p, l);
    assert StaleOk(s, e) && EntryOk(s, l.e) && ProcOk(s, p);
    if l.SetLinks? { HeldEntry(s, p, l.e); }
    if l.Load? && e == l.e {
      NotStale(s, p, e);
      UnbornBack(s, t, e, s.cache[e].inum);
    } else {
      StaleKept(s, t, e);
    }
  }

  lemma FreeStale(s: State, p: nat, e: nat)
    requires Inv(s) && Tidy(s) && CanLock(s, p, Free) && e < |s.cache|
    ensures StaleOk(DoLock(s, p, Free), e)
  {
    var t, x := DoLock(s, p, Free), s.procs[p].phase.e;
    assert StaleOk(s, e) && AloneOk(s, p) && ProcOk(s, p) && Apart(s, e, x);
    if e == x {
      assert t.procs[p].phase == Dropping(e);
    } else if t.cache[e].ref > 0 && t.cache[e].inum < |t.disk| && Unborn(t, t.cache[e].inum) {
      FreeUnborn(s, p, t.cache[e].inum);
      var q: nat :| q < |s.procs| && s.procs[q].phase == Dropping(e);
      assert t.procs[q].phase == Dropping(e);
    }
  }

  lemma FreeUnborn(s: State, p: nat, i: nat)
    requires CanLock(s, p, Free) && i < |s.disk| && i != s.cache[s.procs[p].phase.e].inum &&
      Unborn(DoLock(s, p, Free), i)
    ensures Unborn(s, i)
  {
    var t := DoLock(s, p, Free);
    if t.disk[i].kind != 0 {
      var q: nat :| q < |t.procs| && t.procs[q].phase == Born(i);
      assert s.procs[q].phase == Born(i);
    }
  }

  lemma MarkStale(s: State, p: nat, inum: nat, kind: int, e: nat)
    requires Inv(s) && Tidy(s) && CanLock(s, p, Mark(inum, kind)) && e < |s.cache|
    ensures StaleOk(DoLock(s, p, Mark(inum, kind)), e)
  {
    var t := DoLock(s, p, Mark(inum, kind));
    assert StaleOk(s, e);
    if t.cache[e].ref > 0 && t.cache[e].inum < |t.disk| && Unborn(t, t.cache[e].inum) {
      var i := t.cache[e].inum;
      if t.disk[i].kind != 0 && i != inum {
        var q: nat :| q < |t.procs| && t.procs[q].phase == Born(i);
        assert s.procs[q].phase == Born(i);
      }
      assert Unborn(s, i);
      var q: nat :| q < |s.procs| && s.procs[q].phase == Dropping(e);
      assert t.procs[q].phase == Dropping(e);
    }
  }

  lemma FileStale(s: State, p: nat, x: FileOp, e: nat)
    requires Tidy(s) && CanFile(s, p, x) && e < |s.cache|
    ensures StaleOk(DoFile(s, p, x), e)
  {
    assert StaleOk(s, e);
    StaleKept(s, DoFile(s, p, x), e);
  }

  lemma OwnStale(s: State, p: nat, o: OwnOp, e: nat)
    requires Tidy(s) && CanOwn(s, p, o) && e < |s.cache|
    ensures StaleOk(s.(procs := DoOwn(s, p, o)), e)
  {
    assert StaleOk(s, e);
    StaleKept(s, s.(procs := DoOwn(s, p, o)), e);
  }

  lemma StepStale(s: State, st: Step, e: nat)
    requires Inv(s) && Tidy(s) && Can(s, st) && FindsLinked(s, st) && e < |s.cache|
    ensures e < |Do(s, st).cache| && StaleOk(Do(s, st), e)
  {
    match st
    case ByRef(p, r) => RefStale(s, p, r, e);
    case ByLock(p, l) =>
      if l.Free? {
        FreeStale(s, p, e);
      } else if l.Mark? {
        MarkStale(s, p, l.inum, l.kind, e);
      } else {
        LockStale(s, p, l, e);
      }
    case ByFile(p, x) => FileStale(s, p, x, e);
    case ByOwn(p, o) => OwnStale(s, p, o, e);
  }

  /** Nobody else's iget reaches an entry whose inode is being freed. */
  lemma RefFreeing(s: State, p: nat, r: RefOp, q: nat)
    requires Inv(s) && Tidy(s) && CanRef(s, p, r) && FindsLinked(s, ByRef(p, r)) && q < |s.procs| &&
      s.procs[q].phase.Freeing?
    ensures var e := s.procs[q].phase.e; e < |s.cache| && DoRef(s, p, r).cache[e].ref == 1
  {
    var e := s.procs[q].phase.e;
    assert AloneOk(s, q) && ProcOk(s, q) && ProcOk(s, p) && EntryOk(s, e) && StaleOk(s, e);
    HeldEntry(s, q, e);
    match r
    case Lookup(inum, x) => assert Apart(s, x, e);
    case Take(x) => assert Apart(s, x, e); BornUnborn(s, p, s.cache[e].inum);
    case Dup(x) => if x == e { HeldByTwo(s.procs, p, q, e, |s.procs|); }
    case Drop => if s.procs[p].phase.e == e { HeldByTwo(s.procs, p, q, e, |s.procs|); }
  }

  lemma RefAlone(s: State, p: nat, r: RefOp, q: nat)
    requires Inv(s) && Tidy(s) && CanRef(s, p, r) && FindsLinked(s, ByRef(p, r)) && q < |s.procs|
    ensures AloneOk(DoRef(s, p, r), q)
  {
    assert AloneOk(s, q);
    if s.procs[q].phase.Freeing? { RefFreeing(s, p, r, q); }
  }

  lemma LockAlone(s: State, p: nat, l: LockOp, q: nat)
    requires Inv(s) && Tidy(s) && CanLock(s, p, l) && !l.Mark? && q < |s.procs|
    ensures AloneOk(DoLock(s, p, l), q)
  {
    assert AloneOk(s, q) && AloneOk(s, p) && ProcOk(s, p);
    if s.procs[q].phase.Born? && (l.SetLinks? || l.Free?) {
      var e := if l.Free? then s.procs[p].phase.e else l.e;
      assert EntryOk(s, e) && StaleOk(s, e);
      HeldEntry(s, p, e);
      BornUnborn(s, q, s.cache[e].inum);
    }
  }

  lemma MarkAlone(s: State, p: nat, inum: nat, kind: int, q: nat)
    requires Inv(s) && Tidy(s) && CanLock(s, p, Mark(inum, kind)) && q < |s.procs|
    ensures AloneOk(DoLock(s, p, Mark(inum, kind)), q)
  {
    assert AloneOk(s, q);
    forall r: nat | r < |s.procs| ensures s.procs[r].phase != Born(inum) { assert AloneOk(s, r); }
  }

  lemma FileAlone(s: State, p: nat, x: FileOp, q: nat)
    requires Tidy(s) && CanFile(s, p, x) && q < |s.procs|
    ensures AloneOk(DoFile(s, p, x), q)
  {
    assert AloneOk(s, q);
  }

  lemma OwnAlone(s: State, p: nat, o: OwnOp, q: nat)
    requires Tidy(s) && CanOwn(s, p, o) && q < |s.procs|
    ensures AloneOk(s.(procs := DoOwn(s, p, o)), q)
  {
    assert AloneOk(s, q);
  }

  lemma StepAlone(s: State, st: Step, q: nat)
    requires Inv(s) && Tidy(s) && Can(s, st) && FindsLinked(s, st) && q < |s.procs|
    ensures q < |Do(s, st).procs| && AloneOk(Do(s, st), q)
  {
    match st
    case ByRef(p, r) => RefAlone(s, p, r, q);
    case ByLock(p, l) => if l.Mark? { MarkAlone(s, p, l.inum, l.kind, q); } else { LockAlone(s, p, l, q); }
    case ByFile(p, x) => FileAlone(s, p, x, q);
    case ByOwn(p, o) => OwnAlone(s, p, o, q);
  }

  lemma StepCleared(s: State, st: Step, i: nat)
    requires Inv(s) && Tidy(s) && Can(s, st) && i < |s.disk|
    ensures i < |Do(s, st).disk| && (Do(s, st).disk[i].kind == 0 ==> Do(s, st).disk[i].nlink == 0)
  {
    StepSizes(s, st);
    if st.ByLock? && st.l.SetLinks? { assert EntryOk(s, st.l.e); HeldEntry(s, st.p, st.l.e); }
    if st.ByLock? && st.l.Free? { assert ProcOk(s, st.p); }
  }

  lemma StepKeepsTidy(s: State, st: Step)
    requires Inv(s) && Tidy(s) && Can(s, st) && FindsLinked(s, st)
    ensures Tidy(Do(s, st))
  {
    var t := Do(s, st);
    StepSizes(s, st);
    forall i: nat | i < |t.disk| && t.disk[i].kind == 0 ensures t.disk[i].nlink == 0 { StepCleared(s, st, i); }
    forall e: nat | e < |t.cache| ensures StaleOk(t, e) { StepStale(s, st, e); }
    forall p: nat | p < |t.procs| ensures AloneOk(t, p) { StepAlone(s, st, p); }
  }

  /** All lookups of the run so far have found linked inodes. */
  ghost predicate Disciplined(ss: seq<State>, sts: seq<Step>, t: nat)
    requires t <= |sts| <= |ss|
  {
    forall i :: 0 <= i < t ==> FindsLinked(ss[i], sts[i])
  }

  lemma {:induction false} BehaviourTidy(ss: seq<State>, sts: seq<Step>, t: nat)
    requires Behaviour(ss, sts) && t <= |sts| && Disciplined(ss, sts, t)
    ensures Tidy(ss[t])
  {
    if t == 0 {
      assert forall e: nat :: e < |ss[0].cache| ==> StaleOk(ss[0], e);
    } else {
      BehaviourTidy(ss, sts, t - 1);
      var s, st, s' := RunStep(ss, sts, t - 1);
      StepKeepsTidy(s, st);
    }
  }

  /** What iput and ilock are for: an inode is freed by its last holder, and nobody locks a free one
      (ilock's panic "no type"). */
  ghost predicate Sound(s: State, st: Step) {
    && (st.ByLock? && st.l.Free? && Can(s, st) ==> LastHolder(s, st.p, s.procs[st.p].phase.e))
    && forall p: nat, e: nat :: HasLock(s, p, e) && !s.cache[e].valid ==>
      s.cache[e].inum < |s.disk| && s.disk[s.cache[e].inum].kind != 0
  }

  lemma TidySound(s: State, st: Step)
    requires Inv(s) && Tidy(s)
    ensures Sound(s, st)
  {
    if st.ByLock? && st.l.Free? && Can(s, st) {
      assert AloneOk(s, st.p);
      LastHolderIff(s, st.p, s.procs[st.p].phase.e);
    }
    forall p: nat, e: nat | HasLock(s, p, e) && !s.cache[e].valid
      ensures s.cache[e].inum < |s.disk| && s.disk[s.cache[e].inum].kind != 0
    {
      assert EntryOk(s, e);
      NotStale(s, p, e);
    }
  }

  /** If lookups find linked inodes only, every free is by the last holder and no lock meets a free
      inode, in every run. */
  lemma LinkedLookupsSafe(ss: seq<State>, sts: seq<Step>, t: nat)
    requires Behaviour(ss, sts) && t < |sts| && Disciplined(ss, sts, t)
    ensures Sound(ss[t], sts[t])
  {
    BehaviourTidy(ss, sts, t);
    BehaviourInv(ss, sts, t);
    TidySound(ss[t], sts[t]);
  }

  // ---------- a lookup of "..": the parent is freed under its holder ----------

  ghost predicate Reachable(s: State) {
    exists ss: seq<State>, sts: seq<Step> :: Behaviour(ss, sts) && ss[|sts|] == s
  }

  lemma Hop(s: State, st: Step, t: State)
    requires Reachable(s) && Can(s, st) && t == Do(s, st)
    ensures Reachable(t)
  {
    var ss: seq<State>, sts: seq<Step> :| Behaviour(ss, sts) && ss[|sts|] == s;
    assert Goes(s, st, t);
    assert Behaviour(ss + [t], sts + [st]);
  }

  /** Two entries; a disk with the root, a directory a (inode 2) with the given links and a directory
      b in it (inode 3); two processes. */
  function Shot(x: Entry, y: Entry, links: int, p: Proc, q: Proc): State {
    State([x, y], [DInode(0, 0), DInode(T_DIR, 2), DInode(T_DIR, links), DInode(T_DIR, 1)], [], [p, q])
  }

  function Job(phase: Phase, cwd: Option<nat>, i: nat, j: nat): Proc {
    Proc(phase, cwd, seq(NOFILE, d => None), [i, j], [])
  }

  /** A lookup by the first and by the second process. */
  lemma FirstLooks(x: Entry, y: Entry, n: int, inum: nat, q: Proc)
    requires inum < 4 && (x.ref > 0 ==> x.inum == inum) && x.ref >= 0 && (y.ref > 0 ==> y.inum != inum)
    ensures var s, t := Shot(x, y, n, Idle(), q), Shot(Referred(x, inum), y, n, WithA(), q);
      CanRef(s, 0, Lookup(inum, 0)) && DoRef(s, 0, Lookup(inum, 0)) == t
  {
    PlusTwo(0, 0);
  }

  lemma SecondLooks(x: Entry, y: Entry, n: int, inum: nat, p: Proc, cwd: Option<nat>, first: bool)
    requires inum < 4 && x.ref >= 0 && y.ref >= 0
    requires if first then (x.ref > 0 ==> x.inum == inum) && (y.ref > 0 ==> y.inum != inum)
             else (y.ref > 0 ==> y.inum == inum) && (x.ref > 0 ==> x.inum != inum)
    ensures var s, e := Shot(x, y, n, p, Job(Running, cwd, 0, 0)), if first then 0 else 1;
      var t := if first then Shot(Referred(x, inum), y, n, p, Job(Running, cwd, 1, 0))
               else Shot(x, Referred(y, inum), n, p, Job(Running, cwd, 0, 1));
      CanRef(s, 1, Lookup(inum, e)) && DoRef(s, 1, Lookup(inum, e)) == t
  {
    PlusTwo(0, 0);
  }

  lemma PlusTwo(i: nat, j: nat)
    ensures Plus([i, j], 0) == [i + 1, j] && Plus([i, j], 1) == [i, j + 1] && Minus([i, j + 1], 1) == [i, j]
  {
  }

  const NIL := Entry(0, 0, false, 0, 0, None)
  const OFB := Entry(3, 1, false, 0, 0, None)
  function OfA(ref: int, links: int, lock: Option<nat>): Entry { Entry(2, ref, true, T_DIR, links, lock) }
  function Idle(): Proc { Job(Running, None, 0, 0) }
  function InB(): Proc { Job(Running, Some(1), 0, 0) }
  function WithA(): Proc { Job(Running, None, 1, 0) }

  /** The second process is started. */
  lemma SecondStarted()
    ensures Reachable(Shot(NIL, NIL, 2, Idle(), Idle()))
  {
    var s0 := Shot(NIL, NIL, 2, Idle(), Job(Unused, None, 0, 0));
    var s1 := Shot(NIL, NIL, 2, Idle(), Job(Embryo(0), None, 0, 0));
    assert Behaviour([s0], []);
    Hop(s0, ByOwn(0, Begin(1)), s1);
    Hop(s1, ByOwn(0, Launch(1)), Shot(NIL, NIL, 2, Idle(), Idle()));
  }

  /** It finds b ... */
  lemma ChildFound()
    ensures Reachable(Shot(NIL, OFB, 2, Idle(), Job(Running, None, 0, 1)))
  {
    SecondStarted();
    SecondLooks(NIL, NIL, 2, 3, Idle(), None, false);
    Hop(Shot(NIL, NIL, 2, Idle(), Idle()), ByRef(1, Lookup(3, 1)), Shot(NIL, OFB, 2, Idle(), Job(Running, None, 0, 1)));
  }

  /** ... and makes it its current directory. */
  lemma ChildEntered()
    ensures Reachable(Shot(NIL, OFB, 2, Idle(), InB()))
  {
    ChildFound();
    PlusTwo(0, 0);
    Hop(Shot(NIL, OFB, 2, Idle(), Job(Running, None, 0, 1)), ByOwn(1, Enter(1, 1)), Shot(NIL, OFB, 2, Idle(), InB()));
  }

  /** The first process finds a ... */
  lemma ParentSeen()
    ensures Reachable(Shot(Entry(2, 1, false, 0, 0, None), OFB, 2, WithA(), InB()))
  {
    ChildEntered();
    FirstLooks(NIL, OFB, 2, 2, InB());
    Hop(Shot(NIL, OFB, 2, Idle(), InB()), ByRef(0, Lookup(2, 0)),
      Shot(Entry(2, 1, false, 0, 0, None), OFB, 2, WithA(), InB()));
  }

  /** ... and locks it. */
  lemma ParentLocked()
    ensures Reachable(Shot(OfA(1, 2, Some(0)), OFB, 2, WithA(), InB()))
  {
    ParentSeen();
    var s0 := Shot(Entry(2, 1, false, 0, 0, None), OFB, 2, WithA(), InB());
    var s1 := Shot(Entry(2, 1, false, 0, 0, Some(0)), OFB, 2, WithA(), InB());
    Hop(s0, ByLock(0, Lock(0)), s1);
    Hop(s1, ByLock(0, Load(0)), Shot(OfA(1, 2, Some(0)), OFB, 2, WithA(), InB()));
  }

  /** It unlinks b, whose ".." was a link to a, and then a. */
  lemma ParentUnlinked()
    ensures Reachable(Shot(OfA(1, 0, None), OFB, 0, WithA(), InB()))
  {
    ParentLocked();
    var s0 := Shot(OfA(1, 2, Some(0)), OFB, 2, WithA(), InB());
    var s1 := Shot(OfA(1, 1, Some(0)), OFB, 1, WithA(), InB());
    var s2 := Shot(OfA(1, 0, Some(0)), OFB, 0, WithA(), InB());
    Hop(s0, ByLock(0, SetLinks(0, 1)), s1);
    Hop(s1, ByLock(0, SetLinks(0, 0)), s2);
    Hop(s2, ByLock(0, Unlock(0)), Shot(OfA(1, 0, None), OFB, 0, WithA(), InB()));
  }

  /** Nobody else holds a, so iput decides to free it. */
  lemma ParentJudged()
    ensures Reachable(Shot(OfA(1, 0, Some(0)), OFB, 0, Job(Freeing(0), None, 1, 0), InB()))
  {
    ParentUnlinked();
    var s0 := Shot(OfA(1, 0, None), OFB, 0, WithA(), InB());
    var s1 := Shot(OfA(1, 0, Some(0)), OFB, 0, WithA(), InB());
    Hop(s0, ByLock(0, Lock(0)), s1);
    Hop(s1, ByLock(0, Judge(0)), Shot(OfA(1, 0, Some(0)), OFB, 0, Job(Freeing(0), None, 1, 0), InB()));
  }

  /** The second process looks up ".." in b. */
  lemma ParentFound()
    ensures Reachable(Shot(OfA(2, 0, Some(0)), OFB, 0, Job(Freeing(0), None, 1, 0), Job(Running, Some(1), 1, 0)))
  {
    ParentJudged();
    SecondLooks(OfA(1, 0, Some(0)), OFB, 0, 2, Job(Refs.Freeing(0), None, 1, 0), Some(1), true);
    Hop(Shot(OfA(1, 0, Some(0)), OFB, 0, Job(Freeing(0), None, 1, 0), InB()), ByRef(1, Lookup(2, 0)),
      Shot(OfA(2, 0, Some(0)), OFB, 0, Job(Freeing(0), None, 1, 0), Job(Running, Some(1), 1, 0)));
  }

  /** In the state where iput frees a, the second process holds a reference to it. */
  lemma DotDotUnsound()
    ensures exists s, st :: Reachable(s) && Can(s, st) && !Sound(s, st)
  {
    ParentFound();
    var s := Shot(OfA(2, 0, Some(0)), OFB, 0, Job(Freeing(0), None, 1, 0), Job(Running, Some(1), 1, 0));
    var st := ByLock(0, Free);
    assert Holds(s.procs[1], 0) == 1;
    assert Can(s, st) && !LastHolder(s, 0, 0);
    assert Reachable(s) && Can(s, st) && !Sound(s, st);
  }

  lemma UnsoundRun() returns (ss: seq<State>, sts: seq<Step>, n: nat)
    ensures Behaviour(ss, sts) && n < |sts| && !Sound(ss[n], sts[n])
  {
    DotDotUnsound();
    var s, st :| Reachable(s) && Can(s, st) && !Sound(s, st);
    var ss0: seq<State>, sts0: seq<Step> :| Behaviour(ss0, sts0) && ss0[|sts0|] == s;
    assert Goes(s, st, Do(s, st));
    ss, sts, n := ss0 + [Do(s, st)], sts0 + [st], |sts0|;
  }

  /** Frees are by the last holder and locks meet no free inode, in all runs, exactly when lookups are
      confined to linked inodes. */
  lemma SoundIff(confined: bool)
    ensures (forall ss, sts, n: nat :: Behaviour(ss, sts) && n < |sts| && (confined ==> Disciplined(ss, sts, n)) ==>
      Sound(ss[n], sts[n])) <==> confined
  {
    if confined {
      forall ss, sts, n: nat | Behaviour(ss, sts) && n < |sts| && Disciplined(ss, sts, n) ensures Sound(ss[n], sts[n]) {
        LinkedLookupsSafe(ss, sts, n);
      }
    } else {
      var ss, sts, n := UnsoundRun();
    }
  }
}
