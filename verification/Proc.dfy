/** The process table (proc.c): fork, exit, wait, sleep, wakeup, kill and the scheduler, for any
    number of processes and CPUs and any interleaving.  A step is one stretch under ptable.lock,
    cut where a process marks itself and where it leaves its stack, or one write of fork to a
    slot that only it can touch. */
module Process {

  datatype PState = UNUSED | EMBRYO | SLEEPING | RUNNABLE | RUNNING | ZOMBIE

  /** wait sleeps on the address of its own table entry; every other sleep on something else. */
  datatype Chan = NoChan | OnProc(i: int) | Other(k: nat)

  /** Where a process goes on when it is next run: wait scans again, still under the lock. */
  datatype Kont = Plain | InWait

  /** A table entry.  `mem` says that its kernel stack and page directory are allocated, and
      `forking` is the entry that an unfinished fork of this process owns (-1 for none). */
  datatype Proc = Proc(state: PState, pid: nat, parent: int, chan: Chan, killed: bool,
                       mem: bool, forking: int, kont: Kont)

  /** cpus[c] is the entry on whose kernel stack CPU c runs, -1 on its scheduler's stack; lock is
      the CPU that holds ptable.lock, -1 if none. */
  datatype State = State(ps: seq<Proc>, cpus: seq<int>, lock: int, init: nat, nextpid: nat, reaped: seq<nat>)

  // ---------- the table ----------

  predicate Past(q: Proc) { q.state == SLEEPING || q.state == RUNNABLE || q.state == RUNNING || q.state == ZOMBIE }

  predicate Live(q: Proc) { q.state == SLEEPING || q.state == RUNNABLE || q.state == RUNNING }

  predicate AsleepOn(q: Proc, ch: Chan) { q.state == SLEEPING && q.chan == ch }

  /** wakeup1 */
  function Roused(ps: seq<Proc>, ch: Chan): (r: seq<Proc>)
    ensures |r| == |ps|
    ensures forall i :: 0 <= i < |ps| ==> r[i] == if AsleepOn(ps[i], ch) then ps[i].(state := RUNNABLE) else ps[i]
  {
    seq(|ps|, i requires 0 <= i < |ps| => if AsleepOn(ps[i], ch) then ps[i].(state := RUNNABLE) else ps[i])
  }

  predicate HasZombie(ps: seq<Proc>, p: int) { exists i :: 0 <= i < |ps| && ps[i].parent == p && ps[i].state == ZOMBIE }

  predicate HasKid(ps: seq<Proc>, p: int) { exists i :: 0 <= i < |ps| && ps[i].parent == p }

  /** exit under the lock: wake the parent, give the children to init, wake init if one of them is
      a zombie, and become one. */
  function Exited(ps: seq<Proc>, p: nat, init: nat): (r: seq<Proc>)
    requires p < |ps|
    ensures |r| == |ps|
    ensures forall i :: 0 <= i < |ps| ==> r[i] == ExitedEntry(ps, p, init, i)
  {
    seq(|ps|, i requires 0 <= i < |ps| => ExitedEntry(ps, p, init, i))
  }

  function ExitedEntry(ps: seq<Proc>, p: nat, init: nat, i: int): Proc
    requires p < |ps| && 0 <= i < |ps|
  {
    var q := ps[i];
    var woken := AsleepOn(q, OnProc(ps[p].parent)) || (AsleepOn(q, OnProc(init)) && HasZombie(ps, p));
    q.(parent := if q.parent == p then init else q.parent,
       state := if i == p then ZOMBIE else if woken then RUNNABLE else q.state)
  }

  /** wait's cleaning of a zombie's entry. */
  function Cleaned(q: Proc): Proc { q.(state := UNUSED, pid := 0, parent := -1, killed := false, mem := false) }

  /** kill's scan: the first entry with that pid, in use or not; |ps| if there is none. */
  function FirstPid(ps: seq<Proc>, pid: nat, from: nat): (j: nat)
    requires from <= |ps|
    ensures from <= j <= |ps| && (j < |ps| ==> ps[j].pid == pid) && forall i :: from <= i < j ==> ps[i].pid != pid
    decreases |ps| - from
  {
    if from == |ps| || ps[from].pid == pid then from else FirstPid(ps, pid, from + 1)
  }

  function Killed(ps: seq<Proc>, pid: nat): seq<Proc> {
    var j := FirstPid(ps, pid, 0);
    if j == |ps| then ps
    else ps[j := ps[j].(killed := true, state := if ps[j].state == SLEEPING then RUNNABLE else ps[j].state)]
  }

  // ---------- steps ----------

  datatype Step =
    | Alloc(c: nat, j: nat) | Setup(c: nat) | ForkFail(c: nat) | ForkDone(c: nat)
    | Exit(c: nat) | Reap(c: nat, z: nat) | WaitNone(c: nat) | WaitSleep(c: nat)
    | Yield(c: nat) | SleepOn(c: nat, k: nat) | Wakeup(c: nat, k: nat) | Kill(c: nat, pid: nat)
    | Swtch(c: nat) | SchedTake(c: nat) | Dispatch(c: nat, p: nat) | SchedDrop(c: nat) | Resume(c: nat)

  /** CPU c runs process p's own code. */
  predicate On(s: State, c: nat, p: int) {
    c < |s.cpus| && s.cpus[c] == p && 0 <= p < |s.ps| && s.ps[p].state == RUNNING
  }

  /** ... outside every critical section. */
  predicate Loose(s: State, c: nat) {
    c < |s.cpus| && On(s, c, s.cpus[c]) && s.lock != c && s.ps[s.cpus[c]].kont == Plain
  }

  /** ... and can enter one at once. */
  predicate Enters(s: State, c: nat) { Loose(s, c) && s.lock == -1 }

  /** wait scans: on entry, or again when it is run after a sleep. */
  predicate Scans(s: State, c: nat) {
    Enters(s, c) || (c < |s.cpus| && On(s, c, s.cpus[c]) && s.lock == c && s.ps[s.cpus[c]].kont == InWait)
  }

  predicate Can(s: State, st: Step) {
    var c := st.c;
    match st
    case Alloc(_, j) => Enters(s, c) && s.ps[s.cpus[c]].forking == -1 && j < |s.ps| && s.ps[j].state == UNUSED
    case Setup(_) => Loose(s, c) && 0 <= s.ps[s.cpus[c]].forking < |s.ps| && s.ps[s.ps[s.cpus[c]].forking].parent == -1
    case ForkFail(_) =>
      Loose(s, c) && 0 <= s.ps[s.cpus[c]].forking < |s.ps| && s.ps[s.ps[s.cpus[c]].forking].parent == -1
    case ForkDone(_) => Enters(s, c) && 0 <= s.ps[s.cpus[c]].forking < |s.ps| && s.ps[s.ps[s.cpus[c]].forking].mem
                        && s.ps[s.ps[s.cpus[c]].forking].parent == s.cpus[c]
    case Exit(_) => Enters(s, c) && s.ps[s.cpus[c]].forking == -1 && s.cpus[c] != s.init
    case Reap(_, z) => Scans(s, c) && s.ps[s.cpus[c]].forking == -1 && z < |s.ps|
                       && s.ps[z].parent == s.cpus[c] && s.ps[z].state == ZOMBIE
    case WaitNone(_) => Scans(s, c) && s.ps[s.cpus[c]].forking == -1 && !HasZombie(s.ps, s.cpus[c])
                        && (!HasKid(s.ps, s.cpus[c]) || s.ps[s.cpus[c]].killed)
    case WaitSleep(_) => Scans(s, c) && s.ps[s.cpus[c]].forking == -1 && !HasZombie(s.ps, s.cpus[c])
                         && HasKid(s.ps, s.cpus[c]) && !s.ps[s.cpus[c]].killed
    case Yield(_) => Enters(s, c)
    case SleepOn(_, _) => Enters(s, c)
    case Wakeup(_, _) => c < |s.cpus| && s.lock == -1
    case Kill(_, _) => Enters(s, c)
    case Swtch(_) => c < |s.cpus| && s.lock == c && 0 <= s.cpus[c] < |s.ps| && s.ps[s.cpus[c]].state != RUNNING
    case SchedTake(_) => c < |s.cpus| && s.cpus[c] == -1 && s.lock == -1
    case Dispatch(_, p) => c < |s.cpus| && s.cpus[c] == -1 && s.lock == c && p < |s.ps| && s.ps[p].state == RUNNABLE
    case SchedDrop(_) => c < |s.cpus| && s.cpus[c] == -1 && s.lock == c
    case Resume(_) => c < |s.cpus| && On(s, c, s.cpus[c]) && s.lock == c && s.ps[s.cpus[c]].kont == Plain
  }

  function Do(s: State, st: Step): State
    requires Can(s, st)
  {
    var c := st.c;
    var p := s.cpus[c];
    match st
    case Alloc(_, j) =>
      var np := s.ps[j].(state := EMBRYO, pid := s.nextpid);
      s.(ps := s.ps[j := np][p := s.ps[p].(forking := j)], nextpid := s.nextpid + 1)
    case Setup(_) => s.(ps := s.ps[s.ps[p].forking := s.ps[s.ps[p].forking].(mem := true, parent := p)])
    case ForkFail(_) =>
      var j := s.ps[p].forking;
      s.(ps := s.ps[j := s.ps[j].(state := UNUSED, mem := false)][p := s.ps[p].(forking := -1)])
    case ForkDone(_) =>
      var j := s.ps[p].forking;
      s.(ps := s.ps[j := s.ps[j].(state := RUNNABLE, kont := Plain)][p := s.ps[p].(forking := -1)])
    case Exit(_) => s.(ps := Exited(s.ps, p, s.init), lock := c)
    case Reap(_, z) =>
      s.(ps := s.ps[z := Cleaned(s.ps[z])][p := s.ps[p].(kont := Plain, chan := NoChan)],
         lock := -1, reaped := s.reaped + [s.ps[z].pid])
    case WaitNone(_) => s.(ps := s.ps[p := s.ps[p].(kont := Plain, chan := NoChan)], lock := -1)
    case WaitSleep(_) => s.(ps := s.ps[p := s.ps[p].(state := SLEEPING, chan := OnProc(p), kont := InWait)], lock := c)
    case Yield(_) => s.(ps := s.ps[p := s.ps[p].(state := RUNNABLE)], lock := c)
    case SleepOn(_, k) => s.(ps := s.ps[p := s.ps[p].(state := SLEEPING, chan := Other(k))], lock := c)
    case Wakeup(_, k) => s.(ps := Roused(s.ps, Other(k)))
    case Kill(_, pid) => s.(ps := Killed(s.ps, pid))
    case Swtch(_) => s.(cpus := s.cpus[c := -1])
    case SchedTake(_) => s.(lock := c)
    case Dispatch(_, q) => s.(ps := s.ps[q := s.ps[q].(state := RUNNING)], cpus := s.cpus[c := q])
    case SchedDrop(_) => s.(lock := -1)
    case Resume(_) => s.(ps := s.ps[p := s.ps[p].(chan := NoChan)], lock := -1)
  }

  // ---------- the invariant ----------

  ghost predicate EntryOk(s: State, i: int)
    requires 0 <= i < |s.ps|
  {
    var q := s.ps[i];
    && (q.state == UNUSED ==> q.parent == -1 && !q.mem)
    && (Past(q) ==> q.mem && (i != s.init ==> q.parent != -1))
    && (q.parent != -1 ==> 0 <= q.parent < |s.ps| && q.parent != i && Live(s.ps[q.parent]))
    && (q.state == SLEEPING && q.chan.OnProc? ==> q.chan.i == i)
    && (q.state == ZOMBIE && q.parent != -1 ==> !AsleepOn(s.ps[q.parent], OnProc(q.parent)))
    && (q.forking != -1 ==> Live(q) && 0 <= q.forking < |s.ps| && s.ps[q.forking].state == EMBRYO)
    && q.pid < s.nextpid && (q.state != UNUSED ==> 0 < q.pid && q.pid !in s.reaped)
  }

  ghost predicate PairOk(s: State, i: int, k: int)
    requires 0 <= i < |s.ps| && 0 <= k < |s.ps|
  {
    i != k ==>
      && (s.ps[i].forking != -1 ==> s.ps[i].forking != s.ps[k].forking)
      && (s.ps[i].state != UNUSED ==> s.ps[i].pid != s.ps[k].pid)
  }

  /** A CPU is on a process's stack only while that process runs, or until it has handed the lock
      to its scheduler. */
  ghost predicate CpuOk(s: State, c: int)
    requires 0 <= c < |s.cpus|
  {
    var p := s.cpus[c];
    p != -1 ==>
      && 0 <= p < |s.ps| && (s.ps[p].state == RUNNING || (s.lock == c && Past(s.ps[p])))
      && forall d :: 0 <= d < |s.cpus| && d != c ==> s.cpus[d] != p
  }

  ghost predicate Inv(s: State) {
    && s.init < |s.ps| && Live(s.ps[s.init]) && s.ps[s.init].parent == -1 && -1 <= s.lock < |s.cpus|
    && (forall i :: 0 <= i < |s.ps| ==> EntryOk(s, i))
    && (forall i, k :: 0 <= i < |s.ps| && 0 <= k < |s.ps| ==> PairOk(s, i, k))
    && (forall c :: 0 <= c < |s.cpus| ==> CpuOk(s, c))
    && (forall i :: 0 <= i < |s.reaped| ==> s.reaped[i] < s.nextpid)
    && (forall i, k :: 0 <= i < k < |s.reaped| ==> s.reaped[i] != s.reaped[k])
  }

  predicate ByFork(st: Step) { st.Alloc? || st.Setup? || st.ForkFail? || st.ForkDone? }

  predicate BySched(st: Step) { st.Swtch? || st.SchedTake? || st.Dispatch? || st.SchedDrop? || st.Resume? }

  predicate ByWait(st: Step) { st.Reap? || st.WaitNone? || st.WaitSleep? }

  lemma AllocEntries(s: State, st: Step, i: int)
    requires Inv(s) && Can(s, st) && st.Alloc? && 0 <= i < |s.ps|
    ensures EntryOk(Do(s, st), i)
  {
    assert EntryOk(s, i);
  }

  lemma ForkEntries(s: State, st: Step, i: int)
    requires Inv(s) && Can(s, st) && ByFork(st) && !st.Alloc? && 0 <= i < |s.ps|
    ensures EntryOk(Do(s, st), i)
  {
    var p := s.cpus[st.c];
    assert EntryOk(s, i) && EntryOk(s, p) && EntryOk(s, s.ps[p].forking) && PairOk(s, i, p);
  }

  lemma WaitEntries(s: State, st: Step, i: int)
    requires Inv(s) && Can(s, st) && ByWait(st) && 0 <= i < |s.ps|
    ensures EntryOk(Do(s, st), i)
  {
    var p := s.cpus[st.c];
    assert EntryOk(s, i) && EntryOk(s, p);
    if st.Reap? { assert EntryOk(s, st.z) && PairOk(s, i, st.z); }
  }

  lemma ExitEntries(s: State, c: nat, i: int)
    requires Inv(s) && Can(s, Exit(c)) && 0 <= i < |s.ps|
    ensures EntryOk(Do(s, Exit(c)), i)
  {
    var p := s.cpus[c];
    assert EntryOk(s, i) && EntryOk(s, p);
    if s.ps[i].parent != -1 { assert EntryOk(s, s.ps[i].parent); }
  }

  lemma OtherEntries(s: State, st: Step, i: int)
    requires Inv(s) && Can(s, st) && !ByFork(st) && !ByWait(st) && !st.Exit? && 0 <= i < |s.ps|
    ensures EntryOk(Do(s, st), i)
  {
    assert EntryOk(s, i);
  }

  lemma ForkPairs(s: State, st: Step, i: int, k: int)
    requires Inv(s) && Can(s, st) && ByFork(st) && 0 <= i < |s.ps| && 0 <= k < |s.ps|
    ensures PairOk(Do(s, st), i, k)
  {
    assert PairOk(s, i, k) && EntryOk(s, i) && EntryOk(s, k);
  }

  /** Outside fork an entry keeps its pid, or gives it up and is free. */
  lemma OtherPids(s: State, st: Step, e: int)
    requires Inv(s) && Can(s, st) && !ByFork(st) && 0 <= e < |s.ps|
    ensures var q, q' := s.ps[e], Do(s, st).ps[e];
      && q'.forking == q.forking && (q'.state == UNUSED <==> q.state == UNUSED || q'.pid != q.pid)
      && (q'.pid == q.pid || q'.pid == 0)
  {
    assert EntryOk(s, e);
    if st.Reap? { assert EntryOk(s, st.z); }
  }

  lemma OtherPairs(s: State, st: Step, i: int, k: int)
    requires Inv(s) && Can(s, st) && !ByFork(st) && 0 <= i < |s.ps| && 0 <= k < |s.ps|
    ensures 0 <= i < |Do(s, st).ps| && 0 <= k < |Do(s, st).ps| && PairOk(Do(s, st), i, k)
  {
    assert PairOk(s, i, k) && EntryOk(s, i);
    StepRest(s, st);
    OtherPids(s, st, i);
    OtherPids(s, st, k);
  }

  lemma StepCpus(s: State, st: Step, d: int)
    requires Inv(s) && Can(s, st) && 0 <= d < |s.cpus|
    ensures CpuOk(Do(s, st), d)
  {
    assert CpuOk(s, d) && CpuOk(s, st.c);
    if ByFork(st) { assert EntryOk(s, s.cpus[st.c]); }
    if st.Dispatch? {
      forall e | 0 <= e < |s.cpus| ensures s.cpus[e] != st.p { assert CpuOk(s, e); }
    }
  }

  /** Every step keeps the invariant. */
  lemma StepKeepsInv(s: State, st: Step)
    requires Inv(s) && Can(s, st)
    ensures Inv(Do(s, st))
  {
    var s' := Do(s, st);
    forall i | 0 <= i < |s.ps| ensures EntryOk(s', i) {
      if st.Alloc? {
        AllocEntries(s, st, i);
      } else if ByFork(st) {
        ForkEntries(s, st, i);
      } else if ByWait(st) {
        WaitEntries(s, st, i);
      } else if st.Exit? {
        ExitEntries(s, st.c, i);
      } else {
        OtherEntries(s, st, i);
      }
    }
    forall i, k | 0 <= i < |s.ps| && 0 <= k < |s.ps| ensures PairOk(s', i, k) {
      if ByFork(st) { ForkPairs(s, st, i, k); } else { OtherPairs(s, st, i, k); }
    }
    forall d | 0 <= d < |s.cpus| ensures CpuOk(s', d) { StepCpus(s, st, d); }
    StepRest(s, st);
  }

  lemma StepRest(s: State, st: Step)
    requires Inv(s) && Can(s, st)
    ensures var s' := Do(s, st);
      && |s'.ps| == |s.ps| && |s'.cpus| == |s.cpus| && s'.init == s.init
      && Live(s'.ps[s.init]) && s'.ps[s.init].parent == -1 && -1 <= s'.lock < |s'.cpus|
      && (forall i :: 0 <= i < |s'.reaped| ==> s'.reaped[i] < s'.nextpid)
      && (forall i, k :: 0 <= i < k < |s'.reaped| ==> s'.reaped[i] != s'.reaped[k])
  {
    assert EntryOk(s, s.init);
    if st.Reap? { assert EntryOk(s, st.z); }
    if st.Setup? || st.ForkFail? || st.ForkDone? { assert EntryOk(s, s.cpus[st.c]); }
  }

  // ---------- whole runs ----------

  /** userinit: one runnable process without a parent, every CPU in its scheduler. */
  ghost predicate Initial(s: State) {
    && s.init < |s.ps| && s.lock == -1 && s.reaped == [] && s.nextpid == 2
    && (forall c :: 0 <= c < |s.cpus| ==> s.cpus[c] == -1)
    && (forall i :: 0 <= i < |s.ps| ==>
        s.ps[i] == if i == s.init then Proc(RUNNABLE, 1, -1, NoChan, false, true, -1, Plain)
                   else Proc(UNUSED, 0, -1, NoChan, false, false, -1, Plain))
  }

  ghost predicate Goes(s: State, st: Step, t: State) { Can(s, st) && t == Do(s, st) }

  ghost predicate Behaviour(ss: seq<State>, sts: seq<Step>) {
    && |ss| == |sts| + 1 && Initial(ss[0])
    && forall i :: 0 <= i < |sts| ==> Goes(ss[i], sts[i], ss[i + 1])
  }

  lemma {:induction false} BehaviourInv(ss: seq<State>, sts: seq<Step>, n: nat)
    requires Behaviour(ss, sts) && n <= |sts|
    ensures Inv(ss[n])
  {
    if n > 0 {
      BehaviourInv(ss, sts, n - 1);
      assert Goes(ss[n - 1], sts[n - 1], ss[n]);
      StepKeepsInv(ss[n - 1], sts[n - 1]);
    }
  }

  /** The lifecycle guarantees, in every state of every run: a process past fork other than init
      has a parent that is alive and no zombie; nobody sleeps in wait while one of its children
      is a zombie; no child is reaped twice; pids of table entries in use are distinct. */
  lemma LifecycleSafe(ss: seq<State>, sts: seq<Step>, n: nat)
    requires Behaviour(ss, sts) && n <= |sts|
    ensures var s := ss[n];
      && (forall i :: 0 <= i < |s.ps| && i != s.init && Past(s.ps[i]) ==>
          0 <= s.ps[i].parent < |s.ps| && Live(s.ps[s.ps[i].parent]))
      && (forall i :: 0 <= i < |s.ps| && AsleepOn(s.ps[i], OnProc(i)) ==> !HasZombie(s.ps, i))
      && (forall i, k :: 0 <= i < k < |s.reaped| ==> s.reaped[i] != s.reaped[k])
      && (forall i, k :: 0 <= i < k < |s.ps| && s.ps[i].state != UNUSED && s.ps[k].state != UNUSED ==>
          s.ps[i].pid != s.ps[k].pid)
  {
    BehaviourInv(ss, sts, n);
    var s := ss[n];
    forall i | 0 <= i < |s.ps| && AsleepOn(s.ps[i], OnProc(i)) ensures !HasZombie(s.ps, i) {
      forall z | 0 <= z < |s.ps| && s.ps[z].parent == i ensures s.ps[z].state != ZOMBIE { assert EntryOk(s, z); }
    }
    forall i | 0 <= i < |s.ps| && i != s.init && Past(s.ps[i])
      ensures 0 <= s.ps[i].parent < |s.ps| && Live(s.ps[s.ps[i].parent])
    {
      assert EntryOk(s, i);
    }
    forall i, k | 0 <= i < k < |s.ps| && s.ps[i].state != UNUSED && s.ps[k].state != UNUSED
      ensures s.ps[i].pid != s.ps[k].pid
    {
      assert PairOk(s, i, k);
    }
  }

  /** Stacks: what wait frees no CPU stands on; what a scheduler runs has its stack and page
      directory and no CPU on it; and a process that is running is on a stack that exists. */
  lemma StacksSafe(ss: seq<State>, sts: seq<Step>, n: nat)
    requires Behaviour(ss, sts) && n < |sts|
    ensures var s := ss[n];
      && (sts[n].Reap? ==> forall c :: 0 <= c < |s.cpus| ==> s.cpus[c] != sts[n].z)
      && (sts[n].Dispatch? ==> sts[n].p < |s.ps| && s.ps[sts[n].p].mem)
      && (sts[n].Dispatch? ==> forall c :: 0 <= c < |s.cpus| ==> s.cpus[c] != sts[n].p)
      && forall c :: 0 <= c < |s.cpus| && s.cpus[c] != -1 ==> 0 <= s.cpus[c] < |s.ps| && s.ps[s.cpus[c]].mem
  {
    BehaviourInv(ss, sts, n);
    assert Goes(ss[n], sts[n], ss[n + 1]);
    var s := ss[n];
    forall c | 0 <= c < |s.cpus| && s.cpus[c] != -1
      ensures 0 <= s.cpus[c] < |s.ps| && s.ps[s.cpus[c]].mem
      ensures sts[n].Reap? ==> s.cpus[c] != sts[n].z
      ensures sts[n].Dispatch? ==> s.cpus[c] != sts[n].p
    {
      assert CpuOk(s, c) && EntryOk(s, s.cpus[c]);
    }
    if sts[n].Dispatch? { assert EntryOk(s, sts[n].p); }
  }

  // ---------- the life of one entry ----------

  /** Entry i is the one that kill(pid) finds. */
  predicate FirstWith(ps: seq<Proc>, pid: nat, i: nat) {
    i < |ps| && ps[i].pid == pid && forall k :: 0 <= k < i ==> ps[k].pid != pid
  }

  /** What makes sleeping entry i runnable: a wakeup of its channel, a kill that finds it, the exit of a
      child it waits for, or the exit of a process that leaves init a zombie. */
  predicate Rouses(s: State, st: Step, i: nat)
    requires i < |s.ps| && Can(s, st)
  {
    match st
    case Wakeup(_, k) => s.ps[i].chan == Other(k)
    case Kill(_, pid) => FirstWith(s.ps, pid, i)
    case Exit(c) =>
      s.ps[i].chan == OnProc(i) && (s.ps[s.cpus[c]].parent == i || (i == s.init && HasZombie(s.ps, s.cpus[c])))
    case _ => false
  }

  /** The states that an entry goes through, and the one step that leads on from each. */
  function NextState(s: State, st: Step, i: nat): PState
    requires i < |s.ps| && Can(s, st)
  {
    var p := s.cpus[st.c];
    match s.ps[i].state
    case UNUSED => if Allocates(st, i) then EMBRYO else UNUSED
    case EMBRYO =>
      if !(st.ForkDone? || st.ForkFail?) || s.ps[p].forking != i then EMBRYO
      else if st.ForkDone? then RUNNABLE else UNUSED
    case RUNNABLE => if st.Dispatch? && st.p == i then RUNNING else RUNNABLE
    case RUNNING =>
      if p != i then RUNNING else if st.Yield? then RUNNABLE
      else if st.SleepOn? || st.WaitSleep? then SLEEPING else if st.Exit? then ZOMBIE else RUNNING
    case SLEEPING => if Rouses(s, st, i) then RUNNABLE else SLEEPING
    case ZOMBIE => if st.Reap? && st.z == i then UNUSED else ZOMBIE
  }

  /** A fork's child is its maker's; the children of a process that exits are init's; a reaped one is
      nobody's. */
  function NextParent(s: State, st: Step, i: nat): int
    requires i < |s.ps| && Can(s, st)
  {
    if st.Setup? && s.ps[s.cpus[st.c]].forking == i then s.cpus[st.c]
    else if st.Exit? && s.ps[i].parent == s.cpus[st.c] then s.init
    else if st.Reap? && st.z == i then -1
    else s.ps[i].parent
  }

  /** A new process gets the next pid, and keeps it until it is reaped. */
  function NextPid(s: State, st: Step, i: nat): nat
    requires i < |s.ps|
  {
    if Allocates(st, i) then s.nextpid else if st.Reap? && st.z == i then 0 else s.ps[i].pid
  }

  /** Stack and page directory are there from fork's copy of its memory until the process is reaped, or the
      fork fails. */
  predicate NextMem(s: State, st: Step, i: nat)
    requires i < |s.ps| && Can(s, st)
  {
    var p := s.cpus[st.c];
    if st.Setup? && s.ps[p].forking == i then true
    else s.ps[i].mem && !(st.ForkFail? && s.ps[p].forking == i) && !(st.Reap? && st.z == i)
  }

  /** wait goes on with its scan when it is run again after its sleep. */
  function NextKont(s: State, st: Step, i: nat): Kont
    requires i < |s.ps| && Can(s, st)
  {
    var p := s.cpus[st.c];
    if st.WaitSleep? && p == i then InWait
    else if (st.Reap? || st.WaitNone?) && p == i then Plain
    else if st.ForkDone? && s.ps[p].forking == i then Plain
    else s.ps[i].kont
  }

  ghost predicate EntryGoes(s: State, st: Step, t: State, i: nat)
    requires i < |s.ps| && i < |t.ps| && Can(s, st)
  {
    && t.ps[i].state == NextState(s, st, i) && t.ps[i].parent == NextParent(s, st, i)
    && t.ps[i].pid == NextPid(s, st, i) && t.ps[i].kont == NextKont(s, st, i)
    && t.ps[i].mem == NextMem(s, st, i)
    && (t.ps[i].state == SLEEPING ==>
        t.ps[i].chan == if s.ps[i].state == SLEEPING then s.ps[i].chan
                        else if st.SleepOn? then Other(st.k) else OnProc(i))
  }

  lemma ForkGoes(s: State, st: Step, i: nat)
    requires Inv(s) && Can(s, st) && ByFork(st) && i < |s.ps|
    ensures i < |Do(s, st).ps| && EntryGoes(s, st, Do(s, st), i)
  {
    assert EntryOk(s, i) && EntryOk(s, s.cpus[st.c]);
  }

  lemma ExitGoes(s: State, st: Step, i: nat)
    requires Inv(s) && Can(s, st) && st.Exit? && i < |s.ps|
    ensures i < |Do(s, st).ps| && EntryGoes(s, st, Do(s, st), i)
  {
    assert EntryOk(s, i) && EntryOk(s, s.cpus[st.c]);
  }

  lemma WaitGoes(s: State, st: Step, i: nat)
    requires Inv(s) && Can(s, st) && ByWait(st) && i < |s.ps|
    ensures i < |Do(s, st).ps| && EntryGoes(s, st, Do(s, st), i)
  {
    assert EntryOk(s, i);
  }

  lemma OtherGoes(s: State, st: Step, i: nat)
    requires Inv(s) && Can(s, st) && !ByFork(st) && !ByWait(st) && !st.Exit? && i < |s.ps|
    ensures i < |Do(s, st).ps| && EntryGoes(s, st, Do(s, st), i)
  {
    assert EntryOk(s, i);
  }

  /** Every step moves every entry just so. */
  lemma EntryStep(s: State, st: Step, i: nat)
    requires Inv(s) && Can(s, st) && i < |s.ps|
    ensures i < |Do(s, st).ps| && EntryGoes(s, st, Do(s, st), i)
  {
    if ByFork(st) {
      ForkGoes(s, st, i);
    } else if ByWait(st) {
      WaitGoes(s, st, i);
    } else if st.Exit? {
      ExitGoes(s, st, i);
    } else {
      OtherGoes(s, st, i);
    }
  }

  /** Who stands where after a step: a process that has marked itself hands ptable.lock to its scheduler,
      which hands it to the process it dispatches. */
  lemma CpuStep(s: State, st: Step)
    requires Inv(s) && Can(s, st)
    ensures var t, c := Do(s, st), st.c;
      && (forall d :: 0 <= d < |s.cpus| && d != c ==> t.cpus[d] == s.cpus[d])
      && t.cpus[c] == (if st.Swtch? then -1 else if st.Dispatch? then st.p else s.cpus[c])
      && (st.Exit? || st.WaitSleep? || st.Yield? || st.SleepOn? || st.SchedTake? ==> t.lock == c)
      && (st.Reap? || st.WaitNone? || st.SchedDrop? || st.Resume? ==> t.lock == -1)
      && (ByFork(st) || st.Wakeup? || st.Kill? || st.Swtch? || st.Dispatch? ==> t.lock == s.lock)
  {
  }

  /** Entry i waits with its children's scan still to do: it is in no fork, and when it runs it has the lock. */
  ghost predicate WaitOk(s: State, i: nat)
    requires i < |s.ps|
  {
    var q := s.ps[i];
    && (q.kont == InWait ==> q.forking == -1 && Live(q))
    && (q.kont == InWait && q.state == RUNNING ==> 0 <= s.lock < |s.cpus| && s.cpus[s.lock] == i)
  }

  /** A channel is kept while its process sleeps and until it has run again. */
  ghost predicate ChanOk(s: State, i: nat)
    requires i < |s.ps|
  {
    var q := s.ps[i];
    q.chan != NoChan ==>
      q.state == SLEEPING || q.state == RUNNABLE ||
      (q.state == RUNNING && 0 <= s.lock < |s.cpus| && s.cpus[s.lock] == i)
  }

  lemma StepChans(s: State, st: Step, i: nat)
    requires Inv(s) && Can(s, st) && i < |s.ps| && ChanOk(s, i)
    ensures i < |Do(s, st).ps| && ChanOk(Do(s, st), i)
  {
    if ByFork(st) { assert EntryOk(s, s.cpus[st.c]) && EntryOk(s, i); }
    if 0 <= s.lock < |s.cpus| { assert CpuOk(s, s.lock); }
  }

  lemma StepWaits(s: State, st: Step, i: nat)
    requires Inv(s) && Can(s, st) && i < |s.ps| && WaitOk(s, i)
    ensures i < |Do(s, st).ps| && WaitOk(Do(s, st), i)
  {
    EntryStep(s, st, i);
    CpuStep(s, st);
    StepRest(s, st);
    StepForking(s, st, i);
    if 0 <= s.lock < |s.cpus| { assert CpuOk(s, s.lock); }
  }

  /** A fork is under way from Alloc to its end. */
  lemma StepForking(s: State, st: Step, i: nat)
    requires Inv(s) && Can(s, st) && i < |s.ps|
    ensures i < |Do(s, st).ps|
    ensures Do(s, st).ps[i].forking
      == if !ByFork(st) || st.Setup? || s.cpus[st.c] != i then s.ps[i].forking else if st.Alloc? then st.j else -1
  {
    if ByFork(st) { assert EntryOk(s, s.cpus[st.c]); }
  }

  lemma {:induction false} BehaviourWaits(ss: seq<State>, sts: seq<Step>, n: nat, i: nat)
    requires Behaviour(ss, sts) && n <= |sts| && i < |ss[0].ps|
    ensures i < |ss[n].ps| && WaitOk(ss[n], i) && ChanOk(ss[n], i)
  {
    if n > 0 {
      BehaviourWaits(ss, sts, n - 1, i);
      BehaviourInv(ss, sts, n - 1);
      assert Goes(ss[n - 1], sts[n - 1], ss[n]);
      StepWaits(ss[n - 1], sts[n - 1], i);
      StepChans(ss[n - 1], sts[n - 1], i);
    }
  }

  /** CPU c has ptable.lock, and a step of its own frees it. */
  ghost predicate FreesNext(s: State, c: nat) { exists st: Step :: st.c == c && Can(s, st) && Do(s, st).lock == -1 }

  /** ... or brings it nearer to that. */
  ghost predicate FreesIn(s: State, c: nat, n: nat)
    decreases n
  {
    FreesNext(s, c) || (n > 0 && exists st: Step :: st.c == c && Can(s, st) && FreesIn(Do(s, st), c, n - 1))
  }

  lemma SwtchFrees(s: State, c: nat)
    requires Inv(s) && s.lock == c < |s.cpus| && 0 <= s.cpus[c] < |s.ps| && s.ps[s.cpus[c]].state != RUNNING
    ensures FreesIn(s, c, 1)
  {
    var t := Do(s, Swtch(c));
    assert Can(t, SchedDrop(c)) && Do(t, SchedDrop(c)).lock == -1;
    assert Can(s, Swtch(c)) && FreesIn(t, c, 0);
  }

  /** In every run whoever has ptable.lock can give it up within three steps of its own, whatever the table
      holds: nobody who takes the lock is stuck with it. */
  lemma LockReleased(ss: seq<State>, sts: seq<Step>, n: nat)
    requires Behaviour(ss, sts) && n <= |sts| && ss[n].lock != -1
    ensures 0 <= ss[n].lock < |ss[n].cpus| && FreesIn(ss[n], ss[n].lock, 2)
  {
    var s := ss[n];
    BehaviourInv(ss, sts, n);
    var c: nat := s.lock;
    assert CpuOk(s, c);
    var p := s.cpus[c];
    if p == -1 {
      assert Can(s, SchedDrop(c)) && Do(s, SchedDrop(c)).lock == -1;
    } else if s.ps[p].state != RUNNING {
      SwtchFrees(s, c);
    } else if s.ps[p].kont == Plain {
      assert Can(s, Resume(c)) && Do(s, Resume(c)).lock == -1;
    } else {
      SizesStay(ss, sts, n);
      BehaviourWaits(ss, sts, n, p);
      ScanFrees(s, c);
    }
  }

  lemma ScanFrees(s: State, c: nat)
    requires Inv(s) && s.lock == c < |s.cpus| && On(s, c, s.cpus[c]) && s.ps[s.cpus[c]].kont == InWait
    requires s.ps[s.cpus[c]].forking == -1
    ensures FreesIn(s, c, 2)
  {
    var p := s.cpus[c];
    if HasZombie(s.ps, p) {
      var z: nat :| z < |s.ps| && s.ps[z].parent == p && s.ps[z].state == ZOMBIE;
      assert Can(s, Reap(c, z)) && Do(s, Reap(c, z)).lock == -1;
    } else if !HasKid(s.ps, p) || s.ps[p].killed {
      assert Can(s, WaitNone(c)) && Do(s, WaitNone(c)).lock == -1;
    } else {
      var t := Do(s, WaitSleep(c));
      StepKeepsInv(s, WaitSleep(c));
      SwtchFrees(t, c);
      assert Can(s, WaitSleep(c)) && FreesIn(t, c, 1);
    }
  }

  // ---------- reaping ----------

  lemma {:induction false} ReapedStays(ss: seq<State>, sts: seq<Step>, a: nat, b: nat)
    requires Behaviour(ss, sts) && a < b <= |sts| && sts[a].Reap?
    ensures sts[a].z < |ss[a].ps| && ss[a].ps[sts[a].z].pid in ss[b].reaped
  {
    assert Goes(ss[a], sts[a], ss[a + 1]);
    if b == a + 1 {
      assert ss[b].reaped[|ss[a].reaped|] == ss[a].ps[sts[a].z].pid;
    } else {
      ReapedStays(ss, sts, a, b - 1);
      assert Goes(ss[b - 1], sts[b - 1], ss[b]);
    }
  }

  /** No pid is reaped twice in a run, and every reaped process was a zombie child of the reaper. */
  lemma ReapedOnce(ss: seq<State>, sts: seq<Step>, a: nat, b: nat)
    requires Behaviour(ss, sts) && a < b < |sts| && sts[a].Reap? && sts[b].Reap?
    ensures sts[a].z < |ss[a].ps| && sts[b].z < |ss[b].ps|
    ensures ss[a].ps[sts[a].z].pid != ss[b].ps[sts[b].z].pid
    ensures ss[b].ps[sts[b].z].state == ZOMBIE && sts[b].c < |ss[b].cpus|
    ensures ss[b].ps[sts[b].z].parent == ss[b].cpus[sts[b].c]
  {
    ReapedStays(ss, sts, a, b);
    BehaviourInv(ss, sts, b);
    assert Goes(ss[b], sts[b], ss[b + 1]);
    assert EntryOk(ss[b], sts[b].z);
  }

  // ---------- the killed flag ----------

  /** Step t killed entry j, and it has not been reaped since, up to step n. */
  ghost predicate KilledAt(ss: seq<State>, sts: seq<Step>, j: nat, n: nat, t: nat)
    requires n <= |sts| <= |ss|
  {
    && t < n && sts[t].Kill? && FirstWith(ss[t].ps, sts[t].pid, j)
    && forall i :: t < i < n ==> !(sts[i].Reap? && sts[i].z == j)
  }

  ghost predicate KilledSince(ss: seq<State>, sts: seq<Step>, j: nat, n: nat)
    requires n <= |sts| <= |ss|
  {
    exists t: nat :: KilledAt(ss, sts, j, n, t)
  }

  lemma KilledNext(ss: seq<State>, sts: seq<Step>, j: nat, n: nat)
    requires n < |sts| <= |ss|
    ensures KilledSince(ss, sts, j, n + 1)
      <==> (sts[n].Kill? && FirstWith(ss[n].ps, sts[n].pid, j))
           || (KilledSince(ss, sts, j, n) && !(sts[n].Reap? && sts[n].z == j))
  {
    if sts[n].Kill? && FirstWith(ss[n].ps, sts[n].pid, j) { assert KilledAt(ss, sts, j, n + 1, n); }
    if KilledSince(ss, sts, j, n) && !(sts[n].Reap? && sts[n].z == j) {
      var t: nat :| KilledAt(ss, sts, j, n, t);
      assert KilledAt(ss, sts, j, n + 1, t);
    }
    if KilledSince(ss, sts, j, n + 1) {
      var t: nat :| KilledAt(ss, sts, j, n + 1, t);
      assert t < n ==> KilledAt(ss, sts, j, n, t);
    }
  }

  lemma KillStep(s: State, st: Step, j: nat)
    requires Inv(s) && Can(s, st) && j < |s.ps|
    ensures j < |Do(s, st).ps|
    ensures Do(s, st).ps[j].killed
      <==> (st.Kill? && FirstWith(s.ps, st.pid, j)) || (s.ps[j].killed && !(st.Reap? && st.z == j))
  {
    if ByFork(st) { assert EntryOk(s, s.cpus[st.c]); }
    if st.Reap? { assert EntryOk(s, st.z); }
  }

  /** In every run an entry is marked killed exactly when some kill has found it, in use or not, and it
      has not been reaped since. */
  lemma {:induction false} KilledIff(ss: seq<State>, sts: seq<Step>, j: nat, n: nat)
    requires Behaviour(ss, sts) && n <= |sts| && j < |ss[0].ps|
    ensures j < |ss[n].ps| && (ss[n].ps[j].killed <==> KilledSince(ss, sts, j, n))
  {
    if n > 0 {
      KilledIff(ss, sts, j, n - 1);
      BehaviourInv(ss, sts, n - 1);
      assert Goes(ss[n - 1], sts[n - 1], ss[n]);
      KillStep(ss[n - 1], sts[n - 1], j);
      KilledNext(ss, sts, j, n - 1);
    }
  }

  /** kill(pid) marks a free entry exactly when no entry in use has the pid and a free one does: 0, or
      the pid that a failed fork left behind. */
  lemma KillHitsFreeIff(s: State, pid: nat)
    requires Inv(s)
    ensures var j := FirstPid(s.ps, pid, 0);
      (j < |s.ps| && s.ps[j].state == UNUSED)
      <==> (exists i :: 0 <= i < |s.ps| && s.ps[i].state == UNUSED && s.ps[i].pid == pid)
           && (forall i :: 0 <= i < |s.ps| && s.ps[i].state != UNUSED ==> s.ps[i].pid != pid)
  {
    var j := FirstPid(s.ps, pid, 0);
    if j < |s.ps| {
      forall i | 0 <= i < |s.ps| && s.ps[i].state != UNUSED && i != j
        ensures s.ps[i].pid != pid
      {
        assert PairOk(s, i, j);
      }
    }
  }

  /** The ways in which free entry j comes to be marked: a kill whose first match it is, or a failed
      fork that gives it back marked. */
  predicate Stains(s: State, st: Step, j: nat) {
    && Can(s, st) && j < |s.ps|
    && ((st.Kill? && FirstPid(s.ps, st.pid, 0) == j && s.ps[j].state == UNUSED)
        || (st.ForkFail? && s.ps[s.cpus[st.c]].forking == j && s.ps[j].killed))
  }

  /** Entry j was marked before step n and has not been allocated since. */
  ghost predicate Stained(ss: seq<State>, sts: seq<Step>, j: nat, n: nat)
    requires n <= |sts| <= |ss|
  {
    exists t: nat :: StainedAt(ss, sts, j, n, t)
  }

  ghost predicate StainedAt(ss: seq<State>, sts: seq<Step>, j: nat, n: nat, t: nat)
    requires n <= |sts| <= |ss|
  {
    t < n && Stains(ss[t], sts[t], j) && forall i :: t < i < n ==> !Allocates(sts[i], j)
  }

  predicate Allocates(st: Step, j: nat) { st.Alloc? && st.j == j }

  /** What a step does to the mark of an entry that is free before or after it. */
  ghost predicate MarkedBy(s: State, st: Step, t: State, j: nat)
    requires j < |s.ps| && j < |t.ps|
  {
    && (Stains(s, st, j) ==> t.ps[j].state == UNUSED && t.ps[j].killed)
    && (s.ps[j].state == UNUSED ==> (t.ps[j].state == UNUSED <==> !Allocates(st, j)))
    && (s.ps[j].state == UNUSED && t.ps[j].state == UNUSED ==> (t.ps[j].killed <==> s.ps[j].killed || Stains(s, st, j)))
    && (s.ps[j].state != UNUSED && t.ps[j].state == UNUSED ==> (t.ps[j].killed <==> Stains(s, st, j)))
    && (Allocates(st, j) ==> s.ps[j].state == UNUSED)
  }

  lemma ForkMarks(s: State, st: Step, j: nat)
    requires Inv(s) && Can(s, st) && ByFork(st) && j < |s.ps|
    ensures j < |Do(s, st).ps| && MarkedBy(s, st, Do(s, st), j)
  {
    var p := s.cpus[st.c];
    assert EntryOk(s, j) && EntryOk(s, p);
    if !st.Alloc? { assert EntryOk(s, s.ps[p].forking); }
  }

  lemma OtherMarks(s: State, st: Step, j: nat)
    requires Inv(s) && Can(s, st) && !ByFork(st) && j < |s.ps|
    ensures j < |Do(s, st).ps| && MarkedBy(s, st, Do(s, st), j)
  {
    assert EntryOk(s, j);
    if st.Exit? || ByWait(st) { assert EntryOk(s, s.cpus[st.c]); }
  }

  lemma FreeStep(s: State, st: Step, j: nat)
    requires Inv(s) && Can(s, st) && j < |s.ps|
    ensures j < |Do(s, st).ps| && MarkedBy(s, st, Do(s, st), j)
  {
    if ByFork(st) { ForkMarks(s, st, j); } else { OtherMarks(s, st, j); }
  }

  lemma StainedStep(ss: seq<State>, sts: seq<Step>, j: nat, n: nat)
    requires n < |sts| <= |ss|
    ensures Stained(ss, sts, j, n + 1)
      <==> Stains(ss[n], sts[n], j) || (Stained(ss, sts, j, n) && !Allocates(sts[n], j))
  {
    if Stains(ss[n], sts[n], j) { assert StainedAt(ss, sts, j, n + 1, n); }
    if Stained(ss, sts, j, n) && !Allocates(sts[n], j) {
      var t: nat :| StainedAt(ss, sts, j, n, t);
      assert StainedAt(ss, sts, j, n + 1, t);
    }
    if Stained(ss, sts, j, n + 1) && !Stains(ss[n], sts[n], j) {
      var t: nat :| StainedAt(ss, sts, j, n + 1, t);
      assert StainedAt(ss, sts, j, n, t);
    }
  }

  lemma {:induction false} StainedIff(ss: seq<State>, sts: seq<Step>, j: nat, n: nat)
    requires Behaviour(ss, sts) && n <= |sts| && j < |ss[0].ps|
    ensures j < |ss[n].ps|
    ensures Stained(ss, sts, j, n) <==> ss[n].ps[j].state == UNUSED && ss[n].ps[j].killed
  {
    if n > 0 {
      StainedIff(ss, sts, j, n - 1);
      BehaviourInv(ss, sts, n - 1);
      assert Goes(ss[n - 1], sts[n - 1], ss[n]);
      FreeStep(ss[n - 1], sts[n - 1], j);
      StainedStep(ss, sts, j, n - 1);
    }
  }

  /** In every run a new process starts out killed exactly when its entry, while free, was some kill's
      first match, or was given back marked by a failed fork, and has not been allocated since. */
  lemma StartsKilledIff(ss: seq<State>, sts: seq<Step>, n: nat)
    requires Behaviour(ss, sts) && n < |sts| && sts[n].Alloc?
    ensures var j := sts[n].j; j < |ss[n + 1].ps| && (ss[n + 1].ps[j].killed <==> Stained(ss, sts, j, n))
  {
    SizesStay(ss, sts, n);
    assert Goes(ss[n], sts[n], ss[n + 1]);
    StainedIff(ss, sts, sts[n].j, n);
    BehaviourInv(ss, sts, n);
    assert EntryOk(ss[n], ss[n].cpus[sts[n].c]);
  }

  lemma {:induction false} SizesStay(ss: seq<State>, sts: seq<Step>, n: nat)
    requires Behaviour(ss, sts) && n <= |sts|
    ensures |ss[n].ps| == |ss[0].ps|
  {
    if n > 0 {
      SizesStay(ss, sts, n - 1);
      BehaviourInv(ss, sts, n - 1);
      assert Goes(ss[n - 1], sts[n - 1], ss[n]);
      StepRest(ss[n - 1], sts[n - 1]);
    }
  }

  // One CPU, init in entry 0 and entry 1.
  const INIT := Proc(RUNNING, 1, -1, NoChan, false, true, -1, Plain)

  function Shot(p: Proc, q: Proc, cpu: int, lock: int, nextpid: nat): State {
    State([p, q], [cpu], lock, 0, nextpid, [])
  }

  function Spare(state: PState, pid: nat, killed: bool): Proc { Proc(state, pid, -1, NoChan, killed, false, -1, Plain) }

  lemma Extend(ss: seq<State>, sts: seq<Step>, st: Step, t: State) returns (ss': seq<State>, sts': seq<Step>)
    requires Behaviour(ss, sts) && Can(ss[|sts|], st) && t == Do(ss[|sts|], st)
    ensures Behaviour(ss', sts') && sts' == sts + [st] && ss' == ss + [t]
  {
    ss', sts' := ss + [t], sts + [st];
    assert Goes(ss[|sts|], st, t);
  }

  /** init comes to run. */
  lemma InitRuns() returns (ss: seq<State>, sts: seq<Step>)
    ensures Behaviour(ss, sts) && |sts| == 3 && ss[3] == Shot(INIT, Spare(UNUSED, 0, false), 0, -1, 2)
  {
    var ready, free := INIT.(state := RUNNABLE), Spare(UNUSED, 0, false);
    ss, sts := [Shot(ready, free, -1, -1, 2)], [];
    ss, sts := Extend(ss, sts, SchedTake(0), Shot(ready, free, -1, 0, 2));
    ss, sts := Extend(ss, sts, Dispatch(0, 0), Shot(INIT, free, 0, 0, 2));
    ss, sts := Extend(ss, sts, Resume(0), Shot(INIT, free, 0, -1, 2));
  }

  /** kill(0) matches a free entry, and the next fork's child starts out killed. */
  lemma KillZeroRun() returns (ss: seq<State>, sts: seq<Step>)
    ensures Behaviour(ss, sts) && |sts| == 5 && sts[3] == Kill(0, 0) && sts[4] == Alloc(0, 1) && ss[5].ps[1].killed
  {
    ss, sts := InitRuns();
    ss, sts := Extend(ss, sts, Kill(0, 0), Shot(INIT, Spare(UNUSED, 0, true), 0, -1, 2));
    ss, sts := Extend(ss, sts, Alloc(0, 1), Shot(INIT.(forking := 1), Spare(EMBRYO, 2, true), 0, -1, 3));
  }

  /** A failed fork leaves its pid behind; a kill of that pid marks the free entry for the next child. */
  lemma StalePidRun() returns (ss: seq<State>, sts: seq<Step>)
    ensures Behaviour(ss, sts) && |sts| == 7 && sts[4] == ForkFail(0) && sts[5] == Kill(0, 2) && sts[6] == Alloc(0, 1)
    ensures ss[7].ps[1].killed && ss[7].ps[1].pid == 3
  {
    ss, sts := InitRuns();
    ss, sts := Extend(ss, sts, Alloc(0, 1), Shot(INIT.(forking := 1), Spare(EMBRYO, 2, false), 0, -1, 3));
    ss, sts := Extend(ss, sts, ForkFail(0), Shot(INIT, Spare(UNUSED, 2, false), 0, -1, 3));
    ss, sts := Extend(ss, sts, Kill(0, 2), Shot(INIT, Spare(UNUSED, 2, true), 0, -1, 3));
    ss, sts := Extend(ss, sts, Alloc(0, 1), Shot(INIT.(forking := 1), Spare(EMBRYO, 3, true), 0, -1, 4));
  }

  // ---------- the scans ----------

  predicate ZombieBelow(ps: seq<Proc>, p: int, n: int) {
    exists z :: 0 <= z < n && z < |ps| && ps[z].parent == p && ps[z].state == ZOMBIE
  }

  /** exit's table after its loop has passed the first n entries. */
  ghost predicate PartExited(ps: seq<Proc>, p: nat, init: nat, n: int, r: seq<Proc>)
    requires p < |ps|
  {
    |r| == |ps| && forall i :: 0 <= i < |ps| ==> r[i] == ps[i].(
      parent := if i < n && ps[i].parent == p then init else ps[i].parent,
      state := if AsleepOn(ps[i], OnProc(ps[p].parent)) || (AsleepOn(ps[i], OnProc(init)) && ZombieBelow(ps, p, n))
               then RUNNABLE else ps[i].state)
  }

  /** ptable.proc with the loops that proc.c runs over it under ptable.lock. */
  class Table {
    var proc: array<Proc>

    constructor (proc: array<Proc>)
      ensures this.proc == proc
    {
      this.proc := proc;
    }

    method Wakeup1(ch: Chan)
      modifies proc
      ensures proc[..] == Roused(old(proc[..]), ch)
    {
      var i := 0;
      while i < proc.Length
        invariant 0 <= i <= proc.Length
        invariant forall k :: 0 <= k < i ==> proc[k] == Roused(old(proc[..]), ch)[k]
        invariant forall k :: i <= k < proc.Length ==> proc[k] == old(proc[k])
      {
        if proc[i].state == SLEEPING && proc[i].chan == ch { proc[i] := proc[i].(state := RUNNABLE); }
        i := i + 1;
      }
    }

    /** One turn of exit's loop. */
    method PassOn(p: nat, init: nat, i: nat, ghost ps: seq<Proc>)
      requires p < |ps| == proc.Length && i < proc.Length && PartExited(ps, p, init, i, proc[..]) && p != init
      modifies proc
      ensures PartExited(ps, p, init, i + 1, proc[..])
    {
      assert proc[..][i] == proc[i];
      assert ZombieBelow(ps, p, i + 1) <==> ZombieBelow(ps, p, i) || (ps[i].parent == p && ps[i].state == ZOMBIE);
      if proc[i].parent == p {
        ghost var r := proc[..];
        proc[i] := proc[i].(parent := init);
        assert proc[..] == r[i := r[i].(parent := init)];
        if proc[i].state == ZOMBIE { Wakeup1(OnProc(init)); }
      }
    }

    /** exit from its acquire to the point where it calls sched. */
    method ExitSection(p: nat, init: nat)
      requires p < proc.Length && p != init && proc[p].state == RUNNING
      modifies proc
      ensures proc[..] == Exited(old(proc[..]), p, init)
    {
      ghost var ps := proc[..];
      Wakeup1(OnProc(proc[p].parent));
      var i := 0;
      while i < proc.Length
        invariant 0 <= i <= proc.Length && PartExited(ps, p, init, i, proc[..])
      {
        PassOn(p, init, i, ps);
        i := i + 1;
      }
      assert ZombieBelow(ps, p, i) <==> HasZombie(ps, p);
      ghost var r := proc[..];
      proc[p] := proc[p].(state := ZOMBIE);
      assert proc[..] == r[p := r[p].(state := ZOMBIE)];
    }

    /** wait's scan: the first zombie child, or whether there are children at all. */
    method WaitScan(p: nat) returns (z: int, havekids: bool)
      requires p < proc.Length
      ensures z == -1 <==> !HasZombie(proc[..], p)
      ensures z != -1 ==> 0 <= z < proc.Length && proc[z].parent == p && proc[z].state == ZOMBIE
      ensures z == -1 ==> (havekids <==> HasKid(proc[..], p))
    {
      havekids := false;
      var i := 0;
      while i < proc.Length
        invariant 0 <= i <= proc.Length
        invariant forall k :: 0 <= k < i && proc[k].parent == p ==> proc[k].state != ZOMBIE
        invariant havekids <==> exists k :: 0 <= k < i && proc[k].parent == p
      {
        if proc[i].parent == p {
          havekids := true;
          if proc[i].state == ZOMBIE {
            assert proc[..][i] == proc[i];
            return i, true;
          }
        }
        i := i + 1;
      }
      z := -1;
      if havekids {
        var k :| 0 <= k < i && proc[k].parent == p;
        assert proc[..][k].parent == p;
      }
    }

    /** kill: marks the first entry with the pid and makes it runnable if it sleeps; -1 if there is none. */
    method Kill(pid: nat) returns (r: int)
      modifies proc
      ensures proc[..] == Killed(old(proc[..]), pid)
      ensures forall i: nat :: i < proc.Length ==>
        if FirstWith(old(proc[..]), pid, i)
        then proc[i].killed && proc[i] == old(proc[i]).(killed := true, state := proc[i].state) &&
          proc[i].state == if old(proc[i]).state == SLEEPING then RUNNABLE else old(proc[i]).state
        else proc[i] == old(proc[i])
      ensures r == if exists i :: 0 <= i < proc.Length && old(proc[i]).pid == pid then 0 else -1
    {
      var i := 0;
      while i < proc.Length
        invariant 0 <= i <= proc.Length && proc[..] == old(proc[..])
        invariant forall k :: 0 <= k < i ==> proc[k].pid != pid
      {
        if proc[i].pid == pid {
          ghost var ps := proc[..];
          assert FirstPid(ps, pid, 0) == i;
          proc[i] := proc[i].(killed := true);
          if proc[i].state == SLEEPING { proc[i] := proc[i].(state := RUNNABLE); }
          assert proc[..] == ps[i := proc[i]];
          return 0;
        }
        i := i + 1;
      }
      assert FirstPid(proc[..], pid, 0) == i;
      r := -1;
    }

    /** allocproc's scan: the first unused entry. */
    method AllocScan() returns (j: int)
      ensures j == -1 <==> forall k :: 0 <= k < proc.Length ==> proc[k].state != UNUSED
      ensures j != -1 ==> 0 <= j < proc.Length && proc[j].state == UNUSED
      ensures j != -1 ==> forall k :: 0 <= k < j ==> proc[k].state != UNUSED
    {
      j := 0;
      while j < proc.Length
        invariant 0 <= j <= proc.Length && forall k :: 0 <= k < j ==> proc[k].state != UNUSED
      {
        if proc[j].state == UNUSED { return; }
        j := j + 1;
      }
      j := -1;
    }
  }
}
