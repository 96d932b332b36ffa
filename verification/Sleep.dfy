/** Sleep and wakeup (proc.c), and sleep-locks built on them (sleeplock.c), for any number of
    processes and any interleaving.  One step is one lock operation or one stretch under
    ptable.lock.  A process that sleeps gives ptable.lock to a scheduler, and a process that is
    run gets it from one.

    The data that lk protects is reduced to whether the awaited condition holds. */
module Sleep {

  /** Where a process is in
        acquire(lk); while(!cond) sleep(chan, lk); change cond; release(lk); (waiter)
        acquire(lk); change cond; wakeup(chan); release(lk);                (waker)
      A waker may also release lk before it calls wakeup; `held` says that it has not. */
  datatype PC =
    | Out
    | WantLk | Testing | Using | WantPt | Both | Dozing | Sleeping | Woken | Back | Leaving
    | WakeLk | Changing | Notify(held: bool) | Scanning(held: bool) | Scanned(held: bool) | Dropping

  datatype Pt = Free | Proc(p: nat) | Sched

  datatype Lk = Open | By(p: nat)

  /** `guarded` is false when sleep is called with a null lock: then nobody takes lk. */
  datatype State = State(guarded: bool, cond: bool, lk: Lk, pt: Pt, pcs: seq<PC>)

  datatype Step =
    | StartWait(p: nat) | LockWait(p: nat) | Test(p: nat) | Use(p: nat, after: bool) | TakePt(p: nat) | DropLk(p: nat)
    | Doze(p: nat) | Run(p: nat) | Resume(p: nat) | Leave(p: nat)
    | StartWake(p: nat) | LockWake(p: nat) | Change(p: nat, after: bool, early: bool)
    | TakePtToWake(p: nat) | Wakeup(p: nat) | DropPt(p: nat) | Drop(p: nat)
    | SchedTake | SchedDrop | Kill(p: nat)

  // ---------- the steps ----------

  predicate At(s: State, p: nat, pc: PC) { p < |s.pcs| && s.pcs[p] == pc }

  predicate LkFree(s: State) { s.guarded ==> s.lk == Open }

  predicate Can(s: State, st: Step) {
    match st
    case StartWait(p) => At(s, p, Out)
    case LockWait(p) => At(s, p, WantLk) && LkFree(s)
    case Test(p) => At(s, p, Testing)
    case Use(p, after) => At(s, p, Using)
    case TakePt(p) => At(s, p, WantPt) && s.pt == Free
    case DropLk(p) => At(s, p, Both)
    case Doze(p) => At(s, p, Dozing)
    case Run(p) => At(s, p, Woken) && s.pt == Sched
    case Resume(p) => At(s, p, Back)
    case Leave(p) => At(s, p, Leaving)
    case StartWake(p) => At(s, p, Out)
    case LockWake(p) => At(s, p, WakeLk) && LkFree(s)
    case Change(p, after, early) => At(s, p, Changing)
    case TakePtToWake(p) => p < |s.pcs| && s.pcs[p].Notify? && s.pt == Free
    case Wakeup(p) => p < |s.pcs| && s.pcs[p].Scanning?
    case DropPt(p) => p < |s.pcs| && s.pcs[p].Scanned?
    case Drop(p) => At(s, p, Dropping)
    case SchedTake => s.pt == Free
    case SchedDrop => s.pt == Sched
    case Kill(p) => At(s, p, Sleeping) && s.pt == Free
  }

  /** wakeup1: every process asleep on the channel becomes runnable. */
  function Roused(pcs: seq<PC>): seq<PC> {
    seq(|pcs|, i requires 0 <= i < |pcs| => if pcs[i] == Sleeping then Woken else pcs[i])
  }

  function Do(s: State, st: Step): State
    requires Can(s, st)
  {
    match st
    case StartWait(p) => s.(pcs := s.pcs[p := WantLk])
    case LockWait(p) => s.(pcs := s.pcs[p := Testing], lk := By(p))
    case Test(p) => s.(pcs := s.pcs[p := if s.cond then Using else WantPt])
    case Use(p, after) => s.(pcs := s.pcs[p := Leaving], cond := after)
    case TakePt(p) => s.(pcs := s.pcs[p := Both], pt := Proc(p))
    case DropLk(p) => s.(pcs := s.pcs[p := Dozing], lk := Open)
    case Doze(p) => s.(pcs := s.pcs[p := Sleeping], pt := Sched)
    case Run(p) => s.(pcs := s.pcs[p := Back], pt := Proc(p))
    case Resume(p) => s.(pcs := s.pcs[p := WantLk], pt := Free)
    case Leave(p) => s.(pcs := s.pcs[p := Out], lk := Open)
    case StartWake(p) => s.(pcs := s.pcs[p := WakeLk])
    case LockWake(p) => s.(pcs := s.pcs[p := Changing], lk := By(p))
    case Change(p, after, early) =>
      if early then s.(pcs := s.pcs[p := Notify(false)], cond := after, lk := Open)
      else s.(pcs := s.pcs[p := Notify(true)], cond := after)
    case TakePtToWake(p) => s.(pcs := s.pcs[p := Scanning(s.pcs[p].held)], pt := Proc(p))
    case Wakeup(p) => s.(pcs := Roused(s.pcs)[p := Scanned(s.pcs[p].held)])
    case DropPt(p) => s.(pcs := s.pcs[p := if s.pcs[p].held then Dropping else Out], pt := Free)
    case Drop(p) => s.(pcs := s.pcs[p := Out], lk := Open)
    case SchedTake => s.(pt := Sched)
    case SchedDrop => s.(pt := Free)
    case Kill(p) => s.(pcs := s.pcs[p := Woken])
  }

  /** What a step does to the condition, to ptable.lock and to the processes that do not take it. */
  lemma StepEffects(s: State, st: Step, q: nat)
    requires Can(s, st) && q < |s.pcs|
    ensures Do(s, st).cond == if st.Use? || st.Change? then st.after else s.cond
    ensures (st.TakePt? || st.Run? || st.TakePtToWake? ==> Do(s, st).pt == Proc(st.p))
      && (st.Doze? || st.SchedTake? ==> Do(s, st).pt == Sched)
      && (st.Resume? || st.DropPt? || st.SchedDrop? ==> Do(s, st).pt == Free)
    ensures q < |Do(s, st).pcs|
    ensures st.Kill? && st.p == q ==> Do(s, st).pcs[q] == Woken
    ensures !(st.SchedTake? || st.SchedDrop?) && st.p != q ==>
      Do(s, st).pcs[q] == if st.Wakeup? && s.pcs[q] == Sleeping then Woken else s.pcs[q]
  {
  }

  predicate Initial(s: State) {
    s.lk == Open && s.pt == Free && forall p :: 0 <= p < |s.pcs| ==> s.pcs[p] == Out
  }

  ghost predicate Goes(s: State, st: Step, t: State) { Can(s, st) && t == Do(s, st) }

  ghost predicate Behaviour(ss: seq<State>, sts: seq<Step>) {
    && |ss| == |sts| + 1 && Initial(ss[0])
    && forall i :: 0 <= i < |sts| ==> Goes(ss[i], sts[i], ss[i + 1])
  }

  // ---------- the invariant ----------

  predicate HoldsLk(pc: PC) {
    || pc == Testing || pc == Using || pc == WantPt || pc == Both || pc == Leaving || pc == Changing || pc == Dropping
    || ((pc.Notify? || pc.Scanning? || pc.Scanned?) && pc.held)
  }

  predicate HoldsPt(pc: PC) {
    pc == Both || pc == Dozing || pc == Back || pc.Scanning? || pc.Scanned?
  }

  /** Asleep on the channel, or past the point of no return. */
  predicate Down(pc: PC) { pc == Dozing || pc == Sleeping }

  /** Has changed the condition and not yet woken anybody. */
  predicate OwesWakeup(pc: PC) { pc.Notify? || pc.Scanning? }

  /** q holds exactly the locks its place in the code says, and the condition is what q read until q
      changes it or lets lk go. */
  predicate LocksOk(s: State, q: nat) {
    q < |s.pcs| ==>
      && (HoldsLk(s.pcs[q]) <==> s.lk == By(q)) && (HoldsPt(s.pcs[q]) <==> s.pt == Proc(q))
      && (s.pcs[q] == WantPt || s.pcs[q] == Both ==> !s.cond) && (s.pcs[q] == Using ==> s.cond)
  }

  /** Whoever is down while the condition holds is owed a wakeup. */
  ghost predicate DebtOk(s: State) {
    s.cond && (exists p :: 0 <= p < |s.pcs| && Down(s.pcs[p])) ==>
      exists q :: 0 <= q < |s.pcs| && OwesWakeup(s.pcs[q])
  }

  ghost predicate Inv(s: State) { (forall q: nat :: LocksOk(s, q)) && DebtOk(s) }

  predicate BySched(st: Step) { st.SchedTake? || st.SchedDrop? }

  predicate ByWaiter(st: Step) {
    || st.StartWait? || st.LockWait? || st.Test? || st.Use? || st.TakePt? || st.DropLk? || st.Doze? || st.Run?
    || st.Resume?
    || st.Leave?
  }

  lemma StepLocksWaiter(s: State, st: Step)
    requires s.guarded && Can(s, st) && ByWaiter(st) && LocksOk(s, st.p)
    ensures LocksOk(Do(s, st), st.p)
  {
  }

  lemma StepLocksWaker(s: State, st: Step)
    requires s.guarded && Can(s, st) && !BySched(st) && !ByWaiter(st) && LocksOk(s, st.p)
    ensures LocksOk(Do(s, st), st.p)
  {
  }

  lemma StepLocksOther(s: State, st: Step, q: nat)
    requires s.guarded && Can(s, st) && LocksOk(s, q) && (!BySched(st) ==> LocksOk(s, st.p) && q != st.p)
    ensures LocksOk(Do(s, st), q)
  {
    if !st.Wakeup? { assert q < |s.pcs| ==> Do(s, st).pcs[q] == s.pcs[q]; }
  }

  lemma StepKeepsInv(s: State, st: Step)
    requires s.guarded && Inv(s) && Can(s, st)
    ensures Inv(Do(s, st)) && Do(s, st).guarded
  {
    var s' := Do(s, st);
    forall q: nat ensures LocksOk(s', q) {
      if !BySched(st) && q == st.p {
        if ByWaiter(st) { StepLocksWaiter(s, st); } else { StepLocksWaker(s, st); }
      } else {
        StepLocksOther(s, st, q);
      }
    }
    if st.Wakeup? {
      forall q | 0 <= q < |s'.pcs| ensures !Down(s'.pcs[q]) {
        assert LocksOk(s, q) && LocksOk(s, st.p);
      }
    } else if s'.cond && !BySched(st) {
      if q :| 0 <= q < |s'.pcs| && Down(s'.pcs[q]) { DebtRemains(s, st, q); }
    }
  }

  /** Whoever sleeps while the condition holds is owed a wakeup, before and after a step. */
  lemma DebtRemains(s: State, st: Step, q: nat)
    requires s.guarded && Inv(s) && Can(s, st) && !st.Wakeup? && !BySched(st)
    requires var s' := Do(s, st); s'.cond && q < |s'.pcs| && Down(s'.pcs[q])
    ensures var s' := Do(s, st); exists r :: 0 <= r < |s'.pcs| && OwesWakeup(s'.pcs[r])
  {
    var s', p := Do(s, st), st.p;
    if st.Change? {
      assert OwesWakeup(s'.pcs[p]);
    } else {
      assert LocksOk(s, p);
      assert s.cond && !st.DropLk? && Down(s.pcs[q]);
      var r :| 0 <= r < |s.pcs| && OwesWakeup(s.pcs[r]);
      assert OwesWakeup(s'.pcs[r]);
    }
  }

  lemma {:induction false} BehaviourInv(ss: seq<State>, sts: seq<Step>, i: nat)
    requires Behaviour(ss, sts) && ss[0].guarded && i <= |sts|
    ensures Inv(ss[i]) && ss[i].guarded
  {
    if i > 0 {
      BehaviourInv(ss, sts, i - 1);
      assert Goes(ss[i - 1], sts[i - 1], ss[i]);
      StepKeepsInv(ss[i - 1], sts[i - 1]);
    }
  }

  /** Nobody sleeps, or is bound to, on a condition that holds, unless a waker that has changed it
      is still on its way to wakeup. */
  ghost predicate NoneForgotten(s: State) {
    s.cond && (forall q :: 0 <= q < |s.pcs| ==> !OwesWakeup(s.pcs[q])) ==>
      forall p :: 0 <= p < |s.pcs| ==> !Down(s.pcs[p]) && s.pcs[p] != WantPt && s.pcs[p] != Both
  }

  /** No lost wakeup, over every behaviour with a real lock. */
  lemma NoLostWakeup(ss: seq<State>, sts: seq<Step>, i: nat)
    requires Behaviour(ss, sts) && ss[0].guarded && i <= |sts|
    ensures NoneForgotten(ss[i])
    // in particular, when wakers keep lk until they have called wakeup and lk is free
    ensures ss[i].cond && ss[i].lk == Open &&
      (forall q :: 0 <= q < |ss[i].pcs| ==> ss[i].pcs[q] != Notify(false) && ss[i].pcs[q] != Scanning(false))
      ==> forall p :: 0 <= p < |ss[i].pcs| ==> ss[i].pcs[p] != Sleeping
  {
    BehaviourInv(ss, sts, i);
    var s := ss[i];
    if s.cond && forall q :: 0 <= q < |s.pcs| ==> !OwesWakeup(s.pcs[q]) {
      forall p | 0 <= p < |s.pcs| ensures !Down(s.pcs[p]) && s.pcs[p] != WantPt && s.pcs[p] != Both {
        assert LocksOk(s, p);
      }
    }
    if s.lk == Open && forall q :: 0 <= q < |s.pcs| ==> s.pcs[q] != Notify(false) && s.pcs[q] != Scanning(false) {
      forall q | 0 <= q < |s.pcs| ensures !OwesWakeup(s.pcs[q]) { assert LocksOk(s, q); }
    }
  }

  ghost predicate Reachable(s: State) {
    exists ss: seq<State>, sts: seq<Step> :: Behaviour(ss, sts) && ss[|sts|] == s
  }

  lemma ReachStep(s: State, st: Step)
    requires Reachable(s) && Can(s, st)
    ensures Reachable(Do(s, st))
  {
    var ss: seq<State>, sts: seq<Step> :| Behaviour(ss, sts) && ss[|sts|] == s;
    assert Goes(s, st, Do(s, st));
    assert Behaviour(ss + [Do(s, st)], sts + [st]);
  }

  lemma Hop(s: State, st: Step, s': State)
    requires Reachable(s) && Can(s, st) && Do(s, st) == s'
    ensures Reachable(s')
  {
    ReachStep(s, st);
  }

  /** Without lk a process can test the condition and stop just short of sleeping. */
  lemma NullLockTests()
    ensures Reachable(State(false, false, By(0), Free, [WantPt, Out]))
  {
    var s0 := State(false, false, Open, Free, [Out, Out]);
    assert Behaviour([s0], []);
    var s1 := State(false, false, Open, Free, [WantLk, Out]);
    var s2 := State(false, false, By(0), Free, [Testing, Out]);
    Hop(s0, StartWait(0), s1);
    Hop(s1, LockWait(0), s2);
    Hop(s2, Test(0), State(false, false, By(0), Free, [WantPt, Out]));
  }

  /** Meanwhile a waker changes the condition and comes to wakeup. */
  lemma NullLockChanges()
    ensures Reachable(State(false, true, By(1), Proc(1), [WantPt, Scanning(true)]))
  {
    NullLockTests();
    var s3 := State(false, false, By(0), Free, [WantPt, Out]);
    var s4 := State(false, false, By(0), Free, [WantPt, WakeLk]);
    var s5 := State(false, false, By(1), Free, [WantPt, Changing]);
    var s6 := State(false, true, By(1), Free, [WantPt, Notify(true)]);
    Hop(s3, StartWake(1), s4);
    Hop(s4, LockWake(1), s5);
    Hop(s5, Change(1, true, false), s6);
    Hop(s6, TakePtToWake(1), State(false, true, By(1), Proc(1), [WantPt, Scanning(true)]));
  }

  /** wakeup finds nobody asleep, and then the process that saw the old condition goes down. */
  lemma NullLockDozes()
    ensures Reachable(State(false, true, Open, Proc(0), [Dozing, Dropping]))
  {
    NullLockChanges();
    var s7 := State(false, true, By(1), Proc(1), [WantPt, Scanning(true)]);
    var s8 := State(false, true, By(1), Proc(1), [WantPt, Scanned(true)]);
    var s9 := State(false, true, By(1), Free, [WantPt, Dropping]);
    var s10 := State(false, true, By(1), Proc(0), [Both, Dropping]);
    assert Roused(s7.pcs) == s7.pcs;
    Hop(s7, Wakeup(1), s8);
    Hop(s8, DropPt(1), s9);
    Hop(s9, TakePt(0), s10);
    Hop(s10, DropLk(0), State(false, true, Open, Proc(0), [Dozing, Dropping]));
  }

  /** With a null lock, as sys_sleep calls it, a wakeup can be lost. */
  lemma NullLockLosesWakeup()
    ensures exists s :: Reachable(s) && !s.guarded && !NoneForgotten(s)
  {
    NullLockDozes();
    var s := State(false, true, Open, Proc(0), [Dozing, Dropping]);
    assert Down(s.pcs[0]);
    assert Reachable(s) && !s.guarded && !NoneForgotten(s);
  }

  /** Wakeups are never lost in the machine exactly when there is a lock to sleep with. */
  lemma WakeupsKeptIff(guarded: bool)
    ensures (forall s :: Reachable(s) && s.guarded == guarded ==> NoneForgotten(s)) <==> guarded
  {
    if guarded {
      forall s | Reachable(s) && s.guarded ensures NoneForgotten(s) {
        var ss: seq<State>, sts: seq<Step> :| Behaviour(ss, sts) && ss[|sts|] == s;
        GuardedStays(ss, sts, |sts|);
        NoLostWakeup(ss, sts, |sts|);
      }
    } else {
      NullLockLosesWakeup();
    }
  }

  lemma {:induction false} GuardedStays(ss: seq<State>, sts: seq<Step>, i: nat)
    requires Behaviour(ss, sts) && i <= |sts|
    ensures ss[i].guarded == ss[0].guarded
  {
    if i > 0 {
      GuardedStays(ss, sts, i - 1);
      assert Goes(ss[i - 1], sts[i - 1], ss[i]);
    }
  }

  // ---------- sleep-locks ----------

  /** acquiresleep is a waiter for !locked that then sets locked; releasesleep is a waker, called
      by a holder, that clears it and wakes under lk.  `inside` is who holds the sleep-lock. */
  predicate Disciplined(inside: set<nat>, st: Step) {
    match st
    case Use(p, after) => !after
    case StartWake(p) => p in inside
    case Change(p, after, early) => after && !early
    case _ => true
  }

  function Inside(inside: set<nat>, st: Step): set<nat> {
    if st.Use? then inside + {st.p} else if st.Change? then inside - {st.p} else inside
  }

  ghost predicate LockRun(ss: seq<State>, sts: seq<Step>, ins: seq<set<nat>>) {
    && Behaviour(ss, sts) && ss[0].cond && |ins| == |ss| && ins[0] == {}
    && forall i :: 0 <= i < |sts| ==> Disciplined(ins[i], sts[i]) && ins[i + 1] == Inside(ins[i], sts[i])
  }

  /** Wakers hold the sleep-lock until they have cleared it, and lk until they have called wakeup. */
  predicate PlaceOk(pc: PC, p: nat, inside: set<nat>) {
    (pc == WakeLk || pc == Changing ==> p in inside) && pc != Notify(false) && pc != Scanning(false)
  }

  ghost predicate LockInv(s: State, inside: set<nat>) {
    && |inside| <= 1 && (s.cond <==> inside == {})
    && forall p: nat :: p < |s.pcs| ==> PlaceOk(s.pcs[p], p, inside)
  }

  lemma StepPlaces(s: State, inside: set<nat>, st: Step, p: nat)
    requires s.guarded && Inv(s) && Can(s, st) && Disciplined(inside, st) && LockInv(s, inside) && p < |s.pcs|
    ensures p < |Do(s, st).pcs| && PlaceOk(Do(s, st).pcs[p], p, Inside(inside, st))
  {
    assert PlaceOk(s.pcs[p], p, inside) && LocksOk(s, p);
    if st.Change? {
      OnlyOne(inside, st.p);
      assert PlaceOk(s.pcs[st.p], st.p, inside) && LocksOk(s, st.p);
    }
  }

  /** Whoever sets locked read it clear and has had lk since, so nobody is inside. */
  lemma StepKeepsLockInv(s: State, inside: set<nat>, st: Step)
    requires s.guarded && Inv(s) && Can(s, st) && Disciplined(inside, st) && LockInv(s, inside)
    ensures LockInv(Do(s, st), Inside(inside, st))
  {
    if st.Use? { assert LocksOk(s, st.p); }
    if st.Change? {
      assert PlaceOk(s.pcs[st.p], st.p, inside);
      OnlyOne(inside, st.p);
    }
    forall p: nat | p < |Do(s, st).pcs| ensures PlaceOk(Do(s, st).pcs[p], p, Inside(inside, st)) {
      StepPlaces(s, inside, st, p);
    }
  }

  lemma OnlyOne(inside: set<nat>, p: nat)
    requires |inside| <= 1 && p in inside
    ensures inside == {p} && inside - {p} == {}
  {
    assert |inside - {p}| == |inside| - 1;
    assert inside == (inside - {p}) + {p};
  }

  lemma {:induction false} LockRunInv(ss: seq<State>, sts: seq<Step>, ins: seq<set<nat>>, i: nat)
    requires LockRun(ss, sts, ins) && ss[0].guarded && i <= |sts|
    ensures LockInv(ss[i], ins[i])
  {
    if i > 0 {
      LockRunInv(ss, sts, ins, i - 1);
      BehaviourInv(ss, sts, i - 1);
      assert Goes(ss[i - 1], sts[i - 1], ss[i]);
      StepKeepsLockInv(ss[i - 1], ins[i - 1], sts[i - 1]);
    }
  }

  /** Sleep-locks are mutually exclusive, `locked` says whether one is held, and nobody sleeps on
      a free one once its spinlock is released. */
  lemma {:induction false} SleepLockSafe(ss: seq<State>, sts: seq<Step>, ins: seq<set<nat>>, i: nat)
    requires LockRun(ss, sts, ins) && ss[0].guarded && i <= |sts|
    ensures |ins[i]| <= 1 && (!ss[i].cond <==> ins[i] != {})
    ensures ss[i].cond && ss[i].lk == Open ==> forall p :: 0 <= p < |ss[i].pcs| ==> ss[i].pcs[p] != Sleeping
  {
    LockRunInv(ss, sts, ins, i);
    NoLostWakeup(ss, sts, i);
  }

  lemma LockStep(ss: seq<State>, sts: seq<Step>, ins: seq<set<nat>>, st: Step, t: State)
    returns (ss': seq<State>, sts': seq<Step>, ins': seq<set<nat>>)
    requires LockRun(ss, sts, ins) && Can(ss[|sts|], st) && t == Do(ss[|sts|], st) && Disciplined(ins[|sts|], st)
    ensures LockRun(ss', sts', ins') && ss' == ss + [t] && sts' == sts + [st] && ins' == ins + [Inside(ins[|sts|], st)]
  {
    ss', sts', ins' := ss + [t], sts + [st], ins + [Inside(ins[|sts|], st)];
    assert Goes(ss[|sts|], st, t);
  }

  /** Without the spinlock two processes read the lock free before either sets it. */
  lemma FirstReads() returns (ss: seq<State>, sts: seq<Step>, ins: seq<set<nat>>)
    ensures LockRun(ss, sts, ins) && !ss[0].guarded && |sts| == 3
    ensures ss[3] == State(false, true, By(0), Free, [Using, Out]) && ins[3] == {}
  {
    ss, sts, ins := [State(false, true, Open, Free, [Out, Out])], [], [{}];
    ss, sts, ins := LockStep(ss, sts, ins, StartWait(0), State(false, true, Open, Free, [WantLk, Out]));
    ss, sts, ins := LockStep(ss, sts, ins, LockWait(0), State(false, true, By(0), Free, [Testing, Out]));
    ss, sts, ins := LockStep(ss, sts, ins, Test(0), State(false, true, By(0), Free, [Using, Out]));
  }

  lemma BothRead() returns (ss: seq<State>, sts: seq<Step>, ins: seq<set<nat>>)
    ensures LockRun(ss, sts, ins) && !ss[0].guarded && |sts| == 6
    ensures ss[6] == State(false, true, By(1), Free, [Using, Using]) && ins[6] == {}
  {
    ss, sts, ins := FirstReads();
    ss, sts, ins := LockStep(ss, sts, ins, StartWait(1), State(false, true, By(0), Free, [Using, WantLk]));
    ss, sts, ins := LockStep(ss, sts, ins, LockWait(1), State(false, true, By(1), Free, [Using, Testing]));
    ss, sts, ins := LockStep(ss, sts, ins, Test(1), State(false, true, By(1), Free, [Using, Using]));
  }

  lemma BothInside() returns (ss: seq<State>, sts: seq<Step>, ins: seq<set<nat>>)
    ensures LockRun(ss, sts, ins) && !ss[0].guarded && |sts| == 8 && ins[8] == {0, 1}
  {
    ss, sts, ins := BothRead();
    ss, sts, ins := LockStep(ss, sts, ins, Use(0, false), State(false, false, By(1), Free, [Leaving, Using]));
    ss, sts, ins := LockStep(ss, sts, ins, Use(1, false), State(false, false, By(1), Free, [Leaving, Leaving]));
  }

  /** Sleep-locks exclude each other in all runs exactly when there is a spinlock to sleep with. */
  lemma ExclusionIff(guarded: bool)
    ensures (forall ss: seq<State>, sts, ins: seq<set<nat>>, i: nat ::
               LockRun(ss, sts, ins) && ss[0].guarded == guarded && i <= |sts| ==> |ins[i]| <= 1)
      <==> guarded
  {
    if guarded {
      forall ss: seq<State>, sts, ins: seq<set<nat>>, i: nat | LockRun(ss, sts, ins) && ss[0].guarded && i <= |sts|
        ensures |ins[i]| <= 1
      {
        SleepLockSafe(ss, sts, ins, i);
      }
    } else {
      var ss, sts, ins := BothInside();
      assert |{0 as nat, 1 as nat}| == 2;
      assert LockRun(ss, sts, ins) && ss[0].guarded == guarded && |ins[8]| == 2;
    }
  }
}
