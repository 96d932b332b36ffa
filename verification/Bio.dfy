/** The buffer cache (bget, bread, bwrite and brelse in bio.c, iderw as memide.c gives it, and
    log_write's pin in log.c) as steps of any number of concurrent calls.  A process that holds
    several buffers appears as several calls.  Every call is for ROOTDEV. */
module Bio {

  type Data = seq<int>

  const ROOTDEV := 1

  /** `holder` is the call that holds the buffer's sleep lock, -1 if none. */
  datatype Buf = Buf(dev: nat, block: nat, valid: bool, dirty: bool, refcnt: int, holder: int, data: Data)

  /** What a bread ... brelse call for block k is doing with buffer b. */
  datatype Call =
    | Idle
    | Waiting(b: nat, k: nat)                // bget chose b; at acquiresleep
    | Locked(b: nat, k: nat)                 // bget returned
    | Holding(b: nat, k: nat, edited: bool)  // bread returned; edited: changed and not yet logged or written
    | Leaving(b: nat, k: nat)                // brelse released the sleep lock

  /** `order` is the list from head.next on.  `latest` (the contents last logged or written), `stamp`
      (when a buffer's refcnt last fell to 0) and `clock` are auxiliary. */
  datatype State = State(bufs: seq<Buf>, order: seq<nat>, calls: seq<Call>, disk: seq<Data>,
                         latest: seq<Data>, stamp: seq<nat>, clock: nat)

  datatype Step =
    | Hit(c: nat, k: nat, b: nat)
    | Miss(c: nat, k: nat, b: nat, p: nat)   // p: b's position in the list
    | Lock(c: nat)
    | Fill(c: nat)
    | Edit(c: nat, data: Data)
    | LogWrite(c: nat)
    | Write(c: nat)
    | Unlock(c: nat)
    | Drop(c: nat, p: nat)

  predicate Caches(u: Buf, k: nat) { u.dev == ROOTDEV && u.block == k }

  predicate Free(u: Buf) { u.refcnt == 0 && !u.dirty }

  predicate Sized(s: State) { |s.stamp| == |s.bufs| == |s.order| && |s.latest| == |s.disk| }

  predicate Using(x: Call, b: nat) { !x.Idle? && x.b == b }

  predicate Keeps(x: Call) { x.Locked? || x.Holding? }

  ghost predicate Can(s: State, st: Step) {
    && Sized(s) && st.c < |s.calls|
    && var x := s.calls[st.c];
       match st
       case Hit(_, k, b) => x.Idle? && k < |s.disk| && b < |s.bufs| && Caches(s.bufs[b], k)
       case Miss(_, k, b, p) =>
         && x.Idle? && k < |s.disk| && b < |s.bufs| && (forall u :: u in s.bufs ==> !Caches(u, k))
         && p < |s.order| && s.order[p] == b && Free(s.bufs[b])
         && forall q :: p < q < |s.order| && s.order[q] < |s.bufs| ==> !Free(s.bufs[s.order[q]])
       case Lock(_) => x.Waiting? && x.b < |s.bufs| && s.bufs[x.b].holder == -1
       case Fill(_) => x.Locked? && x.b < |s.bufs| && x.k < |s.disk|
       case Edit(_, _) => x.Holding? && x.b < |s.bufs|
       case LogWrite(_) => x.Holding? && x.b < |s.bufs| && x.k < |s.latest|
       case Write(_) => x.Holding? && x.b < |s.bufs| && x.k < |s.disk|
       case Unlock(_) => x.Holding? && !x.edited && x.b < |s.bufs|
       case Drop(_, p) => x.Leaving? && x.b < |s.bufs| && p < |s.order| && s.order[p] == x.b
  }

  /** brelse's relinking: the buffer at position p moves to the front. */
  function Front(order: seq<nat>, p: nat): seq<nat>
    requires p < |order|
  {
    [order[p]] + order[..p] + order[p + 1..]
  }

  ghost function Do(s: State, st: Step): State
    requires Can(s, st)
  {
    var x, c := s.calls[st.c], st.c;
    match st
    case Hit(_, k, b) =>
      s.(bufs := s.bufs[b := s.bufs[b].(refcnt := s.bufs[b].refcnt + 1)], calls := s.calls[c := Waiting(b, k)])
    case Miss(_, k, b, _) =>
      s.(bufs := s.bufs[b := s.bufs[b].(dev := ROOTDEV, block := k, valid := false, dirty := false, refcnt := 1)],
         calls := s.calls[c := Waiting(b, k)])
    case Lock(_) => s.(bufs := s.bufs[x.b := s.bufs[x.b].(holder := c)], calls := s.calls[c := Locked(x.b, x.k)])
    case Fill(_) =>
      var u := s.bufs[x.b];
      s.(bufs := s.bufs[x.b := if u.valid then u else u.(data := s.disk[x.k], valid := true)],
         calls := s.calls[c := Holding(x.b, x.k, false)])
    case Edit(_, data) =>
      s.(bufs := s.bufs[x.b := s.bufs[x.b].(data := data)], calls := s.calls[c := x.(edited := true)])
    case LogWrite(_) =>
      s.(bufs := s.bufs[x.b := s.bufs[x.b].(dirty := true)], calls := s.calls[c := x.(edited := false)],
         latest := s.latest[x.k := s.bufs[x.b].data])
    case Write(_) =>
      s.(bufs := s.bufs[x.b := s.bufs[x.b].(dirty := false, valid := true)], calls := s.calls[c := x.(edited := false)],
         disk := s.disk[x.k := s.bufs[x.b].data], latest := s.latest[x.k := s.bufs[x.b].data])
    case Unlock(_) => s.(bufs := s.bufs[x.b := s.bufs[x.b].(holder := -1)], calls := s.calls[c := Leaving(x.b, x.k)])
    case Drop(_, p) =>
      var u := s.bufs[x.b].(refcnt := s.bufs[x.b].refcnt - 1);
      var t := s.(bufs := s.bufs[x.b := u], calls := s.calls[c := Idle]);
      if u.refcnt != 0 then t
      else t.(order := Front(s.order, p), stamp := s.stamp[x.b := s.clock], clock := s.clock + 1)
  }

  // ---------- reference counts ----------

  /** The calls among the first n that use buffer b. */
  function Users(calls: seq<Call>, b: nat, n: nat): nat
    requires n <= |calls|
  {
    if n == 0 then 0 else Users(calls, b, n - 1) + if Using(calls[n - 1], b) then 1 else 0
  }

  lemma {:induction false} UsersUpdate(calls: seq<Call>, c: nat, x: Call, b: nat, n: nat)
    requires c < |calls| && n <= |calls|
    ensures Users(calls[c := x], b, n)
      == Users(calls, b, n)
         + if c < n then (if Using(x, b) then 1 else 0) - (if Using(calls[c], b) then 1 else 0) else 0
  {
    if n > 0 { UsersUpdate(calls, c, x, b, n - 1); }
  }

  lemma {:induction false} NoUsers(calls: seq<Call>, b: nat, n: nat, c: nat)
    requires c < n <= |calls| && Users(calls, b, n) == 0
    ensures !Using(calls[c], b)
  {
    if c < n - 1 { NoUsers(calls, b, n - 1, c); }
  }

  // ---------- the invariant ----------

  ghost predicate BufOk(s: State, b: nat)
    requires Sized(s) && b < |s.bufs|
  {
    var u := s.bufs[b];
    && u.refcnt == Users(s.calls, b, |s.calls|)
    && (u.dirty ==> u.valid)
    && (u.holder != -1 ==> 0 <= u.holder < |s.calls| && Keeps(s.calls[u.holder]) && s.calls[u.holder].b == b)
    && (u.dev == ROOTDEV ==> u.block < |s.disk|)
    && (u.dev == ROOTDEV && u.valid && !Edited(s, u) ==> u.data == s.latest[u.block])
    && (u.dirty ==> u.dev == ROOTDEV)
  }

  /** The buffer is held by a call that has changed it since its last log_write or bwrite. */
  predicate Edited(s: State, u: Buf) {
    0 <= u.holder < |s.calls| && s.calls[u.holder].Holding? && s.calls[u.holder].edited
  }

  ghost predicate CallOk(s: State, c: nat)
    requires Sized(s) && c < |s.calls|
  {
    var x := s.calls[c];
    && (!x.Idle? ==> x.b < |s.bufs| && x.k < |s.disk| && Caches(s.bufs[x.b], x.k))
    && (Keeps(x) ==> s.bufs[x.b].holder == c)
    && (x.Holding? ==> s.bufs[x.b].valid)
  }

  /** A block no dirty buffer holds is up to date on disk. */
  ghost predicate DiskOk(s: State, k: nat)
    requires Sized(s) && k < |s.disk|
  {
    s.disk[k] == s.latest[k] || exists b: nat :: b < |s.bufs| && Caches(s.bufs[b], k) && s.bufs[b].dirty
  }

  predicate Unique(s: State, a: nat, b: nat)
    requires a < |s.bufs| && b < |s.bufs|
  {
    a != b && s.bufs[a].dev == ROOTDEV && s.bufs[b].dev == ROOTDEV ==> s.bufs[a].block != s.bufs[b].block
  }

  /** The list holds every buffer once, most recently released first. */
  ghost predicate ListOk(s: State)
    requires Sized(s)
  {
    && (forall p :: 0 <= p < |s.order| ==> s.order[p] < |s.bufs| && s.stamp[s.order[p]] < s.clock)
    && (forall p, q :: 0 <= p < q < |s.order| ==> s.stamp[s.order[p]] > s.stamp[s.order[q]])
    && (forall b: nat :: b < |s.bufs| ==> b in s.order)
  }

  ghost predicate Inv(s: State) {
    && Sized(s) && ListOk(s)
    && (forall b: nat :: b < |s.bufs| ==> BufOk(s, b))
    && (forall c: nat :: c < |s.calls| ==> CallOk(s, c))
    && (forall k: nat :: k < |s.disk| ==> DiskOk(s, k))
    && (forall a: nat, b: nat :: a < |s.bufs| && b < |s.bufs| ==> Unique(s, a, b))
  }

  // ---------- every step keeps it ----------

  /** Another call cannot use a buffer whose sleep lock or recycling this step needs. */
  lemma StepCalls(s: State, st: Step, c: nat)
    requires Inv(s) && Can(s, st) && c < |s.calls|
    ensures CallOk(Do(s, st), c)
  {
    assert CallOk(s, c) && CallOk(s, st.c);
    if st.Miss? {
      assert BufOk(s, st.b);
      NoUsers(s.calls, st.b, |s.calls|, c);
    }
  }

  lemma StepCount(s: State, st: Step, b: nat)
    requires Inv(s) && Can(s, st) && b < |s.bufs|
    ensures Do(s, st).bufs[b].refcnt == Users(Do(s, st).calls, b, |s.calls|)
  {
    assert BufOk(s, b) && CallOk(s, st.c);
    UsersUpdate(s.calls, st.c, Do(s, st).calls[st.c], b, |s.calls|);
  }

  /** What an unlocked or never valid buffer would read from disk is the latest contents. */
  lemma FillLatest(s: State, st: Step)
    requires Inv(s) && Can(s, st) && st.Fill?
    ensures !s.bufs[s.calls[st.c].b].valid ==> s.disk[s.calls[st.c].k] == s.latest[s.calls[st.c].k]
  {
    var x := s.calls[st.c];
    assert CallOk(s, st.c) && DiskOk(s, x.k) && BufOk(s, x.b);
    forall b: nat | b < |s.bufs| ensures Caches(s.bufs[b], x.k) ==> b == x.b { assert Unique(s, b, x.b); }
  }

  lemma StepBufs(s: State, st: Step, b: nat)
    requires Inv(s) && Can(s, st) && b < |s.bufs|
    ensures BufOk(Do(s, st), b)
  {
    var x := s.calls[st.c];
    assert BufOk(s, b) && CallOk(s, st.c);
    StepCount(s, st, b);
    if s.bufs[b].holder != -1 { assert CallOk(s, s.bufs[b].holder); }
    if st.Fill? { FillLatest(s, st); }
    if !x.Idle? { assert BufOk(s, x.b) && Unique(s, b, x.b); }
  }

  lemma StepDisk(s: State, st: Step, k: nat)
    requires Inv(s) && Can(s, st) && k < |s.disk|
    ensures DiskOk(Do(s, st), k)
  {
    var t := Do(s, st);
    assert DiskOk(s, k) && CallOk(s, st.c);
    if st.LogWrite? && k == s.calls[st.c].k {
      assert Caches(t.bufs[s.calls[st.c].b], k) && t.bufs[s.calls[st.c].b].dirty;
    } else if s.disk[k] != s.latest[k] {
      var b: nat :| b < |s.bufs| && Caches(s.bufs[b], k) && s.bufs[b].dirty;
      if !s.calls[st.c].Idle? { assert Unique(s, b, s.calls[st.c].b); }
      assert !(st.Write? && k == s.calls[st.c].k) ==> Caches(t.bufs[b], k) && t.bufs[b].dirty;
    }
  }

  lemma StepUnique(s: State, st: Step, a: nat, b: nat)
    requires Inv(s) && Can(s, st) && a < |s.bufs| && b < |s.bufs|
    ensures Unique(Do(s, st), a, b)
  {
    assert Unique(s, a, b);
    if st.Miss? { assert !Caches(s.bufs[a], st.k) && !Caches(s.bufs[b], st.k); }
  }

  lemma FrontAt(order: seq<nat>, p: nat, q: nat)
    requires p < |order| && q < |order|
    ensures |Front(order, p)| == |order|
    ensures Front(order, p)[q] == if q == 0 then order[p] else if q <= p then order[q - 1] else order[q]
  {
  }

  lemma FrontHas(order: seq<nat>, p: nat, b: nat)
    requires p < |order| && b in order
    ensures b in Front(order, p)
  {
    var q: nat :| q < |order| && order[q] == b;
    FrontAt(order, p, if q == p then 0 else if q < p then q + 1 else q);
  }

  lemma FrontOk(s: State, p: nat)
    requires Sized(s) && ListOk(s) && p < |s.order|
    ensures ListOk(s.(order := Front(s.order, p), stamp := s.stamp[s.order[p] := s.clock], clock := s.clock + 1))
  {
    var t := s.(order := Front(s.order, p), stamp := s.stamp[s.order[p] := s.clock], clock := s.clock + 1);
    assert |t.order| == |s.order|;
    forall q: nat | q < |s.order|
      ensures t.order[q] == if q == 0 then s.order[p] else if q <= p then s.order[q - 1] else s.order[q]
    {
      FrontAt(s.order, p, q);
    }
    forall q | 0 <= q < |s.order| && q != p ensures s.order[q] != s.order[p] { assert q < p || p < q; }
    forall b: nat | b < |s.bufs| ensures b in t.order { FrontHas(s.order, p, b); }
  }

  lemma StepList(s: State, st: Step)
    requires Inv(s) && Can(s, st)
    ensures Sized(Do(s, st)) && ListOk(Do(s, st))
  {
    if st.Drop? { FrontOk(s, st.p); }
  }

  lemma StepKeepsInv(s: State, st: Step)
    requires Inv(s) && Can(s, st)
    ensures Inv(Do(s, st))
  {
    var t := Do(s, st);
    StepList(s, st);
    forall b: nat | b < |s.bufs| ensures BufOk(t, b) { StepBufs(s, st, b); }
    forall c: nat | c < |s.calls| ensures CallOk(t, c) { StepCalls(s, st, c); }
    forall k: nat | k < |s.disk| ensures DiskOk(t, k) { StepDisk(s, st, k); }
    forall a: nat, b: nat | a < |s.bufs| && b < |s.bufs| ensures Unique(t, a, b) { StepUnique(s, st, a, b); }
  }

  // ---------- runs ----------

  /** After binit: every buffer is (dev 0, block 0) and the last one linked is first. */
  function Start(nbuf: nat, ncalls: nat, disk: seq<Data>): State {
    State(seq(nbuf, b => Buf(0, 0, false, false, 0, -1, [])), seq(nbuf, p requires 0 <= p < nbuf => nbuf - 1 - p),
          seq(ncalls, c => Idle), disk, disk, seq(nbuf, b requires 0 <= b => b), nbuf)
  }

  lemma {:induction false} IdleUsers(calls: seq<Call>, b: nat, n: nat)
    requires n <= |calls| && forall c :: 0 <= c < n ==> calls[c].Idle?
    ensures Users(calls, b, n) == 0
  {
    if n > 0 { IdleUsers(calls, b, n - 1); }
  }

  lemma StartOk(nbuf: nat, ncalls: nat, disk: seq<Data>)
    ensures Inv(Start(nbuf, ncalls, disk))
  {
    var s := Start(nbuf, ncalls, disk);
    forall b: nat | b < nbuf ensures BufOk(s, b) && b in s.order {
      IdleUsers(s.calls, b, ncalls);
      assert s.order[nbuf - 1 - b] == b;
    }
  }

  ghost predicate Behaviour(ss: seq<State>, sts: seq<Step>) {
    && |ss| == |sts| + 1 && (exists nbuf: nat, ncalls: nat, disk :: ss[0] == Start(nbuf, ncalls, disk))
    && forall t :: 0 <= t < |sts| ==> Can(ss[t], sts[t]) && ss[t + 1] == Do(ss[t], sts[t])
  }

  lemma {:induction false} BehaviourInv(ss: seq<State>, sts: seq<Step>, t: nat)
    requires Behaviour(ss, sts) && t < |ss|
    ensures Inv(ss[t])
  {
    if t == 0 {
      var nbuf: nat, ncalls: nat, disk :| ss[0] == Start(nbuf, ncalls, disk);
      StartOk(nbuf, ncalls, disk);
    } else {
      BehaviourInv(ss, sts, t - 1);
      StepKeepsInv(ss[t - 1], sts[t - 1]);
    }
  }

  /** In every run: a block has at most one buffer, the list is a permutation of the buffers, and
      whatever bread returned for block k is what was last logged or written there. */
  lemma CacheCoherent(ss: seq<State>, sts: seq<Step>, t: nat)
    requires Behaviour(ss, sts) && t < |ss|
    ensures Sized(ss[t])
    ensures forall a, b :: 0 <= a < b < |ss[t].bufs| && ss[t].bufs[a].dev == ROOTDEV && ss[t].bufs[b].dev == ROOTDEV ==>
      ss[t].bufs[a].block != ss[t].bufs[b].block
    ensures forall b: nat :: b < |ss[t].bufs| ==> b in ss[t].order
    ensures forall p, q :: 0 <= p < q < |ss[t].order| ==> ss[t].order[p] != ss[t].order[q]
    ensures forall c :: 0 <= c < |ss[t].calls| && ss[t].calls[c].Holding? && !ss[t].calls[c].edited ==>
      BreadOk(ss[t], ss[t].calls[c])
  {
    BehaviourInv(ss, sts, t);
    var s := ss[t];
    forall a, b | 0 <= a < b < |s.bufs| && s.bufs[a].dev == ROOTDEV && s.bufs[b].dev == ROOTDEV
      ensures s.bufs[a].block != s.bufs[b].block
    {
      assert Unique(s, a, b);
    }
    forall c | 0 <= c < |s.calls| && s.calls[c].Holding? && !s.calls[c].edited ensures BreadOk(s, s.calls[c]) {
      assert CallOk(s, c) && BufOk(s, s.calls[c].b);
    }
  }

  predicate BreadOk(s: State, x: Call)
    requires x.Holding? && Sized(s)
  {
    x.b < |s.bufs| && x.k < |s.latest| && s.bufs[x.b].valid && s.bufs[x.b].data == s.latest[x.k]
  }

  /** No call uses b and no transaction has pinned it, its block is up to date on disk, and it was
      released before every other such buffer. */
  ghost predicate OldestFree(s: State, b: nat)
    requires Sized(s)
  {
    && b < |s.bufs| && !s.bufs[b].dirty
    && (forall c :: 0 <= c < |s.calls| ==> !Using(s.calls[c], b))
    && (forall a: nat :: a < |s.bufs| && Free(s.bufs[a]) ==> s.stamp[b] <= s.stamp[a])
    && (s.bufs[b].dev == ROOTDEV ==> s.bufs[b].block < |s.disk| && s.disk[s.bufs[b].block] == s.latest[s.bufs[b].block])
  }

  /** What bget recycles. */
  lemma RecyclesOldest(ss: seq<State>, sts: seq<Step>, t: nat)
    requires Behaviour(ss, sts) && t < |sts| && sts[t].Miss?
    ensures Sized(ss[t]) && OldestFree(ss[t], sts[t].b)
  {
    BehaviourInv(ss, sts, t);
    var s, b, p := ss[t], sts[t].b, sts[t].p;
    assert BufOk(s, b);
    forall c | 0 <= c < |s.calls| ensures !Using(s.calls[c], b) { NoUsers(s.calls, b, |s.calls|, c); }
    forall a: nat | a < |s.bufs| && Free(s.bufs[a]) ensures s.stamp[b] <= s.stamp[a] {
      assert a in s.order;
      var q: nat :| q < |s.order| && s.order[q] == a;
      assert q <= p;
    }
    if s.bufs[b].dev == ROOTDEV {
      assert DiskOk(s, s.bufs[b].block);
      forall a: nat | a < |s.bufs| ensures Caches(s.bufs[a], s.bufs[b].block) ==> a == b { assert Unique(s, a, b); }
    }
  }

  // ---------- the cache is a plain array of blocks ----------

  /** A disk without a cache: the blocks, and what each call has in its hands. */
  datatype Plain = Plain(blocks: seq<Data>, drafts: seq<Data>)

  /** bread copies the call's block k, an edit replaces the copy, log_write and bwrite put it back. */
  function PlainDo(a: Plain, k: nat, st: Step): Plain {
    if st.c >= |a.drafts| || k >= |a.blocks| then a
    else
      match st
      case Fill(c) => a.(drafts := a.drafts[c := a.blocks[k]])
      case Edit(c, data) => a.(drafts := a.drafts[c := data])
      case LogWrite(c) => a.(blocks := a.blocks[k := a.drafts[c]])
      case Write(c) => a.(blocks := a.blocks[k := a.drafts[c]])
      case _ => a
  }

  /** The call is between bread and brelse, and its buffer holds what it has in its hands. */
  ghost predicate Drafts(s: State, a: Plain, c: nat)
    requires c < |s.calls| == |a.drafts|
  {
    s.calls[c].Holding? ==> s.calls[c].b < |s.bufs| && s.bufs[s.calls[c].b].data == a.drafts[c]
  }

  ghost predicate Refines(s: State, a: Plain) {
    a.blocks == s.latest && |a.drafts| == |s.calls| && forall c: nat :: c < |s.calls| ==> Drafts(s, a, c)
  }

  function BlockOf(x: Call): nat { if x.Idle? then 0 else x.k }

  lemma PlainStep(s: State, a: Plain, st: Step)
    requires Inv(s) && Can(s, st) && Refines(s, a)
    ensures Refines(Do(s, st), PlainDo(a, BlockOf(s.calls[st.c]), st))
  {
    var t, b := Do(s, st), PlainDo(a, BlockOf(s.calls[st.c]), st);
    assert CallOk(s, st.c) && Drafts(s, a, st.c);
    forall c: nat | c < |s.calls| ensures Drafts(t, b, c) {
      assert Drafts(s, a, c) && CallOk(s, c);
      if st.Miss? {
        assert BufOk(s, st.b);
        NoUsers(s.calls, st.b, |s.calls|, c);
      }
      if st.Fill? && c == st.c {
        StepBufs(s, st, s.calls[c].b);
        StepCalls(s, st, c);
      }
    }
  }

  /** What a disk without a cache does on the first t steps. */
  ghost function PlainRun(ss: seq<State>, sts: seq<Step>, t: nat): Plain
    requires Behaviour(ss, sts) && t < |ss|
  {
    if t == 0 then Plain(ss[0].disk, seq(|ss[0].calls|, c => []))
    else
      assert Can(ss[t - 1], sts[t - 1]);
      PlainDo(PlainRun(ss, sts, t - 1), BlockOf(ss[t - 1].calls[sts[t - 1].c]), sts[t - 1])
  }

  /** In every run, each call has in its buffer what a disk without a cache would have given it, and the
      latest contents of every block are those of that disk. */
  lemma {:induction false} CacheTransparent(ss: seq<State>, sts: seq<Step>, t: nat)
    requires Behaviour(ss, sts) && t < |ss|
    ensures Refines(ss[t], PlainRun(ss, sts, t))
  {
    if t > 0 {
      CacheTransparent(ss, sts, t - 1);
      BehaviourInv(ss, sts, t - 1);
      PlainStep(ss[t - 1], PlainRun(ss, sts, t - 1), sts[t - 1]);
    }
  }

  /** The order of a call's steps. */
  function NextCall(x: Call, st: Step): Call {
    match st
    case Hit(_, k, b) => Waiting(b, k)
    case Miss(_, k, b, _) => Waiting(b, k)
    case Lock(_) => if x.Waiting? then Locked(x.b, x.k) else x
    case Fill(_) => if x.Locked? then Holding(x.b, x.k, false) else x
    case Edit(_, _) => if x.Holding? then Holding(x.b, x.k, true) else x
    case Unlock(_) => if x.Holding? then Leaving(x.b, x.k) else x
    case Drop(_, _) => Idle
    case _ => if x.Holding? then Holding(x.b, x.k, false) else x
  }

  /** Each call goes its way and no other call moves; a written block is on disk and no longer pinned, a
      logged one is pinned; the list and the stamps change exactly when a buffer is released. */
  lemma StepEffects(s: State, st: Step)
    requires Inv(s) && Can(s, st)
    ensures var t := Do(s, st); t.calls == s.calls[st.c := NextCall(s.calls[st.c], st)]
    ensures var t, x := Do(s, st), s.calls[st.c];
      && (st.Write? ==> t.disk[x.k] == t.latest[x.k] == s.bufs[x.b].data && !t.bufs[x.b].dirty)
      && (st.LogWrite? ==> t.disk == s.disk && t.bufs[x.b].dirty)
    ensures var t, x := Do(s, st), s.calls[st.c];
      if st.Drop? && s.bufs[x.b].refcnt == 1
      then t.order[0] == x.b && t.stamp == s.stamp[x.b := s.clock]
      else t.order == s.order && t.stamp == s.stamp
  {
    assert CallOk(s, st.c);
  }

  // ---------- the linked list ----------

  /** The node at position p of the circle of `order`; positions -1 and |order| are the head h. */
  function Node(order: seq<nat>, h: nat, p: int): nat { if 0 <= p < |order| then order[p] else h }

  /** next and prev link the head and the buffers of `order` into one circle. */
  ghost predicate Linked(next: seq<nat>, prev: seq<nat>, order: seq<nat>, h: nat) {
    && |next| == |prev| == h + 1
    && (forall p :: 0 <= p < |order| ==> order[p] < h)
    && (forall p, q :: 0 <= p < q < |order| ==> order[p] != order[q])
    && (forall p :: -1 <= p < |order| ==> next[Node(order, h, p)] == Node(order, h, p + 1))
    && (forall p :: 0 <= p <= |order| ==> prev[Node(order, h, p)] == Node(order, h, p - 1))
  }

  lemma Pushed(next: seq<nat>, prev: seq<nat>, order: seq<nat>, h: nat, b: nat)
    requires Linked(next, prev, order, h) && b < h && b !in order
    ensures next[h] == Node(order, h, 0) <= h
    ensures Linked(next[b := next[h]][h := b], prev[b := h][next[h] := b], [b] + order, h)
  {
    var f, now := Node(order, h, 0), [b] + order;
    assert next[Node(order, h, -1)] == f;
    var next', prev' := next[b := f][h := b], prev[b := h][f := b];
    forall p | -1 <= p < |now| ensures next'[Node(now, h, p)] == Node(now, h, p + 1) {
      if p > 0 { assert next[Node(order, h, p - 1)] == Node(order, h, p); }
    }
    forall p | 0 <= p <= |now| ensures prev'[Node(now, h, p)] == Node(now, h, p - 1) {
      if p > 1 { assert prev[Node(order, h, p - 1)] == Node(order, h, p - 2); }
    }
  }

  lemma Cut(next: seq<nat>, prev: seq<nat>, order: seq<nat>, h: nat, p: nat)
    requires Linked(next, prev, order, h) && p < |order|
    ensures next[order[p]] == Node(order, h, p + 1) <= h && prev[order[p]] == Node(order, h, p - 1) <= h
    ensures Linked(next[prev[order[p]] := next[order[p]]], prev[next[order[p]] := prev[order[p]]],
                   order[..p] + order[p + 1..], h)
    ensures order[p] !in order[..p] + order[p + 1..]
  {
    var l, r, now := Node(order, h, p - 1), Node(order, h, p + 1), order[..p] + order[p + 1..];
    assert next[Node(order, h, p)] == r && prev[Node(order, h, p)] == l;
    forall q | -1 <= q <= |now| ensures Node(now, h, q) == Node(order, h, if q < p then q else q + 1) {}
    forall q | -1 <= q < |now| ensures next[l := r][Node(now, h, q)] == Node(now, h, q + 1) {
      assert next[Node(order, h, if q < p then q else q + 1)] == Node(order, h, if q < p then q + 1 else q + 2);
    }
    forall q | 0 <= q <= |now| ensures prev[r := l][Node(now, h, q)] == Node(now, h, q - 1) {
      assert prev[Node(order, h, if q < p then q else q + 1)] == Node(order, h, if q < p then q - 1 else q);
    }
  }

  /** The prev/next list of bcache; index N of the arrays is `head`. */
  class BufferList {
    const next: array<nat>
    const prev: array<nat>
    var bufs: seq<Buf>
    ghost var order: seq<nat>

    ghost predicate Valid()
      reads this, next, prev
    {
      next != prev && Linked(next[..], prev[..], order, |bufs|)
    }

    /** The four assignments that put b after the head. */
    method PushFront(b: nat)
      requires Valid() && b < |bufs| && b !in order
      modifies next, prev, `order
      ensures Valid() && order == [b] + old(order)
    {
      var h := |bufs|;
      Pushed(next[..], prev[..], order, h, b);
      next[b] := next[h];
      prev[b] := h;
      prev[next[h]] := b;
      next[h] := b;
      order := [b] + order;
    }

    /** brelse's first two assignments. */
    method Unlink(b: nat, ghost p: nat)
      requires Valid() && p < |order| && order[p] == b
      modifies next, prev, `order
      ensures Valid() && order == old(order)[..p] + old(order)[p + 1..] && b !in order
    {
      Cut(next[..], prev[..], order, |bufs|, p);
      prev[next[b]] := prev[b];
      next[prev[b]] := next[b];
      order := order[..p] + order[p + 1..];
    }

    method MoveToFront(b: nat, ghost p: nat)
      requires Valid() && p < |order| && order[p] == b
      modifies next, prev, `order
      ensures Valid() && order == Front(old(order), p)
    {
      Unlink(b, p);
      PushFront(b);
    }
  
    /** binit: buffers pushed in turn, so the last is first. */
    constructor (nbuf: nat)
      ensures Valid() && fresh(next) && fresh(prev)
      ensures bufs == Start(nbuf, 0, []).bufs && order == Start(nbuf, 0, []).order
    {
      next, prev := new nat[nbuf + 1](i => nbuf), new nat[nbuf + 1](i => nbuf);
      bufs := seq(nbuf, b => Buf(0, 0, false, false, 0, -1, []));
      order := [];
      new;
      var b := 0;
      while b < nbuf
        invariant 0 <= b <= nbuf == |bufs| && Valid() && fresh(next) && fresh(prev)
        invariant |order| == b && forall p :: 0 <= p < b ==> order[p] == b - 1 - p
        invariant bufs == seq(nbuf, b => Buf(0, 0, false, false, 0, -1, []))
        modifies next, prev, `order
      {
        PushFront(b);
        b := b + 1;
      }
    }

    /** bget's first loop, forward from head.next: a buffer of block k, or -1. */
    method Lookup(k: nat) returns (b: int)
      requires Valid() && forall u: nat :: u < |bufs| ==> u in order
      ensures b >= 0 ==> b < |bufs| && Caches(bufs[b], k)
      ensures b < 0 ==> forall u :: u in bufs ==> !Caches(u, k)
    {
      var h := |bufs|;
      assert next[..][Node(order, h, -1)] == Node(order, h, 0);
      b := next[h];
      ghost var p := 0;
      while b != h
        invariant 0 <= p <= |order| && b == Node(order, h, p)
        invariant forall q :: 0 <= q < p ==> !Caches(bufs[order[q]], k)
        decreases |order| - p
      {
        if bufs[b].dev == ROOTDEV && bufs[b].block == k { return; }
        assert next[..][Node(order, h, p)] == Node(order, h, p + 1);
        b := next[b];
        p := p + 1;
      }
      forall u | u in bufs ensures !Caches(u, k) {
        var a: nat :| a < |bufs| && bufs[a] == u;
        assert a in order;
      }
      b := -1;
    }

    /** bget's second loop, backward from head.prev: the last free buffer, or -1 where it panics. */
    method Victim() returns (b: int, ghost p: int)
      requires Valid()
      ensures b >= 0 ==> b < |bufs| && 0 <= p < |order| && order[p] == b && Free(bufs[b])
      ensures p >= -1 && forall q :: p < q < |order| ==> !Free(bufs[order[q]])
      ensures b < 0 ==> p == -1
    {
      var h := |bufs|;
      p := |order| - 1;
      assert prev[..][Node(order, h, |order|)] == Node(order, h, p);
      b := prev[h];
      while b != h
        invariant -1 <= p < |order| && b == Node(order, h, p)
        invariant forall q :: p < q < |order| ==> !Free(bufs[order[q]])
        decreases p
      {
        if bufs[b].refcnt == 0 && !bufs[b].dirty { return; }
        assert prev[..][Node(order, h, p)] == Node(order, h, p - 1);
        b := prev[b];
        p := p - 1;
      }
      b := -1;
    }

    /** bget up to its acquiresleep, for call c of the state s this list belongs to. */
    method Bget(k: nat, ghost s: State, ghost c: nat) returns (b: int, ghost p: int)
      requires Valid() && Inv(s) && s.bufs == bufs && s.order == order && k < |s.disk| && c < |s.calls| &&
        s.calls[c].Idle?
      modifies `bufs
      ensures Valid() && order == old(order)
      ensures b >= 0 && (exists u :: u in s.bufs && Caches(u, k)) ==>
        Can(s, Hit(c, k, b)) && bufs == Do(s, Hit(c, k, b)).bufs
      ensures b >= 0 && !(exists u :: u in s.bufs && Caches(u, k)) ==>
        p >= 0 && Can(s, Miss(c, k, b, p)) && bufs == Do(s, Miss(c, k, b, p)).bufs
      ensures b < 0 ==> bufs == old(bufs) && forall u :: u in bufs ==> !Caches(u, k) && !Free(u)
    {
      b := Lookup(k);
      p := 0;
      if b >= 0 {
        assert bufs[b] in s.bufs;
        bufs := bufs[b := bufs[b].(refcnt := bufs[b].refcnt + 1)];
        return;
      }
      b, p := Victim();
      if b >= 0 {
        bufs := bufs[b := bufs[b].(dev := ROOTDEV, block := k, valid := false, dirty := false, refcnt := 1)];
        return;
      }
      forall u | u in bufs ensures !Free(u) {
        var a: nat :| a < |bufs| && bufs[a] == u;
        assert a in order;
      }
    }

    /** brelse after its releasesleep. */
    method Brelse(ghost s: State, ghost c: nat, b: nat, ghost p: nat)
      requires Valid() && s.bufs == bufs && s.order == order && Can(s, Drop(c, p)) && s.calls[c].b == b
      modifies `bufs, `order, next, prev
      ensures Valid() && bufs == Do(s, Drop(c, p)).bufs && order == Do(s, Drop(c, p)).order
    {
      bufs := bufs[b := bufs[b].(refcnt := bufs[b].refcnt - 1)];
      if bufs[b].refcnt == 0 { MoveToFront(b, p); }
    }
  }
}
