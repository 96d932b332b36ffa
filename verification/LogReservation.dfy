/** Log-space reservation (begin_op, log_write, end_op in log.c) under any interleaving of
    file-system operations.  Each event is one critical section of log.lock. */
module LogReservation {
  import opened Machine

  /** maxOp is MAXOPBLOCKS, logSize is LOGSIZE, region is the on-disk log with its header
      (log.size), and budget bounds the new blocks that any one operation logs. */
  datatype Config = Config(maxOp: nat, logSize: nat, region: nat, budget: nat)

  /** An operation between begin_op and end_op may still log `left` new blocks. */
  datatype Op = Open(left: nat) | Closed

  /** `ops` lists every operation ever started; the other fields are struct log's. */
  datatype State = State(outstanding: int, committing: bool, blocks: seq<nat>, ops: seq<Op>)

  datatype Event = Begin | Write(op: nat, block: nat) | End(op: nat) | CommitDone

  datatype Outcome = Sleeps | Panics | Next(s: State)

  const Start := State(0, false, [], [])

  // ---------- what the code does ----------

  function Step(c: Config, s: State, e: Event): Outcome
    requires Disciplined(s, e)
  {
    match e
    case Begin =>
      if s.committing then Sleeps
      else if |s.blocks| + (s.outstanding + 1) * c.maxOp > c.logSize then Sleeps
      else Next(s.(outstanding := s.outstanding + 1, ops := s.ops + [Open(c.budget)]))
    case Write(op, b) =>
      if |s.blocks| >= c.logSize || |s.blocks| >= c.region - 1 then Panics
      else if s.outstanding < 1 then Panics
      else if b in s.blocks then Next(s)
      else Next(s.(blocks := s.blocks + [b], ops := s.ops[op := Open(s.ops[op].left - 1)]))
    case End(op) =>
      if s.committing then Panics
      else Next(s.(outstanding := s.outstanding - 1, committing := s.outstanding == 1,
                   ops := s.ops[op := Closed]))
    case CommitDone => Next(s.(committing := false, blocks := []))
  }

  /** Operations call log_write and end_op only while open, and log at most `budget` new blocks;
      a commit finishes only if one was started. */
  predicate Disciplined(s: State, e: Event) {
    match e
    case Begin => true
    case Write(op, b) => op < |s.ops| && s.ops[op].Open? && (b !in s.blocks ==> s.ops[op].left > 0)
    case End(op) => op < |s.ops| && s.ops[op].Open?
    case CommitDone => s.committing
  }

  /** A run: every event is disciplined, a sleeping begin_op changes nothing. */
  ghost predicate Run(c: Config, ss: seq<State>, es: seq<Event>) {
    && |ss| == |es| + 1 && ss[0] == Start
    && forall i :: 0 <= i < |es| ==>
      && Disciplined(ss[i], es[i])
      && (Step(c, ss[i], es[i]) == Next(ss[i + 1]) || (Step(c, ss[i], es[i]) == Sleeps && ss[i + 1] == ss[i]))
  }

  // ---------- the invariant ----------

  function Reserved(ops: seq<Op>): nat {
    if ops == [] then 0 else (if ops[0].Open? then ops[0].left else 0) + Reserved(ops[1..])
  }

  function CountOpen(ops: seq<Op>): nat {
    if ops == [] then 0 else (if ops[0].Open? then 1 else 0) + CountOpen(ops[1..])
  }

  /** The most blocks a transaction can ever hold. */
  function Peak(c: Config): int {
    Max(c.budget, c.logSize - 2 * (c.maxOp - c.budget))
  }

  ghost predicate Inv(c: Config, s: State) {
    && s.outstanding == CountOpen(s.ops)
    && (s.committing ==> s.outstanding == 0)
    && (!s.committing && s.outstanding == 0 ==> s.blocks == [])
    && (forall i, j :: 0 <= i < j < |s.blocks| ==> s.blocks[i] != s.blocks[j])
    && (forall i :: 0 <= i < |s.ops| && s.ops[i].Open? ==> s.ops[i].left <= c.budget)
    && |s.blocks| + Reserved(s.ops) <= Peak(c)
  }

  ghost predicate GoodConfig(c: Config) { c.budget <= c.maxOp <= c.logSize }

  lemma {:induction false} SumsUpdate(ops: seq<Op>, i: nat, o: Op)
    requires i < |ops| && ops[i].Open?
    ensures Reserved(ops[i := o]) == Reserved(ops) - ops[i].left + (if o.Open? then o.left else 0)
    ensures CountOpen(ops[i := o]) == CountOpen(ops) - 1 + (if o.Open? then 1 else 0)
    decreases i
  {
    if i > 0 {
      SumsUpdate(ops[1..], i - 1, o);
      assert ops[i := o][1..] == ops[1..][i - 1 := o];
    } else {
      assert ops[0 := o][1..] == ops[1..];
    }
  }

  lemma {:induction false} SumsAppend(ops: seq<Op>, o: Op)
    requires o.Open?
    ensures Reserved(ops + [o]) == Reserved(ops) + o.left && CountOpen(ops + [o]) == CountOpen(ops) + 1
  {
    if ops == [] {
      assert (ops + [o])[1..] == [];
    } else {
      SumsAppend(ops[1..], o);
      assert (ops + [o])[1..] == ops[1..] + [o];
    }
  }

  lemma {:induction false} ReservedBound(ops: seq<Op>, b: nat)
    requires forall i :: 0 <= i < |ops| && ops[i].Open? ==> ops[i].left <= b
    ensures Reserved(ops) <= CountOpen(ops) * b
  {
    if ops != [] {
      ReservedBound(ops[1..], b);
      calc {
        CountOpen(ops) * b;
        ((if ops[0].Open? then 1 else 0) + CountOpen(ops[1..])) * b;
        (if ops[0].Open? then b else 0) + CountOpen(ops[1..]) * b;
      }
    }
  }

  lemma OpenCounts(ops: seq<Op>, i: nat)
    requires i < |ops| && ops[i].Open?
    ensures CountOpen(ops) >= 1
  {
    SumsUpdate(ops, i, Closed);
  }

  /** begin_op's test leaves room for the newcomer's whole budget. */
  lemma AdmitBound(c: Config, s: State)
    requires GoodConfig(c) && Inv(c, s) && !s.committing
    requires |s.blocks| + (s.outstanding + 1) * c.maxOp <= c.logSize
    ensures |s.blocks| + Reserved(s.ops) + c.budget <= Peak(c)
  {
    var o := s.outstanding;
    ReservedBound(s.ops, c.budget);
    if o == 0 {
      assert s.blocks == [] && Reserved(s.ops) == 0;
    } else {
      Shares(o, c.maxOp, c.budget);
    }
  }

  lemma Shares(o: nat, m: nat, b: nat)
    requires b <= m && o >= 1
    ensures (o + 1) * m - o * b - b >= 2 * (m - b)
  {
    assert (o + 1) * m - o * b - b == (o + 1) * (m - b);
    assert (o + 1) * (m - b) == (o - 1) * (m - b) + 2 * (m - b);
  }

  /** Every step keeps the invariant, and only log_write's own test can panic. */
  lemma StepKeepsInv(c: Config, s: State, e: Event)
    requires GoodConfig(c) && Inv(c, s) && Disciplined(s, e)
    ensures var r := Step(c, s, e);
      && (r.Next? ==> Inv(c, r.s))
      && (r.Panics? ==> e.Write? && |s.blocks| >= Max(0, if c.region - 1 < c.logSize then c.region - 1 else c.logSize))
  {
    match e
    case Begin =>
      if Step(c, s, e).Next? {
        AdmitBound(c, s);
        SumsAppend(s.ops, Open(c.budget));
      }
    case Write(op, b) =>
      OpenCounts(s.ops, op);
      if b !in s.blocks { SumsUpdate(s.ops, op, Open(s.ops[op].left - 1)); }
    case End(op) =>
      OpenCounts(s.ops, op);
      SumsUpdate(s.ops, op, Closed);
    case CommitDone =>
  }

  lemma {:induction false} RunKeepsInv(c: Config, ss: seq<State>, es: seq<Event>, i: nat)
    requires GoodConfig(c) && Run(c, ss, es) && i <= |es|
    ensures Inv(c, ss[i])
  {
    if i > 0 {
      RunKeepsInv(c, ss, es, i - 1);
      StepKeepsInv(c, ss[i - 1], es[i - 1]);
    }
  }

  /** Reservation: in every state of every run the log is within LOGSIZE, the logged numbers are
      distinct, and a commit never overlaps an operation, so never a log_write. */
  lemma ReservationSafe(c: Config, ss: seq<State>, es: seq<Event>, i: nat)
    requires GoodConfig(c) && Run(c, ss, es) && i <= |es|
    ensures |ss[i].blocks| <= c.logSize
    ensures forall j, k :: 0 <= j < k < |ss[i].blocks| ==> ss[i].blocks[j] != ss[i].blocks[k]
    ensures ss[i].committing ==> ss[i].outstanding == 0
    ensures i < |es| && es[i].Write? ==> !ss[i].committing
  {
    RunKeepsInv(c, ss, es, i);
    if i < |es| && es[i].Write? { OpenCounts(ss[i].ops, es[i].op); }
  }

  // ---------- what is logged ----------

  /** A log_write that returns has its block in the log, behind what was there; nothing is added
      exactly when the block was there already. */
  lemma WriteLogs(c: Config, s: State, op: nat, b: nat, t: State)
    requires Disciplined(s, Write(op, b)) && Step(c, s, Write(op, b)) == Next(t)
    ensures b in t.blocks && s.blocks <= t.blocks && t.blocks[|s.blocks|..] == if b in s.blocks then [] else [b]
    ensures t.blocks == s.blocks <==> b in s.blocks
  {
  }

  /** Event j wrote block b, and no commit has finished since, up to event i. */
  ghost predicate WroteAt(es: seq<Event>, b: nat, j: nat, i: nat)
    requires i <= |es|
  {
    j < i && es[j].Write? && es[j].block == b && forall k :: j < k < i ==> !es[k].CommitDone?
  }

  ghost predicate WrittenSince(es: seq<Event>, b: nat, i: nat)
    requires i <= |es|
  {
    exists j: nat :: WroteAt(es, b, j, i)
  }

  lemma WrittenNext(es: seq<Event>, b: nat, i: nat)
    requires i < |es|
    ensures WrittenSince(es, b, i + 1) <==>
      (es[i].Write? && es[i].block == b) || (WrittenSince(es, b, i) && !es[i].CommitDone?)
  {
    if es[i].Write? && es[i].block == b {
      assert WroteAt(es, b, i, i + 1);
    } else if WrittenSince(es, b, i) && !es[i].CommitDone? {
      var j: nat :| WroteAt(es, b, j, i);
      assert WroteAt(es, b, j, i + 1);
    }
    if WrittenSince(es, b, i + 1) {
      var j: nat :| WroteAt(es, b, j, i + 1);
      assert j < i ==> WroteAt(es, b, j, i);
    }
  }

  /** In every run the log holds exactly the blocks written since the last commit. */
  lemma {:induction false} LogHoldsIff(c: Config, ss: seq<State>, es: seq<Event>, i: nat, b: nat)
    requires Run(c, ss, es) && i <= |es|
    ensures b in ss[i].blocks <==> WrittenSince(es, b, i)
  {
    if i > 0 {
      LogHoldsIff(c, ss, es, i - 1, b);
      WrittenNext(es, b, i - 1);
      if es[i - 1].Write? { WriteLogs(c, ss[i - 1], es[i - 1].op, es[i - 1].block, ss[i]); }
    }
  }

  /** Event j ended the last open operation, and its commit has not finished up to event i. */
  ghost predicate LastOutAt(ss: seq<State>, es: seq<Event>, j: nat, i: nat)
    requires i <= |es| <= |ss|
  {
    j < i && es[j].End? && ss[j].outstanding == 1 && forall k :: j < k < i ==> !es[k].CommitDone?
  }

  /** In every run a commit is under way exactly from the end of the last open operation to CommitDone. */
  lemma {:induction false} CommittingIff(c: Config, ss: seq<State>, es: seq<Event>, i: nat)
    requires GoodConfig(c) && Run(c, ss, es) && i <= |es|
    ensures ss[i].committing <==> exists j: nat :: LastOutAt(ss, es, j, i)
  {
    if i > 0 {
      var e := es[i - 1];
      CommittingIff(c, ss, es, i - 1);
      RunKeepsInv(c, ss, es, i - 1);
      StepKeepsInv(c, ss[i - 1], e);
      if e.End? && ss[i - 1].outstanding == 1 { assert LastOutAt(ss, es, i - 1, i); }
      if ss[i - 1].committing && !e.CommitDone? {
        var j: nat :| LastOutAt(ss, es, j, i - 1);
        assert LastOutAt(ss, es, j, i);
      }
      if j: nat :| LastOutAt(ss, es, j, i) { assert j < i - 1 ==> LastOutAt(ss, es, j, i - 1); }
    }
  }

  /** Where the code calls wakeup(&log): an end_op that leaves others outstanding, and the end of a commit. */
  predicate Wakes(s: State, e: Event) { e.CommitDone? || (e.End? && s.outstanding > 1) }

  /** A begin_op that sleeps comes to be admissible only by a step that wakes it. */
  lemma AdmissionWakes(c: Config, s: State, e: Event, t: State)
    requires GoodConfig(c) && Inv(c, s) && Disciplined(s, e) && Step(c, s, e) == Next(t)
    requires Step(c, s, Begin).Sleeps? && Step(c, t, Begin).Next?
    ensures Wakes(s, e)
  {
    if e.Begin? || e.Write? { More(s.outstanding, t.outstanding, c.maxOp); }
    if e.End? { OpenCounts(s.ops, e.op); }
  }

  lemma More(a: int, b: int, m: nat)
    requires a <= b
    ensures (a + 1) * m <= (b + 1) * m
  {
  }

  // ---------- "too big a transaction" ----------

  /** Some run reaches a log_write that panics although every operation kept to its budget. */
  ghost predicate CanPanic(c: Config) {
    exists ss: seq<State>, es: seq<Event>, e: Event :: PanicsAt(c, ss, es, e)
  }

  ghost predicate PanicsAt(c: Config, ss: seq<State>, es: seq<Event>, e: Event) {
    Run(c, ss, es) && Disciplined(ss[|es|], e) && Step(c, ss[|es|], e).Panics?
  }

  /** The image mkfs builds: LOGSIZE is `times` reservations, and the log region is LOGSIZE
      blocks with the header among them. */
  ghost predicate MkfsConfig(c: Config, times: nat) {
    c.maxOp >= 1 && times >= 2 && c.logSize == times * c.maxOp && c.region == c.logSize && c.budget <= c.maxOp
  }

  /** On mkfs's layout a reservation does not exclude the panic; it is excluded exactly when
      every operation stays one block below what begin_op reserves for it. */
  lemma PanicFreeIff(c: Config, times: nat)
    requires MkfsConfig(c, times)
    ensures !CanPanic(c) <==> c.budget < c.maxOp
  {
    Portions(times, 2, c.maxOp);
    if c.budget < c.maxOp {
      forall ss: seq<State>, es: seq<Event>, e: Event ensures !PanicsAt(c, ss, es, e) {
        NeverPanics(c, ss, es, e);
      }
    } else {
      var ss, es := FillLog(c, times, times, c.logSize - 1);
      var op := SomeLeft(ss[|es|].ops);
      assert PanicsAt(c, ss, es, Write(op, c.logSize - 1));
    }
  }

  lemma NeverPanics(c: Config, ss: seq<State>, es: seq<Event>, e: Event)
    requires c.budget < c.maxOp && c.logSize >= 2 * c.maxOp && c.region == c.logSize
    ensures !PanicsAt(c, ss, es, e)
  {
    if Run(c, ss, es) && Disciplined(ss[|es|], e) {
      RunKeepsInv(c, ss, es, |es|);
      StepKeepsInv(c, ss[|es|], e);
    }
  }

  lemma {:induction false} SomeLeft(ops: seq<Op>) returns (i: nat)
    requires Reserved(ops) > 0
    ensures i < |ops| && ops[i].Open? && ops[i].left > 0
  {
    if ops[0].Open? && ops[0].left > 0 {
      i := 0;
    } else {
      i := SomeLeft(ops[1..]);
      i := i + 1;
    }
  }

  lemma RunAppend(c: Config, ss: seq<State>, es: seq<Event>, e: Event, s: State)
    requires Run(c, ss, es) && Disciplined(ss[|es|], e) && Step(c, ss[|es|], e) == Next(s)
    ensures Run(c, ss + [s], es + [e])
  {
  }

  lemma Portions(times: nat, k: nat, m: nat)
    requires 1 <= k <= times
    ensures (k - 1) * m + m == k * m <= times * m
  {
    assert times * m == (times - k) * m + k * m;
  }

  /** A run of k begin_ops and then w writes of blocks 0, 1, ..., none of them over budget. */
  lemma {:induction false} FillLog(c: Config, times: nat, k: nat, w: nat) returns (ss: seq<State>, es: seq<Event>)
    requires MkfsConfig(c, times) && c.budget == c.maxOp
    requires k <= times && w < c.logSize && (w > 0 ==> k == times)
    ensures Run(c, ss, es)
    ensures var s := ss[|es|];
      && !s.committing && s.outstanding == k && |s.blocks| == w && (forall b :: b in s.blocks ==> b < w)
      && Reserved(s.ops) == k * c.maxOp - w
    decreases k, w
  {
    if k == 0 {
      ss, es := [Start], [];
    } else if w == 0 {
      ss, es := FillLog(c, times, k - 1, 0);
      var s := ss[|es|];
      Portions(times, k, c.maxOp);
      SumsAppend(s.ops, Open(c.budget));
      var s' := Step(c, s, Begin).s;
      RunAppend(c, ss, es, Begin, s');
      ss, es := ss + [s'], es + [Begin];
    } else {
      ss, es := FillLog(c, times, k, w - 1);
      var s := ss[|es|];
      var op := SomeLeft(s.ops);
      SumsUpdate(s.ops, op, Open(s.ops[op].left - 1));
      var e := Write(op, w - 1);
      var s' := Step(c, s, e).s;
      RunAppend(c, ss, es, e, s');
      ss, es := ss + [s'], es + [e];
    }
  }

  // ---------- the routines ----------

  /** struct log's bookkeeping fields, updated as log.c does.  `ops` is the account that the
      theorems keep of who may still log what. */
  class LogState {
    const c: Config
    var outstanding: int
    var committing: bool
    var blocks: seq<nat>
    ghost var ops: seq<Op>

    ghost function View(): State
      reads this
    {
      State(outstanding, committing, blocks, ops)
    }

    constructor (c: Config)
      ensures View() == Start && this.c == c
    {
      this.c, outstanding, committing, blocks, ops := c, 0, false, [], [];
    }

    /** One turn of begin_op's loop: admitted, or asleep on the log with nothing changed. */
    method BeginOp() returns (admitted: bool)
      requires GoodConfig(c) && Inv(c, View())
      modifies this
      ensures Inv(c, View()) && blocks == old(blocks) && committing == old(committing)
      ensures admitted
        <==> !old(committing) && |old(blocks)| + (old(outstanding) + 1) * c.maxOp <= c.logSize
      ensures outstanding == old(outstanding) + if admitted then 1 else 0
      ensures match Step(c, old(View()), Begin)
        case Next(s) => admitted && View() == s
        case Sleeps => !admitted && View() == old(View())
        case Panics => false
    {
      StepKeepsInv(c, View(), Begin);
      if committing {
        admitted := false;
      } else if |blocks| + (outstanding + 1) * c.maxOp > c.logSize {
        admitted := false;
      } else {
        outstanding := outstanding + 1;
        ops := ops + [Open(c.budget)];
        admitted := true;
      }
    }

    /** log_write with its absorption scan; it panics exactly when Step says so. */
    method LogWrite(ghost op: nat, b: nat) returns (panic: bool)
      requires GoodConfig(c) && Inv(c, View()) && Disciplined(View(), Write(op, b))
      modifies this
      ensures Inv(c, View())
      ensures panic <==> |old(blocks)| >= c.logSize || |old(blocks)| >= c.region - 1
      ensures !panic ==> b in blocks && blocks == if b in old(blocks) then old(blocks) else old(blocks) + [b]
      ensures panic <==> Step(c, old(View()), Write(op, b)).Panics?
      ensures panic ==> View() == old(View())
      ensures !panic ==> Next(View()) == Step(c, old(View()), Write(op, b))
    {
      StepKeepsInv(c, View(), Write(op, b));
      OpenCounts(ops, op);
      if |blocks| >= c.logSize || |blocks| >= c.region - 1 { return true; }
      if outstanding < 1 { return true; }
      var i := 0;
      while i < |blocks|
        invariant 0 <= i <= |blocks| && b !in blocks[..i]
      {
        if blocks[i] == b { break; }
        i := i + 1;
      }
      if i == |blocks| {
        assert blocks[..i] == blocks;
        blocks := blocks + [b];
        ops := ops[op := Open(ops[op].left - 1)];
      } else {
        blocks := blocks[i := b];
      }
      assert blocks[i] == b;
      panic := false;
    }

    /** end_op up to its first release: never panics, and asks for a commit exactly when this
        was the last outstanding operation. */
    method EndOp(ghost op: nat) returns (doCommit: bool)
      requires GoodConfig(c) && Inv(c, View()) && Disciplined(View(), End(op))
      modifies this
      ensures Inv(c, View()) && Next(View()) == Step(c, old(View()), End(op))
      ensures (doCommit <==> committing) && (doCommit <==> old(outstanding) == 1) && blocks == old(blocks)
    {
      OpenCounts(ops, op);
      StepKeepsInv(c, View(), End(op));
      outstanding := outstanding - 1;
      doCommit := false;
      if outstanding == 0 {
        doCommit := true;
        committing := true;
      }
      ops := ops[op := Closed];
    }

    /** end_op after its commit, which has emptied the list: operations are admitted again. */
    method FinishCommit()
      requires GoodConfig(c) && Inv(c, View()) && committing
      modifies this
      ensures Inv(c, View()) && Next(View()) == Step(c, old(View()), CommitDone)
      ensures !committing && blocks == [] && outstanding == 0
    {
      StepKeepsInv(c, View(), CommitDone);
      blocks, committing := [], false;
    }
  }
}
