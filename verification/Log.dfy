/** The redo log (log.c): commit, recovery, and what a crash at any point leaves behind.

    The disk is a sequence of blocks and one block write is atomic (memide.c).  A block is its
    BSIZE/4 words, because the log header is a block whose word 0 counts the entries and whose
    next words are the home block numbers; write_head overwrites only the words it uses. */
module RedoLog {
  const WORDS := 128 // BSIZE / sizeof(int)

  type Block = seq<int>
  type Disk = seq<Block>

  /** The log region is the `size` blocks from `start`: the header, then size - 1 log blocks. */
  datatype Layout = Layout(start: nat, size: nat)

  /** A transaction as commit sees it: home block numbers and the cached contents for them. */
  datatype Tx = Tx(home: seq<nat>, data: seq<Block>)

  predicate InLog(L: Layout, b: int) { L.start <= b < L.start + L.size }

  predicate Fits(L: Layout, d: Disk) {
    1 <= L.size <= WORDS && L.start + L.size <= |d| && |d[L.start]| == WORDS
  }

  /** Header entries that name blocks of the disk outside the log region. */
  predicate GoodHead(L: Layout, d: Disk, h: seq<int>) {
    && |h| < L.size
    && forall i :: 0 <= i < |h| ==> 0 <= h[i] < |d| && !InLog(L, h[i])
  }

  ghost predicate GoodTx(L: Layout, d: Disk, t: Tx) {
    && |t.data| == |t.home|
    && GoodHead(L, d, t.home)
    && forall i, j :: 0 <= i < j < |t.home| ==> t.home[i] != t.home[j]
  }

  predicate HasHead(L: Layout, d: Disk) {
    Fits(L, d) && 0 <= d[L.start][0] < L.size
    && GoodHead(L, d, d[L.start][1..1 + d[L.start][0]])
  }

  function Head(L: Layout, d: Disk): (h: seq<int>)
    requires HasHead(L, d)
  {
    d[L.start][1..1 + d[L.start][0]]
  }

  function PutHead(b: Block, h: seq<int>): (r: Block)
    requires |h| < WORDS == |b|
    ensures |r| == WORDS
  {
    [|h|] + h + b[1 + |h|..]
  }

  // ---------- what each routine does to the disk ----------

  function SetHead(L: Layout, d: Disk, h: seq<int>): (r: Disk)
    requires Fits(L, d) && |h| < L.size
    ensures |r| == |d| && Fits(L, r)
  {
    d[L.start := PutHead(d[L.start], h)]
  }

  /** The disk after the first k copies of write_log. */
  function WriteLogged(L: Layout, d: Disk, data: seq<Block>, k: nat): (r: Disk)
    requires Fits(L, d) && k <= |data| < L.size
    ensures |r| == |d| && r[L.start] == d[L.start]
  {
    if k == 0 then d else WriteLogged(L, d, data, k - 1)[L.start + k := data[k - 1]]
  }

  /** The disk after the first k copies of install_trans. */
  function Installed(L: Layout, d: Disk, h: seq<int>, k: nat): (r: Disk)
    requires Fits(L, d) && GoodHead(L, d, h) && k <= |h|
    ensures |r| == |d| && r[L.start] == d[L.start]
  {
    if k == 0 then d else
      var e := Installed(L, d, h, k - 1);
      e[h[k - 1] := e[L.start + k]]
  }

  /** The disk after k of the writes of install_trans and then write_head with an empty header,
      which is how both commit and recovery end. */
  function Finishing(L: Layout, d: Disk, h: seq<int>, k: nat): (r: Disk)
    requires Fits(L, d) && GoodHead(L, d, h) && k <= |h| + 1
    ensures |r| == |d|
  {
    if k <= |h| then Installed(L, d, h, k) else SetHead(L, Installed(L, d, h, |h|), [])
  }

  /** The disk after k of the writes that recover_from_log issues. */
  function RecoveryState(L: Layout, d: Disk, k: nat): (r: Disk)
    requires HasHead(L, d) && k <= |Head(L, d)| + 1
    ensures |r| == |d|
  {
    Finishing(L, d, Head(L, d), k)
  }

  /** What a recovery that runs to its end makes of the disk. */
  function Recovered(L: Layout, d: Disk): (r: Disk)
    requires HasHead(L, d)
    ensures |r| == |d|
  {
    RecoveryState(L, d, |Head(L, d)| + 1)
  }

  /** The disk at the commit point: log blocks and header are written. */
  function AtCommit(L: Layout, d: Disk, t: Tx): (r: Disk)
    requires Fits(L, d) && |t.data| == |t.home| && GoodHead(L, d, t.home)
    ensures |r| == |d| && Fits(L, r)
  {
    SetHead(L, WriteLogged(L, d, t.data, |t.home|), t.home)
  }

  /** The number of block writes commit issues. */
  function CommitWrites(t: Tx): nat { if |t.home| == 0 then 0 else 2 * |t.home| + 2 }

  /** The disk after k of the writes that commit issues. */
  function CommitState(L: Layout, d: Disk, t: Tx, k: nat): (r: Disk)
    requires Fits(L, d) && |t.data| == |t.home| && GoodHead(L, d, t.home) && k <= CommitWrites(t)
    ensures |r| == |d|
  {
    if k <= |t.home| then WriteLogged(L, d, t.data, k)
    else Finishing(L, AtCommit(L, d, t), t.home, k - |t.home| - 1)
  }

  // ---------- what it means ----------

  /** The home contents that the file system asked for: t's data at t's home blocks. */
  ghost predicate IsUpdate(L: Layout, d: Disk, t: Tx, r: Disk)
    requires |t.data| == |t.home|
  {
    && |r| == |d|
    && (forall i :: 0 <= i < |t.home| ==> t.home[i] < |r| && r[t.home[i]] == t.data[i])
    && (forall b :: 0 <= b < |d| && !InLog(L, b) && b !in t.home ==> r[b] == d[b])
  }

  /** Equal outside the log region. */
  ghost predicate SameHome(L: Layout, d: Disk, e: Disk) {
    |d| == |e| && forall b :: 0 <= b < |d| && !InLog(L, b) ==> d[b] == e[b]
  }

  /** An empty log: what every completed commit and recovery leaves. */
  predicate Clean(L: Layout, d: Disk) { Fits(L, d) && d[L.start][0] == 0 }

  /** ds is a chain of crashes: each state is some prefix of a recovery of the one before. */
  ghost predicate CrashChain(L: Layout, ds: seq<Disk>) {
    && |ds| > 0
    && (forall i :: 0 <= i < |ds| ==> HasHead(L, ds[i]))
    && forall i :: 0 <= i < |ds| - 1 ==> CutShort(L, ds[i], ds[i + 1])
  }

  ghost predicate CutShort(L: Layout, d: Disk, e: Disk)
    requires HasHead(L, d)
  {
    exists k: nat :: k <= |Head(L, d)| + 1 && e == RecoveryState(L, d, k)
  }

  // ---------- pointwise readings of the loops ----------

  lemma {:induction false} WriteLoggedAt(L: Layout, d: Disk, data: seq<Block>, k: nat, b: nat)
    requires Fits(L, d) && k <= |data| < L.size && b < |d|
    ensures WriteLogged(L, d, data, k)[b]
         == if L.start < b <= L.start + k then data[b - L.start - 1] else d[b]
  {
    if k > 0 { WriteLoggedAt(L, d, data, k - 1, b); }
  }

  /** Installing never touches the log region. */
  lemma {:induction false} InstalledLog(L: Layout, d: Disk, h: seq<int>, k: nat, b: nat)
    requires Fits(L, d) && GoodHead(L, d, h) && k <= |h| && b < |d|
    requires InLog(L, b) || b !in h[..k]
    ensures Installed(L, d, h, k)[b] == d[b]
  {
    if k > 0 {
      assert h[..k] == h[..k - 1] + [h[k - 1]];
      InstalledLog(L, d, h, k - 1, b);
    }
  }

  /** Restarting an installation that was cut after k copies ends as if it had not been cut. */
  lemma {:induction false} InstallAgain(L: Layout, d: Disk, h: seq<int>, k: nat, m: nat, b: nat)
    requires Fits(L, d) && GoodHead(L, d, h) && k <= |h| && m <= |h| && b < |d|
    requires b in h[..m] || k <= m
    ensures Installed(L, Installed(L, d, h, k), h, m)[b] == Installed(L, d, h, m)[b]
    decreases m
  {
    var e := Installed(L, d, h, k);
    if m == 0 {
      assert k == 0 && h[..0] == [];
    } else {
      assert h[..m] == h[..m - 1] + [h[m - 1]];
      if b == h[m - 1] {
        InstalledLog(L, e, h, m - 1, L.start + m);
        InstalledLog(L, d, h, k, L.start + m);
        InstalledLog(L, d, h, m - 1, L.start + m);
      } else if b in h[..m - 1] || k <= m - 1 {
        InstallAgain(L, d, h, k, m - 1, b);
      } else {
        // k == m and b is none of the first m homes: nothing wrote it
        InstalledLog(L, e, h, m, b);
        InstalledLog(L, d, h, k, b);
      }
    }
  }

  /** With distinct homes, installing leaves log block i at home i. */
  lemma {:induction false} InstalledHome(L: Layout, d: Disk, h: seq<int>, k: nat, i: nat)
    requires Fits(L, d) && GoodHead(L, d, h) && i < k <= |h|
    requires forall i, j :: 0 <= i < j < |h| ==> h[i] != h[j]
    ensures Installed(L, d, h, k)[h[i]] == d[L.start + 1 + i]
  {
    if i == k - 1 {
      InstalledLog(L, d, h, k - 1, L.start + k);
    } else {
      InstalledHome(L, d, h, k - 1, i);
    }
  }

  lemma PutHeadRead(b: Block, h: seq<int>)
    requires |h| < WORDS == |b|
    ensures PutHead(b, h)[0] == |h| && PutHead(b, h)[1..1 + |h|] == h
  {
  }

  // ---------- recovery ----------

  /** Every prefix of a recovery keeps a readable header, and recovering from it ends in the
      same home contents as recovering from the start: recovery is restartable. */
  lemma RecoveryRestartable(L: Layout, d: Disk, k: nat)
    requires HasHead(L, d) && k <= |Head(L, d)| + 1
    ensures HasHead(L, RecoveryState(L, d, k))
    ensures SameHome(L, Recovered(L, RecoveryState(L, d, k)), Recovered(L, d))
    ensures Clean(L, Recovered(L, d))
  {
    var h, e := Head(L, d), RecoveryState(L, d, k);
    PutHeadRead(Installed(L, d, h, |h|)[L.start], []);
    if k <= |h| {
      InstalledLog(L, d, h, k, L.start);
      assert Head(L, e) == h;
      forall b | 0 <= b < |d| && !InLog(L, b)
        ensures Recovered(L, e)[b] == Recovered(L, d)[b]
      {
        InstallAgain(L, d, h, k, |h|, b);
      }
    } else {
      assert Head(L, e) == [];
    }
  }

  /** Any number of recoveries, each cut short anywhere, then one that completes. */
  lemma {:induction false} ChainRecovers(L: Layout, ds: seq<Disk>)
    requires CrashChain(L, ds)
    ensures SameHome(L, Recovered(L, ds[|ds| - 1]), Recovered(L, ds[0]))
  {
    if |ds| > 1 {
      assert CutShort(L, ds[0], ds[1]);
      var k: nat :| k <= |Head(L, ds[0])| + 1 && ds[1] == RecoveryState(L, ds[0], k);
      RecoveryRestartable(L, ds[0], k);
      var rest := ds[1..];
      forall i | 0 <= i < |rest| - 1 ensures CutShort(L, rest[i], rest[i + 1]) {
        assert CutShort(L, ds[i + 1], ds[i + 2]);
      }
      ChainRecovers(L, rest);
    }
  }

  // ---------- commit ----------

  /** Before the header write a crash is as if the transaction never happened. */
  lemma BeforeHeader(L: Layout, d: Disk, t: Tx, k: nat)
    requires Clean(L, d) && GoodTx(L, d, t) && k <= |t.home|
    ensures HasHead(L, CommitState(L, d, t, k))
    ensures SameHome(L, Recovered(L, CommitState(L, d, t, k)), d)
  {
    var e := CommitState(L, d, t, k);
    forall b | 0 <= b < |d|
      ensures e[b] == if L.start < b <= L.start + k then t.data[b - L.start - 1] else d[b]
    {
      WriteLoggedAt(L, d, t.data, k, b);
    }
    assert Head(L, e) == [];
  }

  /** The state just after the header write: the whole transaction is in the log. */
  lemma AtHeader(L: Layout, d: Disk, t: Tx)
    requires Clean(L, d) && GoodTx(L, d, t)
    ensures var c := AtCommit(L, d, t);
      && HasHead(L, c) && Head(L, c) == t.home
      && IsUpdate(L, d, t, Recovered(L, c))
  {
    var n := |t.home|;
    var w := WriteLogged(L, d, t.data, n);
    var c := AtCommit(L, d, t);
    PutHeadRead(w[L.start], t.home);
    assert Head(L, c) == t.home;
    var r := Recovered(L, c);
    forall i | 0 <= i < n ensures r[t.home[i]] == t.data[i] {
      InstalledHome(L, c, t.home, n, i);
      WriteLoggedAt(L, d, t.data, n, L.start + 1 + i);
    }
    forall b | 0 <= b < |d| && !InLog(L, b) && b !in t.home ensures r[b] == d[b] {
      InstalledLog(L, c, t.home, n, b);
      WriteLoggedAt(L, d, t.data, n, b);
    }
  }

  lemma UpdateOfSameHome(L: Layout, d: Disk, t: Tx, r: Disk, r': Disk)
    requires GoodTx(L, d, t) && IsUpdate(L, d, t, r) && SameHome(L, r', r)
    ensures IsUpdate(L, d, t, r')
  {
    forall i | 0 <= i < |t.home| ensures r'[t.home[i]] == t.data[i] {
      assert !InLog(L, t.home[i]);
    }
  }

  /** From the header write on a crash is as if the transaction had completed. */
  lemma AfterHeader(L: Layout, d: Disk, t: Tx, k: nat)
    requires Clean(L, d) && GoodTx(L, d, t) && |t.home| < k <= CommitWrites(t)
    ensures HasHead(L, CommitState(L, d, t, k))
    ensures IsUpdate(L, d, t, Recovered(L, CommitState(L, d, t, k)))
  {
    AtHeader(L, d, t);
    var c, j := AtCommit(L, d, t), k - |t.home| - 1;
    FromCommitted(L, d, t, c, j);
    assert RecoveryState(L, c, j) == Finishing(L, c, t.home, j) == CommitState(L, d, t, k);
  }

  lemma FromCommitted(L: Layout, d: Disk, t: Tx, c: Disk, k: nat)
    requires GoodTx(L, d, t) && HasHead(L, c) && k <= |Head(L, c)| + 1
    requires IsUpdate(L, d, t, Recovered(L, c))
    ensures HasHead(L, RecoveryState(L, c, k))
    ensures IsUpdate(L, d, t, Recovered(L, RecoveryState(L, c, k)))
  {
    RecoveryRestartable(L, c, k);
    UpdateOfSameHome(L, d, t, Recovered(L, c), Recovered(L, RecoveryState(L, c, k)));
  }

  /** Crash atomicity.  Cut commit after any k of its writes, then crash through any number of
      recoveries: the recovery that completes leaves every home block old when the header was
      not yet written and every home block new when it was. */
  lemma CrashAtomicity(L: Layout, d: Disk, t: Tx, k: nat, ds: seq<Disk>)
    requires Clean(L, d) && GoodTx(L, d, t) && k <= CommitWrites(t)
    requires CrashChain(L, ds) && ds[0] == CommitState(L, d, t, k)
    ensures var r := Recovered(L, ds[|ds| - 1]);
      && Clean(L, r)
      && (k <= |t.home| ==> SameHome(L, r, d))
      && (k > |t.home| ==> IsUpdate(L, d, t, r))
  {
    ChainRecovers(L, ds);
    RecoveryRestartable(L, ds[|ds| - 1], 0);
    if k <= |t.home| {
      BeforeHeader(L, d, t, k);
    } else {
      AfterHeader(L, d, t, k);
      UpdateOfSameHome(L, d, t, Recovered(L, ds[0]), Recovered(L, ds[|ds| - 1]));
    }
  }

  // ---------- whole runs ----------

  /** One transaction of a run: committed to the end, or cut after k writes with the chain of
      recoveries that followed. */
  datatype Event = Committed(t: Tx) | Crashed(t: Tx, k: nat, chain: seq<Disk>)

  /** Event e takes disk d to disk r. */
  ghost predicate Step(L: Layout, d: Disk, e: Event, r: Disk) {
    && Clean(L, d) && GoodTx(L, d, e.t)
    && match e
       case Committed(t) => r == CommitState(L, d, t, CommitWrites(t))
       case Crashed(t, k, chain) =>
         && k <= CommitWrites(t) && CrashChain(L, chain)
         && chain[0] == CommitState(L, d, t, k) && r == Recovered(L, chain[|chain| - 1])
  }

  ghost predicate Run(L: Layout, ds: seq<Disk>, es: seq<Event>) {
    |ds| == |es| + 1 && forall i :: 0 <= i < |es| ==> Step(L, ds[i], es[i], ds[i + 1])
  }

  /** The transactions of a run that count: the header write is the commit point. */
  function Effective(es: seq<Event>): seq<Tx> {
    if es == [] then [] else
      var e := es[|es| - 1];
      Effective(es[..|es| - 1]) + if e.Crashed? && e.k <= |e.t.home| then [] else [e.t]
  }

  function FirstAt(s: seq<nat>, b: nat): (i: nat)
    requires b in s
    ensures i < |s| && s[i] == b
  {
    if s[0] == b then 0 else 1 + FirstAt(s[1..], b)
  }

  /** The value the last transaction that names b gives it, or what d held. */
  function Latest(ts: seq<Tx>, d: Disk, b: nat): Block
    requires b < |d| && forall t :: t in ts ==> |t.data| == |t.home|
  {
    if ts == [] then d[b] else
      var t := ts[|ts| - 1];
      if b in t.home then
        t.data[FirstAt(t.home, b)]
      else Latest(ts[..|ts| - 1], d, b)
  }

  /** Durability and atomicity over any run of commits and crashes: every home block holds what
      the effective transactions, applied whole and in order, put there. */
  lemma {:induction false} RunIsSerial(L: Layout, ds: seq<Disk>, es: seq<Event>, b: nat)
    requires Run(L, ds, es) && Fits(L, ds[0]) && Clean(L, ds[0]) && b < |ds[0]| && !InLog(L, b)
    ensures forall t :: t in Effective(es) ==> |t.data| == |t.home|
    ensures |ds[|es|]| == |ds[0]| && Clean(L, ds[|es|])
    ensures ds[|es|][b] == Latest(Effective(es), ds[0], b)
  {
    if es != [] {
      var n := |es| - 1;
      var es', ds' := es[..n], ds[..n + 1];
      assert forall i :: 0 <= i < n ==> Step(L, ds[i], es[i], ds[i + 1]);
      RunIsSerial(L, ds', es', b);
      assert Step(L, ds[n], es[n], ds[n + 1]);
      var e, ts' := es[n], Effective(es');
      EventEffect(L, ds[n], e, ds[n + 1]);
      if e.Crashed? && e.k <= |e.t.home| {
        assert Effective(es) == ts' + [] == ts';
      } else {
        assert Effective(es) == ts' + [e.t];
        LatestAfter(L, ts', ds[0], e.t, ds[n], ds[n + 1], b);
      }
    }
  }

  lemma LatestAfter(L: Layout, ts: seq<Tx>, d0: Disk, t: Tx, d: Disk, r: Disk, b: nat)
    requires forall t :: t in ts ==> |t.data| == |t.home|
    requires b < |d0| == |d| && !InLog(L, b) && |t.data| == |t.home|
    requires d[b] == Latest(ts, d0, b) && IsUpdate(L, d, t, r)
    ensures r[b] == Latest(ts + [t], d0, b)
  {
    assert (ts + [t])[..|ts|] == ts;
  }

  lemma EventEffect(L: Layout, d: Disk, e: Event, r: Disk)
    requires Step(L, d, e, r)
    ensures Clean(L, r) && |r| == |d|
    ensures if e.Crashed? && e.k <= |e.t.home| then SameHome(L, r, d) else IsUpdate(L, d, e.t, r)
  {
    match e
    case Crashed(t, k, chain) => CrashAtomicity(L, d, t, k, chain);
    case Committed(t) =>
      var n := CommitWrites(t);
      if n > 0 {
        AfterHeader(L, d, t, n);
        PutHeadRead(d[L.start], []);
        assert Head(L, r) == [];
        UpdateOfSameHome(L, d, t, Recovered(L, r), r);
      }
  }

  lemma Completed(L: Layout, d: Disk, t: Tx, r: Disk)
    requires Clean(L, d) && GoodTx(L, d, t)
    requires r == if |t.home| == 0 then d else Finishing(L, AtCommit(L, d, t), t.home, |t.home| + 1)
    ensures Clean(L, r) && IsUpdate(L, d, t, r)
  {
    assert r == CommitState(L, d, t, CommitWrites(t));
    EventEffect(L, d, Committed(t), r);
  }

  // ---------- the routines ----------

  ghost function WriteLoggedTrace(L: Layout, d: Disk, data: seq<Block>, k: nat): (r: seq<Disk>)
    requires Fits(L, d) && k <= |data| < L.size
    ensures |r| == k
  {
    if k == 0 then [] else WriteLoggedTrace(L, d, data, k - 1) + [WriteLogged(L, d, data, k)]
  }

  ghost function InstalledTrace(L: Layout, d: Disk, h: seq<int>, k: nat): (r: seq<Disk>)
    requires Fits(L, d) && GoodHead(L, d, h) && k <= |h|
    ensures |r| == k
  {
    if k == 0 then [] else InstalledTrace(L, d, h, k - 1) + [Installed(L, d, h, k)]
  }

  /** The disk after each of recover_from_log's writes. */
  ghost function RecoveryTrace(L: Layout, d: Disk): (r: seq<Disk>)
    requires HasHead(L, d)
  {
    InstalledTrace(L, d, Head(L, d), |Head(L, d)|) + [Recovered(L, d)]
  }

  /** The disk after each of commit's writes. */
  ghost function CommitTrace(L: Layout, d: Disk, t: Tx): (r: seq<Disk>)
    requires Fits(L, d) && |t.data| == |t.home| && GoodHead(L, d, t.home)
  {
    var n := |t.home|;
    if n == 0 then [] else
      var c := AtCommit(L, d, t);
      WriteLoggedTrace(L, d, t.data, n) + [c]
      + (InstalledTrace(L, c, t.home, n) + [Finishing(L, c, t.home, n + 1)])
  }

  lemma {:induction false} WriteLoggedTraceAt(L: Layout, d: Disk, data: seq<Block>, k: nat, j: nat)
    requires Fits(L, d) && j < k <= |data| < L.size
    ensures WriteLoggedTrace(L, d, data, k)[j] == WriteLogged(L, d, data, j + 1)
  {
    if j < k - 1 { WriteLoggedTraceAt(L, d, data, k - 1, j); }
  }

  lemma {:induction false} InstalledTraceAt(L: Layout, d: Disk, h: seq<int>, k: nat, j: nat)
    requires Fits(L, d) && GoodHead(L, d, h) && j < k <= |h|
    ensures InstalledTrace(L, d, h, k)[j] == Installed(L, d, h, j + 1)
  {
    if j < k - 1 { InstalledTraceAt(L, d, h, k - 1, j); }
  }

  /** The traces list exactly the states that the crash theorems speak of. */
  lemma TracesAreStates(L: Layout, d: Disk, t: Tx)
    requires Fits(L, d) && |t.data| == |t.home| && GoodHead(L, d, t.home)
    ensures |CommitTrace(L, d, t)| == CommitWrites(t)
    ensures forall j: nat :: j < CommitWrites(t) ==> CommitTrace(L, d, t)[j] == CommitState(L, d, t, j + 1)
    ensures HasHead(L, d) ==> |RecoveryTrace(L, d)| == |Head(L, d)| + 1
    ensures HasHead(L, d) ==>
      forall j: nat :: j <= |Head(L, d)| ==> RecoveryTrace(L, d)[j] == RecoveryState(L, d, j + 1)
  {
    var n := |t.home|;
    var c := AtCommit(L, d, t);
    forall j: nat | j < CommitWrites(t)
      ensures CommitTrace(L, d, t)[j] == CommitState(L, d, t, j + 1)
    {
      if j < n {
        WriteLoggedTraceAt(L, d, t.data, n, j);
      } else if n < j <= 2 * n {
        InstalledTraceAt(L, c, t.home, n, j - n - 1);
      }
    }
    if HasHead(L, d) {
      var h := Head(L, d);
      forall j: nat | j <= |h| ensures RecoveryTrace(L, d)[j] == RecoveryState(L, d, j + 1) {
        if j < |h| { InstalledTraceAt(L, d, h, |h|, j); }
      }
    }
  }

  lemma Regroup<T>(a: seq<T>, b: seq<T>, c: T, d: seq<T>)
    ensures a + b + [c] + d == a + (b + [c] + d)
  {
  }

  /** log.c's state: the in-memory header's entries, the disk, and the valid buffers of the
      cache.  `writes` records the disk after every block write: what a crash can leave. */
  class LogDevice {
    const L: Layout
    var lh: seq<nat>
    var disk: Disk
    var cache: map<nat, Block>
    ghost var writes: seq<Disk>

    /** Only logged blocks may differ from the disk. */
    ghost predicate Valid()
      reads this
    {
      && Fits(L, disk) && GoodHead(L, disk, lh)
      && forall b :: b in cache ==> b < |disk| && (b in lh || cache[b] == disk[b])
    }

    /** t is the running transaction: the logged block numbers with their cached contents. */
    ghost predicate Holds(t: Tx)
      reads this
    {
      t.home == lh && |t.data| == |lh|
      && forall i :: 0 <= i < |lh| ==> lh[i] in cache && cache[lh[i]] == t.data[i]
    }

    constructor (L: Layout, disk: Disk)
      requires Fits(L, disk)
      ensures Valid() && this.L == L && this.disk == disk && lh == [] && writes == [] && cache == map[]
    {
      this.L, this.disk, lh, cache, writes := L, disk, [], map[], [];
    }

    /** bread: the buffer's contents, read from the disk when no buffer is valid. */
    method Bread(b: nat) returns (data: Block)
      requires b < |disk|
      modifies this`cache
      ensures data == old(if b in cache then cache[b] else disk[b])
      ensures cache == old(cache)[b := data]
    {
      data := if b in cache then cache[b] else disk[b];
      cache := cache[b := data];
    }

    /** bwrite: one atomic block write. */
    method Bwrite(b: nat, data: Block)
      requires b < |disk|
      modifies this`cache, this`disk, this`writes
      ensures disk == old(disk)[b := data] && cache == old(cache)[b := data]
      ensures writes == old(writes) + [disk]
    {
      cache, disk := cache[b := data], disk[b := data];
      writes := writes + [disk];
    }

    /** Read block `from`, copy it over block `to`, write `to`: one turn of either copying loop. */
    method Copy(from: nat, to: nat)
      requires Valid() && from < |disk| && to < |disk| && from != to && to != L.start
      modifies this`cache, this`disk, this`writes
      ensures var v := old(if from in cache then cache[from] else disk[from]);
        disk == old(disk)[to := v] && cache == old(cache)[from := v][to := v]
      ensures Valid() && writes == old(writes) + [disk]
    {
      var src := Bread(from);
      var dst := Bread(to);
      dst := src;
      Bwrite(to, dst);
    }

    /** One turn of write_log's loop: a log block takes a cached block's contents. */
    method LogOne(tail: nat, ghost t: Tx)
      requires Valid() && Holds(t) && tail < |lh|
      modifies this`cache, this`disk, this`writes
      ensures Valid() && Holds(t) && writes == old(writes) + [disk]
      ensures disk == old(disk)[L.start + tail + 1 := t.data[tail]]
    {
      assert forall i :: 0 <= i < |lh| ==> !InLog(L, lh[i]);
      Copy(lh[tail], L.start + tail + 1);
    }

    method WriteLog(ghost t: Tx)
      requires Valid() && Holds(t)
      modifies this`cache, this`disk, this`writes
      ensures Valid() && Holds(t)
      ensures disk == WriteLogged(L, old(disk), t.data, |lh|)
      ensures writes == old(writes) + WriteLoggedTrace(L, old(disk), t.data, |lh|)
    {
      var tail := 0;
      while tail < |lh|
        invariant 0 <= tail <= |lh| && Valid() && Holds(t)
        invariant disk == WriteLogged(L, old(disk), t.data, tail)
        invariant writes == old(writes) + WriteLoggedTrace(L, old(disk), t.data, tail)
      {
        LogOne(tail, t);
        tail := tail + 1;
      }
    }

    method WriteHead()
      requires Valid()
      modifies this`cache, this`disk, this`writes
      ensures Valid() && disk == SetHead(L, old(disk), lh) && writes == old(writes) + [disk]
      ensures cache == old(cache)[L.start := disk[L.start]]
    {
      assert L.start !in lh;
      var hb := Bread(L.start);
      var stale := hb;
      hb := hb[0 := |lh|];
      var i := 0;
      while i < |lh|
        invariant 0 <= i <= |lh|
        invariant hb == [|lh|] + lh[..i] + stale[1 + i..]
      {
        hb := hb[1 + i := lh[i]];
        i := i + 1;
      }
      assert lh[..|lh|] == lh;
      Bwrite(L.start, hb);
    }

    method ReadHead()
      requires HasHead(L, disk)
      requires forall b :: b in cache ==> b < |disk| && cache[b] == disk[b]
      modifies this`cache, this`lh
      ensures Valid() && lh == Head(L, disk)
    {
      var hb := Bread(L.start);
      var n := hb[0];
      var entries: seq<nat> := [];
      while |entries| < n
        invariant |entries| <= n && entries == hb[1..1 + |entries|]
      {
        assert Head(L, disk)[|entries|] == hb[1 + |entries|];
        entries := entries + [hb[1 + |entries|]];
      }
      lh := entries;
    }

    /** One turn of install_trans's loop: a home block takes a log block's contents. */
    method InstallOne(tail: nat)
      requires Valid() && tail < |lh|
      requires forall b :: b in cache ==> cache[b] == disk[b] || b in lh[tail..]
      modifies this`cache, this`disk, this`writes
      ensures Valid() && writes == old(writes) + [disk]
      ensures disk == old(disk)[lh[tail] := old(disk)[L.start + tail + 1]]
      ensures forall b :: b in cache ==> cache[b] == disk[b] || b in lh[tail + 1..]
    {
      assert lh[tail..] == [lh[tail]] + lh[tail + 1..];
      assert !InLog(L, lh[tail]) && L.start + tail + 1 !in lh;
      Copy(L.start + tail + 1, lh[tail]);
    }

    method InstallTrans()
      requires Valid()
      modifies this`cache, this`disk, this`writes
      ensures Valid() && disk == Installed(L, old(disk), lh, |lh|)
      ensures writes == old(writes) + InstalledTrace(L, old(disk), lh, |lh|)
      // every buffer is clean again
      ensures forall b :: b in cache ==> cache[b] == disk[b]
    {
      var tail := 0;
      while tail < |lh|
        invariant 0 <= tail <= |lh| && Valid()
        invariant disk == Installed(L, old(disk), lh, tail)
        invariant writes == old(writes) + InstalledTrace(L, old(disk), lh, tail)
        invariant forall b :: b in cache ==> cache[b] == disk[b] || b in lh[tail..]
      {
        InstallOne(tail);
        tail := tail + 1;
      }
    }

    /** How commit and recovery both end: install, then erase the log. */
    method Finish()
      requires Valid()
      modifies this
      ensures Valid() && lh == []
      ensures disk == Finishing(L, old(disk), old(lh), |old(lh)| + 1)
      ensures writes == old(writes) + (InstalledTrace(L, old(disk), old(lh), |old(lh)|) + [disk])
    {
      InstallTrans();
      lh := [];
      WriteHead();
    }

    /** recover_from_log: the disk passes through exactly the states of RecoveryTrace. */
    method RecoverFromLog()
      requires HasHead(L, disk)
      requires forall b :: b in cache ==> b < |disk| && cache[b] == disk[b]
      modifies this
      ensures Valid() && lh == [] && disk == Recovered(L, old(disk)) && Clean(L, disk)
      ensures writes == old(writes) + RecoveryTrace(L, old(disk))
    {
      ReadHead();
      Finish();
    }

    /** commit: the disk passes through exactly the states of CommitTrace, and ends with the
        transaction installed whole, the log empty and every buffer clean. */
    method Commit(ghost t: Tx)
      requires Valid() && Holds(t) && Clean(L, disk) && GoodTx(L, disk, t)
      modifies this
      ensures Valid() && lh == [] && Clean(L, disk)
      ensures IsUpdate(L, old(disk), t, disk)
      ensures writes == old(writes) + CommitTrace(L, old(disk), t)
    {
      if |lh| > 0 {
        WriteLog(t);
        WriteHead();
        ghost var c := disk;
        Finish();
        Regroup(old(writes), WriteLoggedTrace(L, old(disk), t.data, |t.home|), c,
                InstalledTrace(L, c, t.home, |t.home|) + [disk]);
      }
      Completed(L, old(disk), t, disk);
    }
  }
}
