/** Pipes (pipewrite, piperead, pipeclose in pipe.c).  A step is one stretch of p->lock: from
    acquire to release, or to a sleep that gives the lock up. */
module Pipe {
  import opened Machine
  import opened Ring

  const PIPESIZE: int := 512

  /** What a pipe means: everything ever stored, how much of it was read, which ends are open,
      and who sleeps on &p->nread and on &p->nwrite. */
  datatype View = View(stored: seq<Byte>, taken: nat, readOpen: bool, writeOpen: bool,
                       readers: set<nat>, writers: set<nat>) {
    function Pending(): int { |stored| - taken }

    predicate Ok() { 0 <= Pending() <= PIPESIZE }
  }

  const Fresh := View([], 0, true, true, {}, {})

  datatype Status = Done | Failed | Asleep

  /** How many of the bytes fit. */
  function Fitting(v: View, bytes: seq<Byte>): (k: int)
    requires v.Ok()
    ensures 0 <= k <= |bytes|
  {
    Min(|bytes|, PIPESIZE - v.Pending())
  }

  function WriteStatus(v: View, bytes: seq<Byte>, killed: bool): Status
    requires v.Ok()
  {
    if Fitting(v, bytes) == |bytes| then Done else if !v.readOpen || killed then Failed else Asleep
  }

  /** pipewrite by process p until it finishes, fails or sleeps. */
  function WriteStep(v: View, p: nat, bytes: seq<Byte>, killed: bool): View
    requires v.Ok()
  {
    var v' := Awake(v, p).(stored := v.stored + bytes[..Fitting(v, bytes)]);
    match WriteStatus(v, bytes, killed)
    case Done => v'.(readers := {})
    case Failed => v'
    case Asleep => v'.(readers := {}, writers := v.writers + {p})
  }

  /** p runs, so it does not sleep. */
  function Awake(v: View, p: nat): View { v.(readers := v.readers - {p}, writers := v.writers - {p}) }

  function ReadStatus(v: View, killed: bool): Status {
    if v.Pending() == 0 && v.writeOpen then if killed then Failed else Asleep else Done
  }

  function ReadCount(v: View, n: int): int { if n < 0 then 0 else Min(n, v.Pending()) }

  /** piperead by process p until it finishes, fails or sleeps. */
  function ReadStep(v: View, p: nat, n: int, killed: bool): View
    requires v.Ok()
  {
    match ReadStatus(v, killed)
    case Done => Awake(v, p).(taken := v.taken + ReadCount(v, n), writers := {})
    case Failed => Awake(v, p)
    case Asleep => Awake(v, p).(readers := v.readers + {p})
  }

  function ReadResult(v: View, n: int, killed: bool): seq<Byte>
    requires v.Ok()
  {
    if ReadStatus(v, killed).Done? then v.stored[v.taken..v.taken + ReadCount(v, n)] else []
  }

  /** pipeclose of one end. */
  function CloseStep(v: View, writable: bool): View {
    if writable then v.(writeOpen := false, readers := {}) else v.(readOpen := false, writers := {})
  }

  // ---------- runs ----------

  datatype Event =
    | Write(p: nat, bytes: seq<Byte>, wkilled: bool)
    | Read(p: nat, n: int, rkilled: bool)
    | Close(writable: bool)
    | Kill(p: nat)                                  // kill rouses p wherever it sleeps

  /** A process reads and writes through an end that it holds open, so an end on which somebody sleeps
      is not closed. */
  predicate Can(v: View, e: Event) {
    match e
    case Write(_, _, _) => v.writeOpen
    case Read(_, _, _) => v.readOpen
    case Close(writable) => if writable then v.writeOpen && v.writers == {} else v.readOpen && v.readers == {}
    case Kill(_) => true
  }

  function Step(v: View, e: Event): View
    requires v.Ok()
  {
    match e
    case Write(p, bytes, killed) => WriteStep(v, p, bytes, killed)
    case Read(p, n, killed) => ReadStep(v, p, n, killed)
    case Close(writable) => CloseStep(v, writable)
    case Kill(p) => Awake(v, p)
  }

  ghost predicate Run(vs: seq<View>, es: seq<Event>) {
    && |vs| == |es| + 1 && vs[0] == Fresh
    && forall i :: 0 <= i < |es| ==> vs[i].Ok() && Can(vs[i], es[i]) && vs[i + 1] == Step(vs[i], es[i])
  }

  /** Everything the readers of the first i steps got, in order. */
  ghost function Received(vs: seq<View>, es: seq<Event>, i: nat): seq<Byte>
    requires Run(vs, es) && i <= |es|
  {
    if i == 0 then [] else
      Received(vs, es, i - 1)
      + if es[i - 1].Read? then ReadResult(vs[i - 1], es[i - 1].n, es[i - 1].rkilled) else []
  }

  /** Nobody sleeps for data that is there, or for an end that is closed. */
  predicate NoStuckReader(v: View) { v.readers == {} || (v.Pending() == 0 && v.writeOpen) }

  /** Nobody sleeps for room that is there, or for an end that is closed. */
  predicate NoStuckWriter(v: View) { v.writers == {} || (v.Pending() == PIPESIZE && v.readOpen) }

  /** Who sleeps holds its end open. */
  predicate EndsOpen(v: View) { (v.readers != {} ==> v.readOpen) && (v.writers != {} ==> v.writeOpen) }

  /** The one way to leave a reader stuck: a killed writer that stores some of its bytes and not all
      of them, while another process sleeps for data. */
  predicate Strands(v: View, e: Event)
    requires v.Ok()
  {
    e.Write? && e.wkilled && 0 < Fitting(v, e.bytes) < |e.bytes| && v.readers - {e.p} != {}
  }

  /** A step leaves a reader asleep beside pending bytes exactly when it is that one; writers
      never get stuck. */
  lemma StuckReaderIff(v: View, e: Event)
    requires v.Ok() && Can(v, e) && EndsOpen(v) && NoStuckReader(v) && NoStuckWriter(v)
    ensures Step(v, e).Ok() && EndsOpen(Step(v, e)) && NoStuckWriter(Step(v, e))
    ensures NoStuckReader(Step(v, e)) <==> !Strands(v, e)
  {
    match e
    case Write(p, bytes, killed) =>
      var v' := Step(v, e);
      assert v'.Pending() == v.Pending() + Fitting(v, bytes);
      assert v.writers != {} ==> Fitting(v, bytes) == 0;
    case Read(p, n, killed) => assert Step(v, e).Pending() <= v.Pending();
    case Close(writable) =>
    case Kill(p) =>
  }

  /** A reader sleeps on an empty pipe, a killed writer fills it and leaves: the reader sleeps on
      beside a full pipe. */
  lemma KilledWriterStrandsReader(bytes: seq<Byte>)
    requires |bytes| > PIPESIZE
    ensures var v := Step(Fresh, Read(1, 1, false));
      && Run([Fresh, v, Step(v, Write(2, bytes, true))], [Read(1, 1, false), Write(2, bytes, true)])
      && Step(v, Write(2, bytes, true)).readers == {1} && Step(v, Write(2, bytes, true)).Pending() == PIPESIZE
  {
    var v := Step(Fresh, Read(1, 1, false));
    assert v.readers == {1} && v.Pending() == 0;
    assert |bytes[..Fitting(v, bytes)]| == PIPESIZE;
  }

  /** In every run at most PIPESIZE bytes are pending and what has been received is a prefix of
      what has been stored; if no killed writer gives up after storing, nobody is ever stuck. */
  lemma {:induction false} PipeSafe(vs: seq<View>, es: seq<Event>, i: nat)
    requires Run(vs, es) && i <= |es|
    ensures vs[i].Ok() && vs[i].taken <= |vs[i].stored|
    ensures Received(vs, es, i) == vs[i].stored[..vs[i].taken]
    ensures (forall j :: 0 <= j < i ==> !Strands(vs[j], es[j])) ==>
      EndsOpen(vs[i]) && NoStuckReader(vs[i]) && NoStuckWriter(vs[i])
  {
    if i > 0 {
      PipeSafe(vs, es, i - 1);
      var v, e := vs[i - 1], es[i - 1];
      if EndsOpen(v) && NoStuckReader(v) && NoStuckWriter(v) { StuckReaderIff(v, e); }
      StreamStep(v, e);
    }
  }

  lemma StreamStep(v: View, e: Event)
    requires v.Ok()
    ensures var v' := Step(v, e);
      && v'.Ok() && v.stored <= v'.stored
      && v'.stored[..v'.taken] == v.stored[..v.taken] + if e.Read? then ReadResult(v, e.n, e.rkilled) else []
  {
    match e
    case Write(p, bytes, killed) => assert |bytes[..Fitting(v, bytes)]| == Fitting(v, bytes);
    case Read(p, n, killed) =>
    case Close(writable) =>
    case Kill(p) =>
  }

  // ---------- the ring ----------

  /** struct pipe.  `view` is what the counters and the ring stand for. */
  class PipeBuf {
    var data: array<Byte>
    var nread: int
    var nwrite: int
    var readopen: bool
    var writeopen: bool
    ghost var view: View

    ghost predicate Valid()
      reads this, data
    {
      && view.Ok() && data.Length == PIPESIZE
      && nread == Wrap(view.taken) && nwrite == Wrap(|view.stored|)
      && readopen == view.readOpen && writeopen == view.writeOpen
      && Holds(data[..], view.taken, |view.stored|, view.stored)
    }

    constructor ()
      ensures Valid() && view == Fresh && fresh(data)
    {
      data := new Byte[PIPESIZE];
      nread, nwrite, readopen, writeopen, view := 0, 0, true, true, Fresh;
    }

    /** p->data[p->nwrite++ % PIPESIZE] = c */
    method Put(c: Byte)
      requires Valid() && view.Pending() < PIPESIZE
      modifies this`nwrite, this`view, data
      ensures Valid() && view == old(view).(stored := old(view).stored + [c])
    {
      ghost var hi := |view.stored|;
      SameSlot(hi, PIPESIZE, 0x80_0000);
      SameCounter(hi, hi);
      Store(data[..], view.taken, view.stored, c);
      ghost var ring := data[..];
      data[nwrite % PIPESIZE] := c;
      assert data[..] == ring[hi % PIPESIZE := c];
      nwrite := Wrap(nwrite + 1);
      view := view.(stored := view.stored + [c]);
    }

    /** addr[i] = p->data[p->nread++ % PIPESIZE] */
    method Get() returns (c: Byte)
      requires Valid() && view.Pending() > 0
      modifies this`nread, this`view
      ensures Valid() && c == old(view).stored[old(view).taken]
      ensures view == old(view).(taken := old(view).taken + 1)
    {
      ghost var lo := view.taken;
      SameSlot(lo, PIPESIZE, 0x80_0000);
      SameCounter(lo, lo);
      c := data[nread % PIPESIZE];
      assert c == data[..][lo % PIPESIZE];
      nread := Wrap(nread + 1);
      view := view.(taken := view.taken + 1);
    }

    /** The code's test for a full ring, on wrapped counters. */
    method IsFull() returns (r: bool)
      requires Valid()
      ensures r <==> view.Pending() == PIPESIZE
    {
      FullCounter(view.taken, |view.stored|, PIPESIZE);
      r := nwrite == Wrap(nread + PIPESIZE);
    }

    method IsEmpty() returns (r: bool)
      requires Valid()
      ensures r <==> view.Pending() == 0
    {
      SameCounter(view.taken, |view.stored|);
      r := nread == nwrite;
    }

    /** pipewrite from byte i on, by process p. */
    method PipeWrite(p: nat, bytes: seq<Byte>, killed: bool) returns (i: nat, status: Status)
      requires Valid()
      modifies this, data
      ensures Valid() && data == old(data) && view == WriteStep(old(view), p, bytes, killed)
      ensures status == WriteStatus(old(view), bytes, killed) && i == Fitting(old(view), bytes)
      ensures i == Min(|bytes|, PIPESIZE - old(view).Pending()) && view.stored == old(view).stored + bytes[..i]
      ensures view.taken == old(view).taken && (status == Done <==> i == |bytes|)
      ensures status == Failed <==> i < |bytes| && (!old(view).readOpen || killed)
      ensures view.writers == if status == Asleep then old(view).writers + {p} else old(view).writers - {p}
    {
      i := 0;
      ghost var v := view;
      view := Awake(view, p);
      while i < |bytes|
        invariant Valid() && data == old(data) && i <= Fitting(v, bytes)
        invariant view == Awake(v, p).(stored := v.stored + bytes[..i])
      {
        var full := IsFull();
        if full {
          if !readopen || killed { return i, Failed; }
          view := view.(readers := {}, writers := v.writers + {p});
          return i, Asleep;
        }
        Put(bytes[i]);
        assert v.stored + bytes[..i] + [bytes[i]] == v.stored + bytes[..i + 1];
        i := i + 1;
      }
      view := view.(readers := {});
      status := Done;
    }

    /** piperead of at most n bytes, by process p. */
    method PipeRead(p: nat, n: int, killed: bool) returns (out: seq<Byte>, status: Status)
      requires Valid()
      modifies this
      ensures Valid() && data == old(data) && view == ReadStep(old(view), p, n, killed)
      ensures status == ReadStatus(old(view), killed) && out == ReadResult(old(view), n, killed)
      ensures status == Done <==> old(view).Pending() > 0 || !old(view).writeOpen
      ensures status == Done ==> |out| == Min(Max(n, 0), old(view).Pending())
      ensures status == Failed ==> killed
      ensures out == old(view).stored[old(view).taken..view.taken] && view.stored == old(view).stored
      ensures p in view.readers <==> status == Asleep
    {
      ghost var v := view;
      view := Awake(view, p);
      var empty := IsEmpty();
      if empty && writeopen {
        if killed { return [], Failed; }
        view := view.(readers := v.readers + {p});
        return [], Asleep;
      }
      out := Drain(n);
      view := view.(writers := {});
      status := Done;
    }

    /** piperead's copying loop. */
    method Drain(n: int) returns (out: seq<Byte>)
      requires Valid()
      modifies this`nread, this`view
      ensures Valid() && view == old(view).(taken := old(view).taken + ReadCount(old(view), n))
      ensures out == old(view).stored[old(view).taken..view.taken]
    {
      ghost var v := view;
      out := [];
      while |out| < n
        invariant Valid() && |out| <= ReadCount(v, n)
        invariant view == v.(taken := v.taken + |out|) && out == v.stored[v.taken..view.taken]
        decreases n - |out|
      {
        var e := IsEmpty();
        if e { break; }
        var c := Get();
        out := out + [c];
      }
    }

    /** pipeclose of one end; the page is freed when both ends are closed. */
    method PipeClose(writable: bool) returns (freed: bool)
      requires Valid()
      modifies this
      ensures Valid() && data == old(data) && view == CloseStep(old(view), writable)
      ensures freed <==> !view.readOpen && !view.writeOpen
      ensures view.writeOpen == (old(view).writeOpen && !writable) && view.readOpen == (old(view).readOpen && writable)
      ensures view.readers == (if writable then {} else old(view).readers)
      ensures view.writers == (if writable then old(view).writers else {})
      ensures view.stored == old(view).stored && view.taken == old(view).taken
    {
      if writable {
        writeopen, view := false, view.(writeOpen := false, readers := {});
      } else {
        readopen, view := false, view.(readOpen := false, writers := {});
      }
      freed := !readopen && !writeopen;
    }
  }
}
