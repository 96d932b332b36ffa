/** The console input ring (consoleintr and consoleread in console.c).  A step is one key, or one
    stretch of cons.lock in consoleread up to its release or its sleep. */
module Console {
  import opened Machine
  import opened Ring

  const INPUT_BUF: int := 128

  const NUL: Byte := 0
  const CtrlD: Byte := 4
  const CtrlH: Byte := 8
  const NL: Byte := 10
  const CR: Byte := 13
  const CtrlP: Byte := 16
  const CtrlU: Byte := 21
  const DEL: Byte := 127

  /** What the ring means: all bytes ever committed, how many of them are consumed, the line that
      can still be edited, and who sleeps on &input.r. */
  datatype View = View(committed: seq<Byte>, taken: nat, line: seq<Byte>, readers: set<nat>) {
    function Used(): int { |committed| + |line| - taken }

    predicate Ok() { taken <= |committed| && Used() <= INPUT_BUF && NL !in line && CtrlD !in line }
  }

  const Fresh := View([], 0, [], {})

  // ---------- keys ----------

  /** consoleintr for one key. */
  function KeyStep(v: View, c: Byte): View
    requires v.Ok()
  {
    if c == CtrlP then v
    else if c == CtrlU then v.(line := [])
    else if c == CtrlH || c == DEL then if v.line == [] then v else v.(line := v.line[..|v.line| - 1])
    else if c == NUL || v.Used() >= INPUT_BUF then v
    else
      var c' := if c == CR then NL else c;
      if c' == NL || c' == CtrlD || v.Used() + 1 == INPUT_BUF
      then View(v.committed + v.line + [c'], v.taken, [], {})
      else v.(line := v.line + [c'])
  }

  // ---------- reads ----------

  /** One scan of consoleread: `used` bytes of the ring go, `out` is copied, and the call is over
      unless it ran out of committed bytes. */
  datatype Scan = Scan(used: nat, out: seq<Byte>, over: bool)

  function ReadScan(s: seq<Byte>, i: nat, n: nat, first: bool): Scan
    requires i <= |s|
    decreases |s| - i
  {
    if n == 0 then Scan(0, [], true)
    else if i == |s| then Scan(0, [], false)
    else if s[i] == CtrlD then Scan(if first then 1 else 0, [], true)
    else if s[i] == NL then Scan(1, [NL], true)
    else var r := ReadScan(s, i + 1, n - 1, false); Scan(r.used + 1, [s[i]] + r.out, r.over)
  }

  /** A scan that has copied `out` so far goes on as `rest`. */
  ghost predicate Ahead(all: Scan, out: seq<Byte>, rest: Scan) {
    all == Scan(|out| + rest.used, out + rest.out, rest.over)
  }

  lemma AheadStep(s: seq<Byte>, i: nat, all: Scan, out: seq<Byte>, m: nat, first: bool)
    requires m > 0 && i < |s| && Ahead(all, out, ReadScan(s, i, m, first))
    ensures (s[i] == CtrlD ==> all == Scan(|out| + if first then 1 else 0, out, true))
    ensures (s[i] == NL ==> all == Scan(|out| + 1, out + [s[i]], true))
    ensures (s[i] != CtrlD && s[i] != NL ==> Ahead(all, out + [s[i]], ReadScan(s, i + 1, m - 1, false)))
  {
    if s[i] != CtrlD && s[i] != NL {
      var r := ReadScan(s, i + 1, m - 1, false);
      assert out + ([s[i]] + r.out) == out + [s[i]] + r.out;
    }
  }

  /** The next byte is a ^D. */
  predicate AtEof(s: seq<Byte>, i: nat) { i < |s| && s[i] == CtrlD }

  /** A scan consumes the next bytes and copies exactly them, except a ^D, which ends the call and
      is kept for the next one unless it comes first. */
  lemma {:induction false} ScanPrefix(s: seq<Byte>, i: nat, n: nat, first: bool)
    requires i <= |s|
    ensures var r := ReadScan(s, i, n, first);
      && i + r.used <= |s| && |r.out| <= n && r.out == NoEof(s[i..i + r.used])
      && CtrlD !in r.out && (forall k :: 0 <= k < |r.out| - 1 ==> r.out[k] != NL)
      && (!r.over ==> i + r.used == |s| && |r.out| < n)
    decreases |s| - i
  {
    if n != 0 && i < |s| {
      if s[i] == CtrlD || s[i] == NL {
        assert s[i..i + 1][1..] == [];
      } else {
        ScanPrefix(s, i + 1, n - 1, false);
        var r := ReadScan(s, i + 1, n - 1, false);
        var t := s[i..i + 1 + r.used];
        assert t[0] == s[i] && t[1..] == s[i + 1..i + 1 + r.used];
      }
    }
  }

  /** A scan is over exactly when it has its n bytes, a whole line, or met a ^D, which it consumes exactly when
      it comes first. */
  lemma {:induction false} ScanOver(s: seq<Byte>, i: nat, n: nat, first: bool)
    requires i <= |s|
    ensures var r := ReadScan(s, i, n, first);
      && (r.over <==> |r.out| == n || (r.out != [] && r.out[|r.out| - 1] == NL) || AtEof(s, i + |r.out|))
      && r.used == |r.out| + if first && n > 0 && AtEof(s, i) then 1 else 0
    decreases |s| - i
  {
    if n != 0 && i < |s| && s[i] != CtrlD && s[i] != NL { ScanOver(s, i + 1, n - 1, false); }
  }

  function NoEof(s: seq<Byte>): seq<Byte> {
    if s == [] then [] else if s[0] == CtrlD then NoEof(s[1..]) else [s[0]] + NoEof(s[1..])
  }

  lemma {:induction false} NoEofConcat(a: seq<Byte>, b: seq<Byte>)
    ensures NoEof(a + b) == NoEof(a) + NoEof(b)
  {
    if a == [] {
      assert a + b == b;
    } else {
      NoEofConcat(a[1..], b);
      assert (a + b)[0] == a[0] && (a + b)[1..] == a[1..] + b;
      if a[0] != CtrlD { assert [a[0]] + (NoEof(a[1..]) + NoEof(b)) == [a[0]] + NoEof(a[1..]) + NoEof(b); }
    }
  }

  datatype Status = Done | Failed | Asleep

  function Scanned(v: View, n: nat, first: bool): Scan
    requires v.Ok()
  {
    ReadScan(v.committed, v.taken, n, first)
  }

  /** consoleread by process p with n bytes to go; `first` until something was copied. */
  function ReadStep(v: View, p: nat, n: nat, first: bool, killed: bool): View
    requires v.Ok()
  {
    var r := Scanned(v, n, first);
    var v' := v.(taken := v.taken + r.used);
    v'.(readers := if !r.over && !killed then v.readers + {p} else v.readers - {p})
  }

  // ---------- runs ----------

  datatype Event = Key(c: Byte) | Read(p: nat, n: nat, first: bool, killed: bool)

  function Step(v: View, e: Event): View
    requires v.Ok()
  {
    match e
    case Key(c) => KeyStep(v, c)
    case Read(p, n, first, killed) => ReadStep(v, p, n, first, killed)
  }

  predicate NoStuckReader(v: View) { v.readers == {} || v.taken == |v.committed| }

  /** Every step keeps r <= w <= e <= r + INPUT_BUF, never changes a committed byte, and never
      leaves a reader asleep beside committed bytes. */
  lemma StepSafe(v: View, e: Event)
    requires v.Ok() && NoStuckReader(v)
    ensures var v' := Step(v, e); v'.Ok() && NoStuckReader(v') && v.committed <= v'.committed
  {
    if e.Read? { ScanPrefix(v.committed, v.taken, e.n, e.first); }
  }

  /** Editing keys change only the uncommitted line. */
  lemma EditingKeys(v: View, c: Byte)
    requires v.Ok() && (c == CtrlU || c == CtrlH || c == DEL)
    ensures var v' := KeyStep(v, c);
      v' == v.(line := v'.line) && v'.line <= v.line && (c == CtrlU ==> v'.line == [])
  {
  }

  /** Everything typed and not erased, committed or not. */
  function Text(v: View): seq<Byte> { v.committed + v.line }

  /** A key that is stored if there is room. */
  predicate Ordinary(c: Byte) { c != NUL && c != CtrlP && c != CtrlU && c != CtrlH && c != DEL }

  /** A key that ends the line, or the last byte there is room for. */
  predicate Commits(v: View, c: Byte) {
    Ordinary(c) && v.Used() < INPUT_BUF && (c == CR || c == NL || c == CtrlD || v.Used() + 1 == INPUT_BUF)
  }

  /** A stored key is the next byte of the text, CR as NL; all text is committed exactly when the key ends
      the line or fills the ring, and then every reader is woken; nothing else is ever committed. */
  lemma KeyTyped(v: View, c: Byte)
    requires v.Ok()
    ensures var v' := KeyStep(v, c);
      && (Ordinary(c) && v.Used() < INPUT_BUF ==> Text(v') == Text(v) + [if c == CR then NL else c])
      && (Ordinary(c) && v.Used() >= INPUT_BUF ==> v' == v)
      && (!Ordinary(c) ==> v' == v.(line := v'.line) && v'.line <= v.line)
      && (c == CtrlH || c == DEL ==> |v'.line| == Max(|v.line| - 1, 0)) && (c == CtrlU ==> v'.line == [])
      && (c == NUL || c == CtrlP ==> v' == v) && v'.taken == v.taken
      && v'.committed == (if Commits(v, c) then Text(v') else v.committed)
      && v'.readers == (if Commits(v, c) then {} else v.readers)
  {
    var v' := KeyStep(v, c);
    if Ordinary(c) && v.Used() < INPUT_BUF && !Commits(v, c) { assert Text(v') == Text(v) + [c]; }
    if Commits(v, c) { assert Text(v') == v'.committed; }
  }

  ghost predicate Run(vs: seq<View>, es: seq<Event>) {
    && |vs| == |es| + 1 && vs[0] == Fresh
    && forall i :: 0 <= i < |es| ==> vs[i].Ok() && vs[i + 1] == Step(vs[i], es[i])
  }

  /** Everything the reads of the first i steps copied out, in order. */
  ghost function Received(vs: seq<View>, es: seq<Event>, i: nat): seq<Byte>
    requires Run(vs, es) && i <= |es|
  {
    if i == 0 then [] else
      Received(vs, es, i - 1)
      + if es[i - 1].Read? then Scanned(vs[i - 1], es[i - 1].n, es[i - 1].first).out else []
  }

  /** In every run the readers receive, in order, exactly the committed bytes without the ^Ds
      that ended their calls. */
  lemma {:induction false} ConsoleSafe(vs: seq<View>, es: seq<Event>, i: nat)
    requires Run(vs, es) && i <= |es|
    ensures vs[i].Ok() && NoStuckReader(vs[i])
    ensures Received(vs, es, i) == NoEof(vs[i].committed[..vs[i].taken])
  {
    if i > 0 {
      ConsoleSafe(vs, es, i - 1);
      StepSafe(vs[i - 1], es[i - 1]);
      StreamStep(vs[i - 1], es[i - 1]);
    }
  }

  lemma StreamStep(v: View, e: Event)
    requires v.Ok()
    ensures var v' := Step(v, e);
      v'.taken <= |v'.committed| && NoEof(v'.committed[..v'.taken])
      == NoEof(v.committed[..v.taken]) + if e.Read? then Scanned(v, e.n, e.first).out else []
  {
    var v' := Step(v, e);
    var a := v.committed[..v.taken];
    if e.Read? {
      var r := Scanned(v, e.n, e.first);
      ScanPrefix(v.committed, v.taken, e.n, e.first);
      var b := v.committed[v.taken..v.taken + r.used];
      NoEofConcat(a, b);
      assert v'.committed[..v'.taken] == a + b by { assert v'.committed == v.committed; }
    } else {
      assert v'.committed[..v'.taken] == a;
      assert NoEof(a) + [] == NoEof(a);
    }
  }

  // ---------- the ring ----------

  /** The static `input`.  `view` is what the three counters and the ring stand for. */
  class Input {
    var buf: array<Byte>
    var r: int
    var w: int
    var e: int
    ghost var view: View

    ghost predicate Valid()
      reads this, buf
    {
      && view.Ok() && buf.Length == INPUT_BUF
      && r == Wrap(view.taken) && w == Wrap(|view.committed|) && e == Wrap(|view.committed| + |view.line|)
      && Holds(buf[..], view.taken, |view.committed| + |view.line|, view.committed + view.line)
    }

    constructor ()
      ensures Valid() && view == Fresh && fresh(buf)
    {
      buf := new Byte[INPUT_BUF];
      r, w, e, view := 0, 0, 0, Fresh;
    }

    /** input.e--: the last byte of the line goes. */
    method Erase()
      requires Valid() && view.line != []
      modifies this`e, this`view
      ensures Valid() && view == old(view).(line := old(view).line[..|old(view).line| - 1])
    {
      ghost var hi := |view.committed| + |view.line|;
      SameCounter(hi, hi);
      ghost var line' := view.line[..|view.line| - 1];
      assert view.committed + view.line == view.committed + line' + [view.line[|line'|]];
      e := Wrap(e - 1);
      view := view.(line := line');
    }

    /** input.buf[input.e++ % INPUT_BUF] = c */
    method Append(c: Byte)
      requires Valid() && view.Used() < INPUT_BUF
      modifies this`e, buf
      ensures e == Wrap(|view.committed| + |view.line| + 1)
      ensures Holds(buf[..], view.taken, |view.committed| + |view.line| + 1, view.committed + view.line + [c])
    {
      ghost var hi := |view.committed| + |view.line|;
      SameSlot(hi, INPUT_BUF, 0x200_0000);
      SameCounter(hi, hi);
      Store(buf[..], view.taken, view.committed + view.line, c);
      ghost var ring := buf[..];
      buf[e % INPUT_BUF] := c;
      assert buf[..] == ring[hi % INPUT_BUF := c];
      e := Wrap(e + 1);
    }

    /** consoleintr's loop body for a key that is not an editing key. */
    method Type(c: Byte)
      requires Valid() && c != CtrlP && c != CtrlU && c != CtrlH && c != DEL
      modifies this, buf
      ensures Valid() && buf == old(buf) && view == KeyStep(old(view), c)
    {
      ghost var v := view;
      ghost var hi := |v.committed| + |v.line|;
      SameCounter(v.taken, hi);
      if c != NUL && Wrap(e - r) < INPUT_BUF {
        var c' := if c == CR then NL else c;
        Append(c');
        FullCounter(v.taken, hi + 1, INPUT_BUF);
        assert v.committed + v.line + [c'] == v.committed + (v.line + [c']) == v.committed + v.line + [c'] + [];
        if c' == NL || c' == CtrlD || e == Wrap(r + INPUT_BUF) {
          w := e;
          view := View(v.committed + v.line + [c'], v.taken, [], {});
        } else {
          view := v.(line := v.line + [c']);
        }
      }
    }

    /** consoleintr's ^U loop: it stops at the last commit, never earlier. */
    method KillLine()
      requires Valid()
      modifies this`e, this`view
      ensures Valid() && view == old(view).(line := [])
    {
      ghost var v := view;
      SameCounter(|view.committed|, |view.committed| + |view.line|);
      LastInLine();
      while e != w && buf[Wrap(e - 1) % INPUT_BUF] != NL
        invariant Valid() && view == v.(line := view.line)
        invariant e == w <==> view.line == []
        invariant view.line != [] ==> buf[Wrap(e - 1) % INPUT_BUF] != NL
        decreases |view.line|
      {
        Erase();
        SameCounter(|view.committed|, |view.committed| + |view.line|);
        LastInLine();
      }
    }

    /** consoleintr for one key. */
    method Key(c: Byte)
      requires Valid()
      modifies this, buf
      ensures Valid() && buf == old(buf) && view == KeyStep(old(view), c)
    {
      if c == CtrlP {
      } else if c == CtrlU {
        KillLine();
      } else if c == CtrlH || c == DEL {
        SameCounter(|view.committed|, |view.committed| + |view.line|);
        if e != w { Erase(); }
      } else {
        Type(c);
      }
    }

    /** The byte under e - 1 is the last of the line, so it is no newline. */
    lemma LastInLine()
      requires Valid()
      ensures view.line != [] ==> buf[Wrap(e - 1) % INPUT_BUF] == view.line[|view.line| - 1] != NL
    {
      if view.line != [] {
        var hi := |view.committed| + |view.line|;
        SameCounter(hi, hi);
        SameSlot(hi - 1, INPUT_BUF, 0x200_0000);
        assert buf[..][(hi - 1) % INPUT_BUF] == (view.committed + view.line)[hi - 1];
        assert view.line[|view.line| - 1] in view.line;
      }
    }

    /** input.buf[input.r++ % INPUT_BUF] */
    method Take() returns (c: Byte)
      requires Valid() && view.taken < |view.committed|
      modifies this`r, this`view
      ensures Valid() && c == old(view).committed[old(view).taken]
      ensures view == old(view).(taken := old(view).taken + 1)
    {
      SameSlot(view.taken, INPUT_BUF, 0x200_0000);
      SameCounter(view.taken, view.taken);
      c := buf[r % INPUT_BUF];
      assert c == buf[..][view.taken % INPUT_BUF];
      r := Wrap(r + 1);
      view := view.(taken := view.taken + 1);
    }

    /** input.r-- just after a Take: the ^D is kept. */
    method Untake()
      requires Valid() && view.taken > 0 && view.Used() < INPUT_BUF
      requires buf[(view.taken - 1) % INPUT_BUF] == view.committed[view.taken - 1]
      modifies this`r, this`view
      ensures Valid() && view == old(view).(taken := old(view).taken - 1)
    {
      SameCounter(view.taken, view.taken);
      r := Wrap(r - 1);
      view := view.(taken := view.taken - 1);
    }

    /** The code's test for nothing committed, on wrapped counters. */
    method IsEmpty() returns (b: bool)
      requires Valid()
      ensures b <==> view.taken == |view.committed|
    {
      SameCounter(view.taken, |view.committed|);
      b := r == w;
    }

    /** One turn of consoleread's loop on a ring that is not empty; a ^D that is not the first
        byte of the call stays. */
    method TakeOne(first: bool) returns (c: Byte)
      requires Valid() && view.taken < |view.committed|
      modifies this`r, this`view
      ensures Valid() && c == old(view).committed[old(view).taken]
      ensures view == old(view).(taken := old(view).taken + if c == CtrlD && !first then 0 else 1)
    {
      ghost var k := view.taken;
      assert buf[..][k % INPUT_BUF] == view.committed[k];
      c := Take();
      if c == CtrlD {
        if !first { Untake(); }
      }
    }

    /** consoleread's loop with n bytes to go, until it ends or finds the ring empty. */
    method CopyOut(n: nat, first: bool) returns (out: seq<Byte>, over: bool)
      requires Valid()
      modifies this`r, this`view
      ensures Valid()
      ensures var all := Scanned(old(view), n, first);
        out == all.out && over == all.over && view == old(view).(taken := old(view).taken + all.used)
    {
      ghost var v, all := view, Scanned(view, n, first);
      out := [];
      var m: nat := n;
      while m > 0
        invariant Valid() && view == v.(taken := v.taken + |out|) && m + |out| == n
        invariant Ahead(all, out, ReadScan(v.committed, view.taken, m, first && m == n))
      {
        var empty := IsEmpty();
        if empty {
          assert out + [] == out;
          return out, false;
        }
        AheadStep(v.committed, view.taken, all, out, m, first && m == n);
        var c := TakeOne(first && m == n);
        if c == CtrlD { return out, true; }
        out := out + [c];
        m := m - 1;
        if c == NL { return out, true; }
      }
      assert out + [] == out;
      over := true;
    }

    /** consoleread with n bytes to go, until it returns or sleeps. */
    method Read(p: nat, n: nat, first: bool, killed: bool) returns (out: seq<Byte>, status: Status)
      requires Valid()
      modifies this
      ensures Valid() && buf == old(buf) && view == ReadStep(old(view), p, n, first, killed)
      ensures out == Scanned(old(view), n, first).out
      ensures status == (if Scanned(old(view), n, first).over then Done else if killed then Failed else Asleep)
      ensures view.readers == if status == Asleep then old(view).readers + {p} else old(view).readers - {p}
    {
      var over;
      out, over := CopyOut(n, first);
      status := if over then Done else if killed then Failed else Asleep;
      view := view.(readers := if status == Asleep then view.readers + {p} else view.readers - {p});
    }
  }
}
