/** Directories and link counts (dirlookup and dirlink in fs.c; sys_link, sys_unlink, create and
    isdirempty in sysfile.c).  A directory is its sequence of dirents; an inode number of 0 marks
    an empty slot.  nlink is unbounded here. */
module Links {

  datatype Kind = Free | Dir | File | Dev

  datatype Ent = Ent(inum: nat, name: string)

  datatype Node = Node(kind: Kind, nlink: int, ents: seq<Ent>)

  /** `pending` counts, for each inode, the sys_link calls between their nlink++ and their
      directory entry or nlink--.  `depth` and `slot` are auxiliary: a directory's distance from
      the root, and the slot of its parent that names it. */
  datatype State = State(nodes: seq<Node>, pending: seq<nat>, depth: seq<nat>, slot: seq<nat>)

  const ROOT := 1

  predicate Linked(n: Node) { n.kind == Dir && n.nlink > 0 }

  // ---------- counting ----------

  /** The entry counts towards i: it names i and is not i's own ".". */
  predicate Counts(e: Ent, d: int, i: int) { e.inum == i && !(d == i && e.name == ".") }

  /** Entries among the first n of directory d that count towards i. */
  function EntRefs(ents: seq<Ent>, n: nat, d: int, i: int): nat
    requires n <= |ents|
  {
    if n == 0 then 0 else EntRefs(ents, n - 1, d, i) + if Counts(ents[n - 1], d, i) then 1 else 0
  }

  function NodeRefs(node: Node, d: int, i: int): nat {
    if Linked(node) then EntRefs(node.ents, |node.ents|, d, i) else 0
  }

  /** Entries naming i in the linked directories among the first n inodes. */
  function Refs(nodes: seq<Node>, n: nat, i: int): nat
    requires n <= |nodes|
  {
    if n == 0 then 0 else Refs(nodes, n - 1, i) + NodeRefs(nodes[n - 1], n - 1, i)
  }

  function AllRefs(s: State, i: int): nat { Refs(s.nodes, |s.nodes|, i) }

  lemma {:induction false} RefsUpdate(nodes: seq<Node>, n: nat, d: nat, node: Node, i: int)
    requires n <= |nodes| && d < |nodes|
    ensures Refs(nodes[d := node], n, i)
      == Refs(nodes, n, i) + if d < n then NodeRefs(node, d, i) - NodeRefs(nodes[d], d, i) else 0
  {
    if n > 0 { RefsUpdate(nodes, n - 1, d, node, i); }
  }

  lemma {:induction false} EntRefsUpdate(ents: seq<Ent>, n: nat, k: nat, e: Ent, d: int, i: int)
    requires n <= |ents| && k < |ents|
    ensures EntRefs(ents[k := e], n, d, i) == EntRefs(ents, n, d, i)
      + if k < n then (if Counts(e, d, i) then 1 else 0) - (if Counts(ents[k], d, i) then 1 else 0) else 0
  {
    if n > 0 { EntRefsUpdate(ents, n - 1, k, e, d, i); }
  }

  lemma {:induction false} EntRefsPrefix(ents: seq<Ent>, more: seq<Ent>, n: nat, d: int, i: int)
    requires n <= |ents|
    ensures EntRefs(ents + more, n, d, i) == EntRefs(ents, n, d, i)
  {
    if n > 0 { EntRefsPrefix(ents, more, n - 1, d, i); }
  }

  /** Only directory d0 counts towards i. */
  lemma {:induction false} RefsSingle(nodes: seq<Node>, n: nat, d0: nat, i: int)
    requires n <= |nodes| && d0 < |nodes|
    requires forall d :: 0 <= d < n && d != d0 ==> NodeRefs(nodes[d], d, i) == 0
    ensures Refs(nodes, n, i) == if d0 < n then NodeRefs(nodes[d0], d0, i) else 0
  {
    if n > 0 { RefsSingle(nodes, n - 1, d0, i); }
  }

  lemma {:induction false} EntRefsNone(ents: seq<Ent>, n: nat, d: int, i: int)
    requires n <= |ents| && forall k :: 0 <= k < n ==> !Counts(ents[k], d, i)
    ensures EntRefs(ents, n, d, i) == 0
  {
    if n > 0 { EntRefsNone(ents, n - 1, d, i); }
  }

  lemma {:induction false} EntRefsOne(ents: seq<Ent>, n: nat, k0: nat, d: int, i: int)
    requires k0 < n <= |ents| && Counts(ents[k0], d, i)
    requires forall k :: 0 <= k < n && k != k0 ==> !Counts(ents[k], d, i)
    ensures EntRefs(ents, n, d, i) == 1
  {
    if n - 1 == k0 { EntRefsNone(ents, n - 1, d, i); } else { EntRefsOne(ents, n - 1, k0, d, i); }
  }

  lemma {:induction false} RefsAtLeast(nodes: seq<Node>, n: nat, d: nat, i: int)
    requires d < n <= |nodes|
    ensures Refs(nodes, n, i) >= NodeRefs(nodes[d], d, i)
  {
    if d < n - 1 { RefsAtLeast(nodes, n - 1, d, i); }
  }

  lemma {:induction false} EntRefsAtLeast(ents: seq<Ent>, n: nat, k: nat, d: int, i: int)
    requires k < n <= |ents| && Counts(ents[k], d, i)
    ensures EntRefs(ents, n, d, i) >= 1
  {
    if k < n - 1 { EntRefsAtLeast(ents, n - 1, k, d, i); }
  }

  lemma {:induction false} RefsOfTwo(nodes: seq<Node>, n: nat, c: nat, d: nat, i: int)
    requires c < d < n <= |nodes|
    ensures Refs(nodes, n, i) >= NodeRefs(nodes[c], c, i) + NodeRefs(nodes[d], d, i)
  {
    if d < n - 1 { RefsOfTwo(nodes, n - 1, c, d, i); } else { RefsAtLeast(nodes, n - 1, c, i); }
  }

  // ---------- directories ----------

  /** The slot dirlink writes: the first empty one, or one past the end. */
  function FreeSlot(ents: seq<Ent>, from: nat): (k: nat)
    requires from <= |ents|
    ensures from <= k <= |ents| && (k < |ents| ==> ents[k].inum == 0)
    ensures forall j :: from <= j < k ==> ents[j].inum != 0
    decreases |ents| - from
  {
    if from == |ents| || ents[from].inum == 0 then from else FreeSlot(ents, from + 1)
  }

  function Placed(ents: seq<Ent>, e: Ent): seq<Ent> {
    var k := FreeSlot(ents, 0);
    if k < |ents| then ents[k := e] else ents + [e]
  }

  function Cleared(ents: seq<Ent>, k: nat): seq<Ent>
    requires k < |ents|
  {
    ents[k := Ent(0, "")]
  }

  predicate Names(ents: seq<Ent>, k: int, name: string) {
    0 <= k < |ents| && ents[k].inum != 0 && ents[k].name == name
  }

  ghost predicate Present(ents: seq<Ent>, name: string) { exists k :: Names(ents, k, name) }

  lemma PlacedRefs(ents: seq<Ent>, e: Ent, d: int, i: int)
    requires i != 0
    ensures EntRefs(Placed(ents, e), |Placed(ents, e)|, d, i)
      == EntRefs(ents, |ents|, d, i) + if Counts(e, d, i) then 1 else 0
  {
    var k := FreeSlot(ents, 0);
    if k < |ents| { EntRefsUpdate(ents, |ents|, k, e, d, i); } else { EntRefsPrefix(ents, [e], |ents|, d, i); }
  }

  // ---------- the invariant ----------

  predicate IsDot(name: string) { name == "." || name == ".." }

  predicate HasDots(ents: seq<Ent>) { |ents| >= 2 && ents[0].name == "." && ents[1].name == ".." }

  /** A linked directory: "." and ".." first, then used entries of distinct other names. */
  ghost predicate GoodDir(nodes: seq<Node>, d: int)
    requires 0 <= d < |nodes|
  {
    var ents := nodes[d].ents;
    && HasDots(ents) && ents[0].inum == d && 0 < ents[1].inum < |nodes| && Linked(nodes[ents[1].inum])
    && (forall k :: 2 <= k < |ents| && ents[k].inum != 0 ==> !IsDot(ents[k].name) && GoodTarget(nodes, ents[k].inum))
    && (forall j, k :: 2 <= j < k < |ents| && ents[j].inum != 0 && ents[k].inum != 0 ==> ents[j].name != ents[k].name)
  }

  predicate GoodTarget(nodes: seq<Node>, i: nat) { 0 < i < |nodes| && i != ROOT && nodes[i].kind != Free }

  predicate NamedAt(nodes: seq<Node>, d: int, k: int, i: int) {
    0 <= d < |nodes| && Linked(nodes[d]) && 2 <= k < |nodes[d].ents| && nodes[d].ents[k].inum == i
  }

  function Parent(nodes: seq<Node>, i: int): int
    requires 0 <= i < |nodes| && HasDots(nodes[i].ents)
  {
    nodes[i].ents[1].inum
  }

  /** Directory i is named once, by the directory its ".." names, one level up. */
  ghost predicate InTree(s: State, i: int)
    requires 0 <= i < |s.nodes| == |s.depth| == |s.slot| && HasDots(s.nodes[i].ents)
  {
    var p := Parent(s.nodes, i);
    && p < |s.nodes| && s.depth[i] == s.depth[p] + 1
    && NamedAt(s.nodes, p, s.slot[i], i)
    && forall d, k :: NamedAt(s.nodes, d, k, i) ==> d == p && k == s.slot[i]
  }

  predicate Sized(s: State) { |s.nodes| == |s.pending| == |s.depth| == |s.slot| && ROOT < |s.nodes| }

  /** The shape of inode i, apart from its link count. */
  ghost predicate ShapeOk(s: State, i: int)
    requires Sized(s) && 0 < i < |s.nodes|
  {
    var n := s.nodes[i];
    && (n.kind == Free ==> n.nlink == 0)
    && (n.kind == Dir ==> s.pending[i] == 0 && HasDots(n.ents) && n.ents[0].inum == i && 0 < n.ents[1].inum < |s.nodes|)
    && (Linked(n) ==> GoodDir(s.nodes, i) && (i != ROOT ==> InTree(s, i)))
    && (n.kind == Dir && !Linked(n) ==> forall k :: 2 <= k < |n.ents| ==> n.ents[k].inum == 0)
  }

  ghost predicate CountOk(s: State, i: int)
    requires Sized(s) && 0 < i < |s.nodes|
  {
    s.nodes[i].nlink == AllRefs(s, i) + s.pending[i]
  }

  ghost predicate Inv(s: State) {
    && Sized(s) && s.nodes[0].kind == Free
    && Linked(s.nodes[ROOT]) && s.depth[ROOT] == 0 && HasDots(s.nodes[ROOT].ents) && Parent(s.nodes, ROOT) == ROOT
    && (forall i :: 0 < i < |s.nodes| ==> CountOk(s, i))
    && (forall i :: 0 < i < |s.nodes| ==> ShapeOk(s, i))
  }

  // ---------- steps ----------

  datatype Step =
    | Create(dp: nat, name: string, kind: Kind, j: nat)  // create, entry absent: j is the inode ialloc found
    | LinkBegin(i: nat)                                  // sys_link up to its first iunlock
    | LinkCommit(i: nat, dp: nat, name: string)          // dirlink succeeded
    | LinkAbort(i: nat)                                  // sys_link's bad path
    | Unlink(dp: nat, name: string, k: nat)              // sys_unlink of the entry in slot k
    | FreeInode(i: nat)                                  // iput of the last reference

  predicate IsDir(s: State, d: nat) { 0 < d < |s.nodes| && s.nodes[d].kind == Dir }

  predicate Removable(n: Node) {
    n.kind == Dir ==> forall k :: 2 <= k < |n.ents| ==> n.ents[k].inum == 0
  }

  /** The step succeeds in s, the directory it enters a name into being linked or not. */
  ghost predicate Enabled(s: State, st: Step)
    requires Sized(s)
  {
    match st
    case Create(dp, name, kind, j) =>
      IsDir(s, dp) && !Present(s.nodes[dp].ents, name) && kind != Free && 0 < j < |s.nodes| && s.nodes[j].kind == Free
    case LinkBegin(i) => 0 < i < |s.nodes| && s.nodes[i].kind != Free && s.nodes[i].kind != Dir
    case LinkCommit(i, dp, name) =>
      0 < i < |s.nodes| && s.pending[i] > 0 && IsDir(s, dp) && !Present(s.nodes[dp].ents, name)
    case LinkAbort(i) => 0 < i < |s.nodes| && s.pending[i] > 0
    case Unlink(dp, name, k) =>
      && IsDir(s, dp) && !IsDot(name) && Names(s.nodes[dp].ents, k, name)
      && s.nodes[dp].ents[k].inum < |s.nodes| && Removable(s.nodes[s.nodes[dp].ents[k].inum])
    case FreeInode(i) => 0 < i < |s.nodes| && s.nodes[i].nlink == 0 && s.nodes[i].kind != Free
  }

  ghost predicate Linkable(s: State, i: nat, dp: nat, name: string)
    requires Sized(s)
  {
    Enabled(s, LinkBegin(i)) && Enabled(Do(s, LinkBegin(i)), LinkCommit(i, dp, name))
  }

  /** Runs excluded from the claim: names entered into an unlinked directory. */
  predicate Attached(s: State, st: Step)
    requires Sized(s)
  {
    (st.Create? || st.LinkCommit?) && st.dp < |s.nodes| ==> Linked(s.nodes[st.dp])
  }

  function NewNode(j: nat, kind: Kind, dp: nat): Node {
    Node(kind, 1, if kind == Dir then [Ent(j, "."), Ent(dp, "..")] else [])
  }

  function Entered(n: Node, e: Ent, up: int): Node { n.(nlink := n.nlink + up, ents := Placed(n.ents, e)) }

  function Removed(n: Node, k: nat, down: int): Node
    requires k < |n.ents|
  {
    n.(nlink := n.nlink - down, ents := Cleared(n.ents, k))
  }

  function DirUnit(kind: Kind): int { if kind == Dir then 1 else 0 }

  ghost function Do(s: State, st: Step): State
    requires Sized(s) && Enabled(s, st)
  {
    match st
    case Create(dp, name, kind, j) =>
      var made := s.nodes[j := NewNode(j, kind, dp)];
      s.(nodes := made[dp := Entered(s.nodes[dp], Ent(j, name), DirUnit(kind))],
         depth := s.depth[j := s.depth[dp] + 1], slot := s.slot[j := FreeSlot(s.nodes[dp].ents, 0)])
    case LinkBegin(i) =>
      s.(nodes := s.nodes[i := s.nodes[i].(nlink := s.nodes[i].nlink + 1)], pending := s.pending[i := s.pending[i] + 1])
    case LinkCommit(i, dp, name) =>
      s.(nodes := s.nodes[dp := Entered(s.nodes[dp], Ent(i, name), 0)], pending := s.pending[i := s.pending[i] - 1])
    case LinkAbort(i) =>
      s.(nodes := s.nodes[i := s.nodes[i].(nlink := s.nodes[i].nlink - 1)], pending := s.pending[i := s.pending[i] - 1])
    case Unlink(dp, name, k) =>
      var i := s.nodes[dp].ents[k].inum;
      var cut := s.nodes[dp := Removed(s.nodes[dp], k, DirUnit(s.nodes[i].kind))];
      s.(nodes := cut[i := cut[i].(nlink := cut[i].nlink - 1)])
    case FreeInode(i) => s.(nodes := s.nodes[i := Node(Free, 0, [])])
  }

  // ---------- link counts over one step ----------

  lemma CreateRefs(s: State, st: Step, i: int)
    requires Sized(s) && Enabled(s, st) && st.Create? && i != 0
    ensures AllRefs(Do(s, st), i) == AllRefs(s, i) + NodeRefs(NewNode(st.j, st.kind, st.dp), st.j, i)
      - NodeRefs(s.nodes[st.dp], st.dp, i)
      + NodeRefs(Entered(s.nodes[st.dp], Ent(st.j, st.name), DirUnit(st.kind)), st.dp, i)
  {
    var made := s.nodes[st.j := NewNode(st.j, st.kind, st.dp)];
    RefsUpdate(s.nodes, |s.nodes|, st.j, NewNode(st.j, st.kind, st.dp), i);
    RefsUpdate(made, |made|, st.dp, Entered(s.nodes[st.dp], Ent(st.j, st.name), DirUnit(st.kind)), i);
  }

  lemma NewRefs(j: nat, kind: Kind, dp: nat, i: int)
    requires j != dp
    ensures NodeRefs(NewNode(j, kind, dp), j, i) == if kind == Dir && i == dp then 1 else 0
  {
    var ents := [Ent(j, "."), Ent(dp, "..")];
    assert EntRefs(ents, 1, j, i) == if Counts(ents[0], j, i) then 1 else 0;
    assert EntRefs(ents, 2, j, i) == EntRefs(ents, 1, j, i) + if Counts(ents[1], j, i) then 1 else 0;
  }

  lemma CreateCounts(s: State, st: Step, i: int)
    requires Inv(s) && Enabled(s, st) && st.Create? && Attached(s, st) && 0 < i < |s.nodes|
    ensures CountOk(Do(s, st), i)
  {
    CreateRefs(s, st, i);
    NewRefs(st.j, st.kind, st.dp, i);
    PlacedRefs(s.nodes[st.dp].ents, Ent(st.j, st.name), st.dp, i);
    assert CountOk(s, i) && ShapeOk(s, i);
  }

  lemma LinkCounts(s: State, st: Step, i: int)
    requires Inv(s) && Enabled(s, st) && (st.LinkBegin? || st.LinkCommit? || st.LinkAbort?) && Attached(s, st) &&
      0 < i < |s.nodes|
    ensures CountOk(Do(s, st), i)
  {
    assert CountOk(s, i) && ShapeOk(s, st.i);
    match st
    case LinkBegin(f) => RefsUpdate(s.nodes, |s.nodes|, f, s.nodes[f].(nlink := s.nodes[f].nlink + 1), i);
    case LinkAbort(f) => RefsUpdate(s.nodes, |s.nodes|, f, s.nodes[f].(nlink := s.nodes[f].nlink - 1), i);
    case LinkCommit(f, dp, name) =>
      RefsUpdate(s.nodes, |s.nodes|, dp, Entered(s.nodes[dp], Ent(f, name), 0), i);
      PlacedRefs(s.nodes[dp].ents, Ent(f, name), dp, i);
  }

  /** A directory that isdirempty accepts is named by its parent's slot and by nothing else. */
  lemma NamedOnce(s: State, i: nat, d: nat, k: nat)
    requires Inv(s) && ROOT != i < |s.nodes| && Linked(s.nodes[i]) && Removable(s.nodes[i])
    requires 0 < d < |s.nodes| && Linked(s.nodes[d]) && k < |s.nodes[d].ents|
    ensures ShapeOk(s, i)
    ensures Counts(s.nodes[d].ents[k], d, i) <==> d == Parent(s.nodes, i) && k == s.slot[i]
  {
    assert ShapeOk(s, i) && ShapeOk(s, d);
    if k >= 2 {
      assert Counts(s.nodes[d].ents[k], d, i) <==> NamedAt(s.nodes, d, k, i);
    }
  }

  lemma EmptyDirCount(s: State, i: nat)
    requires Inv(s) && ROOT != i < |s.nodes| && Linked(s.nodes[i]) && Removable(s.nodes[i])
    ensures s.nodes[i].nlink == 1
  {
    assert ShapeOk(s, i) && CountOk(s, i);
    var p := Parent(s.nodes, i);
    forall d | 0 <= d < |s.nodes| && d != p ensures NodeRefs(s.nodes[d], d, i) == 0 {
      if Linked(s.nodes[d]) {
        forall k | 0 <= k < |s.nodes[d].ents| ensures !Counts(s.nodes[d].ents[k], d, i) { NamedOnce(s, i, d, k); }
        EntRefsNone(s.nodes[d].ents, |s.nodes[d].ents|, d, i);
      }
    }
    RefsSingle(s.nodes, |s.nodes|, p, i);
    forall k | 0 <= k < |s.nodes[p].ents|
      ensures Counts(s.nodes[p].ents[k], p, i) <==> k == s.slot[i]
    {
      NamedOnce(s, i, p, k);
    }
    EntRefsOne(s.nodes[p].ents, |s.nodes[p].ents|, s.slot[i], p, i);
  }

  lemma EntryRefs(s: State, d: nat, k: nat, i: nat)
    requires 0 < d < |s.nodes| && Linked(s.nodes[d]) && k < |s.nodes[d].ents| && Counts(s.nodes[d].ents[k], d, i)
    ensures NodeRefs(s.nodes[d], d, i) >= 1 && AllRefs(s, i) >= 1
  {
    EntRefsAtLeast(s.nodes[d].ents, |s.nodes[d].ents|, k, d, i);
    RefsAtLeast(s.nodes, |s.nodes|, d, i);
  }

  /** A directory with a subdirectory keeps a link after losing that one's "..". */
  lemma ParentCount(s: State, i: nat)
    requires Inv(s) && ROOT != i < |s.nodes| && Linked(s.nodes[i])
    ensures ShapeOk(s, i) && 0 < Parent(s.nodes, i) < |s.nodes| && s.nodes[Parent(s.nodes, i)].nlink >= 2
  {
    assert ShapeOk(s, i);
    var p := Parent(s.nodes, i);
    assert ShapeOk(s, p) && CountOk(s, p);
    var q := Parent(s.nodes, p);
    EntryRefs(s, i, 1, p);
    EntryRefs(s, q, if p == ROOT then 1 else s.slot[p], p);
    if q < i { RefsOfTwo(s.nodes, |s.nodes|, q, i, p); } else { RefsOfTwo(s.nodes, |s.nodes|, i, q, p); }
  }

  /** What sys_unlink finds: the panic at nlink < 1 is unreachable, and a directory it removes has
      this entry as its only link while the parent keeps another. */
  lemma UnlinkTarget(s: State, st: Step) returns (i: nat)
    requires Inv(s) && Enabled(s, st) && st.Unlink?
    ensures Linked(s.nodes[st.dp]) && st.k >= 2 && i == s.nodes[st.dp].ents[st.k].inum
    ensures 0 < i < |s.nodes| && i != st.dp && i != ROOT && s.nodes[i].kind != Free && s.nodes[i].nlink >= 1
    ensures s.nodes[i].kind == Dir ==> s.nodes[i].nlink == 1 && s.nodes[st.dp].nlink >= 2
    ensures s.nodes[i].kind == Dir ==> HasDots(s.nodes[i].ents) && Parent(s.nodes, i) == st.dp && s.slot[i] == st.k
  {
    assert ShapeOk(s, st.dp);
    i := s.nodes[st.dp].ents[st.k].inum;
    assert ShapeOk(s, i) && CountOk(s, i);
    assert NamedAt(s.nodes, st.dp, st.k, i);
    EntryRefs(s, st.dp, st.k, i);
    if s.nodes[i].kind == Dir { EmptyDirCount(s, i); ParentCount(s, i); }
  }

  lemma EmptyDirRefs(ents: seq<Ent>, d: nat, i: int)
    requires HasDots(ents) && ents[0].inum == d && i != 0 && forall k :: 2 <= k < |ents| ==> ents[k].inum == 0
    ensures EntRefs(ents, |ents|, d, i) == if Counts(ents[1], d, i) then 1 else 0
  {
    if Counts(ents[1], d, i) { EntRefsOne(ents, |ents|, 1, d, i); } else { EntRefsNone(ents, |ents|, d, i); }
  }

  lemma UnlinkCounts(s: State, st: Step, x: int)
    requires Inv(s) && Enabled(s, st) && st.Unlink? && 0 < x < |s.nodes|
    ensures CountOk(Do(s, st), x)
  {
    var i := UnlinkTarget(s, st);
    var n, dir := |s.nodes|, s.nodes[st.dp];
    var cutDir := Removed(dir, st.k, DirUnit(s.nodes[i].kind));
    var gone := s.nodes[i].(nlink := s.nodes[i].nlink - 1);
    var cut := s.nodes[st.dp := cutDir];
    RefsUpdate(s.nodes, n, st.dp, cutDir, x);
    RefsUpdate(cut, n, i, gone, x);
    EntRefsUpdate(dir.ents, |dir.ents|, st.k, Ent(0, ""), st.dp, x);
    assert CountOk(s, x) && ShapeOk(s, i) && ShapeOk(s, st.dp);
    if s.nodes[i].kind == Dir { EmptyDirRefs(gone.ents, i, x); }
  }

  lemma FreeCounts(s: State, st: Step, x: int)
    requires Inv(s) && Enabled(s, st) && st.FreeInode? && 0 < x < |s.nodes|
    ensures CountOk(Do(s, st), x)
  {
    RefsUpdate(s.nodes, |s.nodes|, st.i, Node(Free, 0, []), x);
    assert CountOk(s, x);
  }

  // ---------- the tree over one step ----------

  /** A linked directory whose entries did not change stays good. */
  lemma GoodDirKept(was: seq<Node>, now: seq<Node>, d: nat)
    requires |was| == |now| && d < |was| && GoodDir(was, d) && now[d].ents == was[d].ents
    requires Linked(now[Parent(was, d)])
    requires forall k :: 2 <= k < |was[d].ents| && was[d].ents[k].inum != 0 ==> GoodTarget(now, was[d].ents[k].inum)
    ensures GoodDir(now, d)
  {
  }

  /** Directory i stays in the tree when its own entries, its depth and the slots naming it stay. */
  lemma InTreeKept(s: State, t: State, i: nat)
    requires Sized(s) && Sized(t) && |s.nodes| == |t.nodes| && i < |s.nodes| && HasDots(s.nodes[i].ents) && InTree(s, i)
    requires HasDots(t.nodes[i].ents) && Parent(t.nodes, i) == Parent(s.nodes, i)
    requires t.depth[i] == s.depth[i] && t.slot[i] == s.slot[i] &&
      t.depth[Parent(s.nodes, i)] == s.depth[Parent(s.nodes, i)]
    requires forall d, k :: NamedAt(t.nodes, d, k, i) <==> NamedAt(s.nodes, d, k, i)
    ensures InTree(t, i)
  {
  }

  /** dirlink into a good directory: past the dots, under a new name. */
  lemma EnteredGood(was: seq<Node>, now: seq<Node>, dp: nat, e: Ent)
    requires |was| == |now| && 0 < dp < |was| && GoodDir(was, dp) && !Present(was[dp].ents, e.name)
    requires now[dp].ents == Placed(was[dp].ents, e) && GoodTarget(now, e.inum) && Linked(now[Parent(was, dp)])
    requires forall k :: 2 <= k < |was[dp].ents| && was[dp].ents[k].inum != 0 ==> GoodTarget(now, was[dp].ents[k].inum)
    ensures FreeSlot(was[dp].ents, 0) >= 2 && GoodDir(now, dp)
  {
    var ents := was[dp].ents;
    assert Names(ents, 0, ".") && Names(ents, 1, "..");
    assert !IsDot(e.name);
    forall k | 2 <= k < |ents| && ents[k].inum != 0 ensures ents[k].name != e.name { assert !Names(ents, k, e.name); }
  }

  lemma EnteredNamed(was: seq<Node>, now: seq<Node>, dp: nat, e: Ent, d: int, k: int, x: int)
    requires |was| == |now| && 0 < dp < |was| && FreeSlot(was[dp].ents, 0) >= 2 && x > 0
    requires Linked(was[dp]) && Linked(now[dp]) && now[dp].ents == Placed(was[dp].ents, e)
    requires 0 <= d < |was| && d != dp ==> (NamedAt(was, d, k, x) <==> NamedAt(now, d, k, x))
    ensures NamedAt(now, d, k, x)
      <==> NamedAt(was, d, k, x) || (d == dp && k == FreeSlot(was[dp].ents, 0) && x == e.inum)
  {
  }

  lemma UnnamedFree(s: State, j: nat, d: int, k: int)
    requires Inv(s) && 0 < j < |s.nodes| && s.nodes[j].kind == Free
    ensures !NamedAt(s.nodes, d, k, j)
  {
    if 0 < d < |s.nodes| { assert ShapeOk(s, d); }
  }

  lemma CreateNamed(s: State, st: Step, d: int, k: int, x: int)
    requires Inv(s) && Enabled(s, st) && st.Create? && Attached(s, st) && 0 < x < |s.nodes|
    requires FreeSlot(s.nodes[st.dp].ents, 0) >= 2
    ensures NamedAt(Do(s, st).nodes, d, k, x)
      <==> NamedAt(s.nodes, d, k, x) || (d == st.dp && k == FreeSlot(s.nodes[st.dp].ents, 0) && x == st.j)
  {
    EnteredNamed(s.nodes, Do(s, st).nodes, st.dp, Ent(st.j, st.name), d, k, x);
  }

  lemma CreateGood(s: State, st: Step, x: int)
    requires Inv(s) && Enabled(s, st) && st.Create? && Attached(s, st) && 0 < x < |s.nodes|
    ensures FreeSlot(s.nodes[st.dp].ents, 0) >= 2
    ensures Linked(Do(s, st).nodes[x]) ==> GoodDir(Do(s, st).nodes, x)
  {
    var t := Do(s, st);
    assert ShapeOk(s, st.dp) && ShapeOk(s, x);
    EnteredGood(s.nodes, t.nodes, st.dp, Ent(st.j, st.name));
    if x != st.dp && x != st.j && Linked(s.nodes[x]) { GoodDirKept(s.nodes, t.nodes, x); }
  }

  lemma CreateTree(s: State, st: Step, x: int)
    requires Inv(s) && Enabled(s, st) && st.Create? && Attached(s, st) && 0 < x < |s.nodes| && x != ROOT
    requires FreeSlot(s.nodes[st.dp].ents, 0) >= 2 && HasDots(Do(s, st).nodes[x].ents) && Linked(Do(s, st).nodes[x])
    ensures InTree(Do(s, st), x)
  {
    var t, j := Do(s, st), st.j;
    assert ShapeOk(s, st.dp) && ShapeOk(s, x);
    forall d, k
      ensures NamedAt(t.nodes, d, k, x) <==> NamedAt(s.nodes, d, k, x) || (d == st.dp && k == t.slot[j] && x == j)
    {
      CreateNamed(s, st, d, k, x);
    }
    if x == j {
      forall d, k ensures !NamedAt(s.nodes, d, k, j) { UnnamedFree(s, j, d, k); }
    } else {
      InTreeKept(s, t, x);
    }
  }

  lemma CreateShape(s: State, st: Step, x: int)
    requires Inv(s) && Enabled(s, st) && st.Create? && Attached(s, st) && 0 < x < |s.nodes|
    ensures ShapeOk(Do(s, st), x)
  {
    var t := Do(s, st);
    assert ShapeOk(s, x) && CountOk(s, st.j);
    CreateGood(s, st, x);
    if x != ROOT && Linked(t.nodes[x]) { CreateTree(s, st, x); }
  }

  lemma CommitShape(s: State, st: Step, x: int)
    requires Inv(s) && Enabled(s, st) && st.LinkCommit? && Attached(s, st) && 0 < x < |s.nodes|
    ensures ShapeOk(Do(s, st), x)
  {
    var t := Do(s, st);
    assert ShapeOk(s, st.dp) && ShapeOk(s, x) && ShapeOk(s, st.i) && CountOk(s, st.i);
    EnteredGood(s.nodes, t.nodes, st.dp, Ent(st.i, st.name));
    if Linked(s.nodes[x]) {
      if x != st.dp { GoodDirKept(s.nodes, t.nodes, x); }
      forall d, k ensures NamedAt(t.nodes, d, k, x) <==> NamedAt(s.nodes, d, k, x) {
        EnteredNamed(s.nodes, t.nodes, st.dp, Ent(st.i, st.name), d, k, x);
      }
      if x != ROOT { InTreeKept(s, t, x); }
    }
  }

  /** The steps that only move a file's link count. */
  lemma HoldShape(s: State, st: Step, x: int)
    requires Inv(s) && Enabled(s, st) && (st.LinkBegin? || st.LinkAbort?) && 0 < x < |s.nodes|
    ensures ShapeOk(Do(s, st), x)
  {
    var t := Do(s, st);
    assert ShapeOk(s, x) && ShapeOk(s, st.i) && CountOk(s, st.i);
    if Linked(s.nodes[x]) {
      GoodDirKept(s.nodes, t.nodes, x);
      forall d, k ensures NamedAt(t.nodes, d, k, x) <==> NamedAt(s.nodes, d, k, x) {}
      if x != ROOT { InTreeKept(s, t, x); }
    }
  }

  lemma UnnamedUnlinked(s: State, i: nat, d: int, k: int)
    requires Inv(s) && 0 < i < |s.nodes| && s.nodes[i].nlink == 0
    ensures !NamedAt(s.nodes, d, k, i)
  {
    assert CountOk(s, i) && (0 < d < |s.nodes| ==> ShapeOk(s, d));
    if NamedAt(s.nodes, d, k, i) { EntryRefs(s, d, k, i); }
  }

  lemma FreeShape(s: State, st: Step, x: int)
    requires Inv(s) && Enabled(s, st) && st.FreeInode? && 0 < x < |s.nodes|
    ensures ShapeOk(Do(s, st), x)
  {
    var t := Do(s, st);
    assert ShapeOk(s, x) && ShapeOk(s, st.i);
    forall d, k ensures !NamedAt(s.nodes, d, k, st.i) { UnnamedUnlinked(s, st.i, d, k); }
    if Linked(s.nodes[x]) {
      forall k | 2 <= k < |s.nodes[x].ents|
        ensures s.nodes[x].ents[k].inum != st.i
      {
        assert !NamedAt(s.nodes, x, k, st.i);
      }
      GoodDirKept(s.nodes, t.nodes, x);
      forall d, k ensures NamedAt(t.nodes, d, k, x) <==> NamedAt(s.nodes, d, k, x) {}
      if x != ROOT { InTreeKept(s, t, x); }
    }
  }

  /** An empty directory is nobody's parent. */
  lemma NoChild(s: State, i: nat, x: nat)
    requires Inv(s) && ROOT != i < |s.nodes| && Linked(s.nodes[i]) && Removable(s.nodes[i]) && 0 < x < |s.nodes| &&
      Linked(s.nodes[x])
    ensures ShapeOk(s, x) && Parent(s.nodes, x) != i
  {
    assert ShapeOk(s, x);
    if x != ROOT { NamedOnce(s, i, x, 1); }
  }

  lemma UnlinkGood(s: State, st: Step, x: int)
    requires Inv(s) && Enabled(s, st) && st.Unlink? && 0 < x < |s.nodes|
    ensures Linked(Do(s, st).nodes[x]) ==>
      GoodDir(Do(s, st).nodes, x) && Parent(Do(s, st).nodes, x) == Parent(s.nodes, x)
  {
    var t := Do(s, st);
    var i := UnlinkTarget(s, st);
    assert ShapeOk(s, x);
    if Linked(t.nodes[x]) {
      if s.nodes[i].kind == Dir { NoChild(s, i, x); }
      if x != st.dp { GoodDirKept(s.nodes, t.nodes, x); }
    }
  }

  lemma UnlinkTree(s: State, st: Step, x: int)
    requires Inv(s) && Enabled(s, st) && st.Unlink? && 0 < x < |s.nodes| && x != ROOT
    requires Linked(Do(s, st).nodes[x]) && HasDots(Do(s, st).nodes[x].ents) &&
      Parent(Do(s, st).nodes, x) == Parent(s.nodes, x)
    ensures InTree(Do(s, st), x)
  {
    var t := Do(s, st);
    var i := UnlinkTarget(s, st);
    assert ShapeOk(s, x) && ShapeOk(s, i);
    forall d, k ensures NamedAt(t.nodes, d, k, x) <==> NamedAt(s.nodes, d, k, x) {}
    InTreeKept(s, t, x);
  }

  lemma UnlinkShape(s: State, st: Step, x: int)
    requires Inv(s) && Enabled(s, st) && st.Unlink? && 0 < x < |s.nodes|
    ensures ShapeOk(Do(s, st), x)
  {
    var i := UnlinkTarget(s, st);
    assert ShapeOk(s, x) && ShapeOk(s, i);
    UnlinkGood(s, st, x);
    if x != ROOT && Linked(Do(s, st).nodes[x]) { UnlinkTree(s, st, x); }
  }

  lemma CountsKept(s: State, st: Step, x: int)
    requires Inv(s) && Enabled(s, st) && Attached(s, st) && 0 < x < |s.nodes|
    ensures CountOk(Do(s, st), x)
  {
    match st
    case Create(_, _, _, _) => CreateCounts(s, st, x);
    case Unlink(_, _, _) => UnlinkCounts(s, st, x);
    case FreeInode(_) => FreeCounts(s, st, x);
    case _ => LinkCounts(s, st, x);
  }

  lemma ShapesKept(s: State, st: Step, x: int)
    requires Inv(s) && Enabled(s, st) && Attached(s, st) && 0 < x < |s.nodes|
    ensures ShapeOk(Do(s, st), x)
  {
    match st
    case Create(_, _, _, _) => CreateShape(s, st, x);
    case LinkCommit(_, _, _) => CommitShape(s, st, x);
    case Unlink(_, _, _) => UnlinkShape(s, st, x);
    case FreeInode(_) => FreeShape(s, st, x);
    case _ => HoldShape(s, st, x);
  }

  lemma RootKept(s: State, st: Step)
    requires Inv(s) && Enabled(s, st) && Attached(s, st)
    ensures Sized(Do(s, st)) && |Do(s, st).nodes| == |s.nodes| && Do(s, st).nodes[0].kind == Free
    ensures Linked(Do(s, st).nodes[ROOT]) && Do(s, st).depth[ROOT] == 0
    ensures HasDots(Do(s, st).nodes[ROOT].ents) && Parent(Do(s, st).nodes, ROOT) == ROOT
  {
    assert ShapeOk(s, ROOT);
    if st.Unlink? { var i := UnlinkTarget(s, st); }
    if (st.LinkBegin? || st.LinkAbort?) { assert ShapeOk(s, st.i); }
  }

  lemma StepKeepsInv(s: State, st: Step)
    requires Inv(s) && Enabled(s, st) && Attached(s, st)
    ensures Inv(Do(s, st))
  {
    RootKept(s, st);
    forall x | 0 < x < |s.nodes| ensures CountOk(Do(s, st), x) && ShapeOk(Do(s, st), x) {
      CountsKept(s, st, x);
      ShapesKept(s, st, x);
    }
  }

  /** Names entered into an unlinked directory are exactly what breaks the invariant. */
  lemma AttachedIff(s: State, st: Step)
    requires Inv(s) && Enabled(s, st)
    ensures Inv(Do(s, st)) <==> Attached(s, st)
  {
    if Attached(s, st) {
      StepKeepsInv(s, st);
    } else if st.LinkCommit? {
      StrayLink(s, st);
    } else if st.kind == Dir {
      StrayMkdir(s, st);
    } else {
      StrayFile(s, st);
    }
  }

  lemma StrayLink(s: State, st: Step)
    requires Inv(s) && Enabled(s, st) && st.LinkCommit? && !Attached(s, st)
    ensures !CountOk(Do(s, st), st.i)
  {
    RefsUpdate(s.nodes, |s.nodes|, st.dp, Entered(s.nodes[st.dp], Ent(st.i, st.name), 0), st.i);
    assert CountOk(s, st.i) && ShapeOk(s, st.i);
  }

  lemma StrayFile(s: State, st: Step)
    requires Inv(s) && Enabled(s, st) && st.Create? && st.kind != Dir && !Attached(s, st)
    ensures !CountOk(Do(s, st), st.j)
  {
    CreateRefs(s, st, st.j);
    assert CountOk(s, st.j) && ShapeOk(s, st.j);
  }

  lemma StrayMkdir(s: State, st: Step)
    requires Inv(s) && Enabled(s, st) && st.Create? && st.kind == Dir && !Attached(s, st)
    ensures !ShapeOk(Do(s, st), st.dp)
  {
    var t := Do(s, st);
    assert CountOk(s, st.dp) && ShapeOk(s, st.dp);
    forall d, k ensures !NamedAt(t.nodes, d, k, st.dp) { UnnamedUnlinked(s, st.dp, d, k); }
  }

  // ---------- runs ----------

  /** The image mkfs starts from: a root directory that is its own parent. */
  function Start(n: nat): State
    requires n > ROOT
  {
    State(seq(n, i => if i == ROOT then Node(Dir, 1, [Ent(ROOT, "."), Ent(ROOT, "..")]) else Node(Free, 0, [])),
          seq(n, i => 0), seq(n, i => 0), seq(n, i => 0))
  }

  lemma StartRefs(n: nat, i: int)
    requires n > ROOT && i != 0
    ensures AllRefs(Start(n), i) == if i == ROOT then 1 else 0
  {
    var nodes := Start(n).nodes;
    var ents := nodes[ROOT].ents;
    RefsSingle(nodes, n, ROOT, i);
    EmptyDirRefs(ents, ROOT, i);
  }

  lemma StartOk(n: nat)
    requires n > ROOT
    ensures Inv(Start(n))
  {
    var s := Start(n);
    forall i | 0 < i < n ensures CountOk(s, i) { StartRefs(n, i); }
  }

  ghost predicate Behaviour(n: nat, ss: seq<State>, sts: seq<Step>)
    requires n > ROOT
  {
    && |ss| == |sts| + 1 && ss[0] == Start(n)
    && forall t :: 0 <= t < |sts| ==>
      Sized(ss[t]) && Enabled(ss[t], sts[t]) && Attached(ss[t], sts[t]) && ss[t + 1] == Do(ss[t], sts[t])
  }

  lemma {:induction false} BehaviourInv(n: nat, ss: seq<State>, sts: seq<Step>, t: nat)
    requires n > ROOT && Behaviour(n, ss, sts) && t < |ss|
    ensures Inv(ss[t])
  {
    if t == 0 {
      StartOk(n);
    } else {
      BehaviourInv(n, ss, sts, t - 1);
      StepKeepsInv(ss[t - 1], sts[t - 1]);
    }
  }

  /** The directory reached from i by following ".." n times. */
  ghost function Ascend(s: State, i: nat, n: nat): nat
    requires Inv(s) && i < |s.nodes| && Linked(s.nodes[i])
    decreases n
  {
    if n == 0 then i else assert ShapeOk(s, i); Ascend(s, Parent(s.nodes, i), n - 1)
  }

  lemma {:induction false} ReachesRoot(s: State, i: nat)
    requires Inv(s) && i < |s.nodes| && Linked(s.nodes[i])
    ensures i != ROOT ==> s.depth[i] > 0
    ensures i == ROOT ==> s.depth[i] == 0
    ensures Ascend(s, i, s.depth[i]) == ROOT
    decreases s.depth[i]
  {
    assert ShapeOk(s, i);
    if i != ROOT { ReachesRoot(s, Parent(s.nodes, i)); }
  }

  /** Over every run: link counts are the entries naming an inode, every linked directory but the
      root has one name and a path of ".." to the root, and unlink's panic is unreachable. */
  lemma LinksSafe(n: nat, ss: seq<State>, sts: seq<Step>, t: nat)
    requires n > ROOT && Behaviour(n, ss, sts) && t < |ss|
    ensures Inv(ss[t])
    ensures forall i :: 0 < i < |ss[t].nodes| ==> ss[t].nodes[i].nlink == AllRefs(ss[t], i) + ss[t].pending[i]
    ensures forall i :: 0 < i < |ss[t].nodes| && Linked(ss[t].nodes[i]) ==> Ascend(ss[t], i, ss[t].depth[i]) == ROOT
    ensures forall i :: 0 < i < |ss[t].nodes| && i != ROOT && Linked(ss[t].nodes[i]) ==>
      exists d, k :: NamedAt(ss[t].nodes, d, k, i) && forall e, m :: NamedAt(ss[t].nodes, e, m, i) ==> e == d && m == k
    ensures forall dp: nat, name, k: nat :: Enabled(ss[t], Unlink(dp, name, k)) ==>
      ss[t].nodes[ss[t].nodes[dp].ents[k].inum].nlink >= 1
  {
    BehaviourInv(n, ss, sts, t);
    var s := ss[t];
    forall i | 0 < i < |s.nodes| ensures s.nodes[i].nlink == AllRefs(s, i) + s.pending[i] { assert CountOk(s, i); }
    forall i | 0 < i < |s.nodes| && Linked(s.nodes[i]) ensures Ascend(s, i, s.depth[i]) == ROOT { ReachesRoot(s, i); }
    forall i | 0 < i < |s.nodes| && i != ROOT && Linked(s.nodes[i])
      ensures exists d, k :: NamedAt(s.nodes, d, k, i) && forall e, m :: NamedAt(s.nodes, e, m, i) ==> e == d && m == k
    {
      assert ShapeOk(s, i);
      assert NamedAt(s.nodes, Parent(s.nodes, i), s.slot[i], i);
    }
    forall dp: nat, name, k: nat | Enabled(s, Unlink(dp, name, k))
      ensures s.nodes[s.nodes[dp].ents[k].inum].nlink >= 1
    {
      var i := UnlinkTarget(s, Unlink(dp, name, k));
    }
  }

  // ---------- what names lead to ----------

  /** Name n of directory d leads to inode i. */
  ghost predicate Binds(s: State, d: nat, n: string, i: nat) {
    IsDir(s, d) && exists k :: Names(s.nodes[d].ents, k, n) && s.nodes[d].ents[k].inum == i
  }

  /** The step makes n of d lead to i. */
  predicate Gives(st: Step, d: nat, n: string, i: nat) {
    match st
    case Create(dp, name, kind, j) =>
      (d == dp && n == name && i == j) || (d == j && kind == Dir && ((n == "." && i == j) || (n == ".." && i == dp)))
    case LinkCommit(f, dp, name) => d == dp && n == name && i == f
    case _ => false
  }

  /** The step takes the name n of d, or all names of d. */
  predicate Takes(st: Step, d: nat, n: string) {
    (st.Unlink? && d == st.dp && n == st.name) || (st.FreeInode? && d == st.i)
  }

  lemma PlacedNames(ents: seq<Ent>, e: Ent, n: string, i: nat)
    requires i != 0
    ensures (exists k :: Names(Placed(ents, e), k, n) && Placed(ents, e)[k].inum == i)
      <==> (e.name == n && e.inum == i) || exists k :: Names(ents, k, n) && ents[k].inum == i
  {
    var q, f := Placed(ents, e), FreeSlot(ents, 0);
    if e.name == n && e.inum == i { assert Names(q, f, n); }
    if k :| Names(ents, k, n) && ents[k].inum == i { assert Names(q, k, n) && q[k] == ents[k]; }
    if k :| Names(q, k, n) && q[k].inum == i && k != f { assert Names(ents, k, n) && q[k] == ents[k]; }
  }

  lemma ClearedNames(s: State, st: Step, n: string, i: nat)
    requires Inv(s) && Enabled(s, st) && st.Unlink? && i != 0
    ensures var ents := s.nodes[st.dp].ents;
      var q := Cleared(ents, st.k);
      (exists k :: Names(q, k, n) && q[k].inum == i)
      <==> n != st.name && exists k :: Names(ents, k, n) && ents[k].inum == i
  {
    var ents := s.nodes[st.dp].ents;
    var q := Cleared(ents, st.k);
    assert ShapeOk(s, st.dp);
    if k :| Names(ents, k, n) && ents[k].inum == i && n != st.name { assert Names(q, k, n) && q[k] == ents[k]; }
    if k :| Names(q, k, n) && q[k].inum == i { assert Names(ents, k, n) && q[k] == ents[k]; }
  }

  lemma CreateNames(s: State, st: Step, d: nat, n: string, i: nat)
    requires Inv(s) && Enabled(s, st) && st.Create? && i != 0
    ensures Binds(Do(s, st), d, n, i) <==> Gives(st, d, n, i) || Binds(s, d, n, i)
  {
    if d == st.dp {
      PlacedNames(s.nodes[d].ents, Ent(st.j, st.name), n, i);
    } else if d == st.j {
      var q := NewNode(st.j, st.kind, st.dp);
      assert Do(s, st).nodes[d] == q && !Binds(s, d, n, i);
      if st.kind == Dir {
        NewNames(st.j, st.dp, n, i);
        assert Binds(Do(s, st), d, n, i) <==> exists k :: Names(q.ents, k, n) && q.ents[k].inum == i;
      }
    } else if d < |s.nodes| {
      assert Do(s, st).nodes[d] == s.nodes[d];
    }
  }

  /** Over every step a name leads where it led, unless the step takes it, and where the step says. */
  lemma NamesStep(s: State, st: Step, d: nat, n: string, i: nat)
    requires Inv(s) && Enabled(s, st) && i != 0
    ensures Binds(Do(s, st), d, n, i) <==> Gives(st, d, n, i) || (Binds(s, d, n, i) && !Takes(st, d, n))
  {
    match st
    case Create(dp, name, kind, j) => CreateNames(s, st, d, n, i);
    case LinkCommit(f, dp, name) => PlacedNames(s.nodes[dp].ents, Ent(f, name), n, i);
    case Unlink(dp, name, k) =>
      assert ShapeOk(s, dp);
      ClearedNames(s, st, n, i);
    case _ =>
  }

  lemma NewNames(j: nat, dp: nat, n: string, i: nat)
    requires j != 0 && dp != 0
    ensures var q := NewNode(j, Dir, dp).ents;
      (exists k :: Names(q, k, n) && q[k].inum == i) <==> (n == "." && i == j) || (n == ".." && i == dp)
  {
    var q := NewNode(j, Dir, dp).ents;
    assert q[0] == Ent(j, ".") && q[1] == Ent(dp, "..");
    if n == "." { assert Names(q, 0, n); }
    if n == ".." { assert Names(q, 1, n); }
  }

  /** An inode keeps its kind: it gets the one asked for when it is created, and loses it when freed. */
  lemma KindStep(s: State, st: Step, i: nat)
    requires Sized(s) && Enabled(s, st) && i < |s.nodes|
    ensures i < |Do(s, st).nodes|
    ensures Do(s, st).nodes[i].kind
      == if st.Create? && i == st.j then st.kind else if st.FreeInode? && i == st.i then Free else s.nodes[i].kind
  {
  }

  lemma StrayDir() returns (s: State, st: Step)
    ensures st == Create(1, "d", Dir, 2) && Enabled(Start(4), st) && Attached(Start(4), st) &&
      s == Do(Start(4), st) && Inv(s)
    ensures s.nodes[1].ents == [Ent(1, "."), Ent(1, ".."), Ent(2, "d")]
    ensures s.nodes[2] == NewNode(2, Dir, 1) && s.nodes[3].kind == Free && |s.nodes| == 4
  {
    var s0 := Start(4);
    st := Create(1, "d", Dir, 2);
    StartOk(4);
    assert FreeSlot(s0.nodes[1].ents, 2) == 2 && FreeSlot(s0.nodes[1].ents, 1) == 2;
    assert Placed(s0.nodes[1].ents, Ent(2, "d")) == [Ent(1, "."), Ent(1, ".."), Ent(2, "d")];
    s := Do(s0, st);
    StepKeepsInv(s0, st);
  }

  /** mkdir d; rmdir d while it is a current directory; create f in it. */
  lemma StrayRun() returns (ss: seq<State>, sts: seq<Step>, bad: Step)
    ensures Behaviour(4, ss, sts) && Sized(ss[|sts|]) && Enabled(ss[|sts|], bad) && !Attached(ss[|sts|], bad)
    ensures !Inv(Do(ss[|sts|], bad))
  {
    var s1, mk := StrayDir();
    var rm := Unlink(1, "d", 2);
    assert Names(s1.nodes[1].ents, 2, "d");
    var s2 := Do(s1, rm);
    StepKeepsInv(s1, rm);
    bad := Create(2, "f", File, 3);
    AttachedIff(s2, bad);
    ss, sts := [Start(4), s1, s2], [mk, rm];
  }

  /** mkdir d; mkdir d/b. */
  lemma NestedDir() returns (s1: State, s: State, mk: Step, st: Step)
    ensures mk == Create(1, "d", Dir, 2) && Enabled(Start(4), mk) && Attached(Start(4), mk) &&
      s1 == Do(Start(4), mk) && Inv(s1)
    ensures st == Create(2, "b", Dir, 3) && Enabled(s1, st) && Attached(s1, st) && s == Do(s1, st) && Inv(s) &&
      |s.nodes| == 4
    ensures s.nodes[1] == Node(Dir, 2, [Ent(1, "."), Ent(1, ".."), Ent(2, "d")])
    ensures s.nodes[2] == Node(Dir, 2, [Ent(2, "."), Ent(1, ".."), Ent(3, "b")]) && s.nodes[3] == NewNode(3, Dir, 2)
  {
    s1, mk := StrayDir();
    st := Create(2, "b", Dir, 3);
    var ents := s1.nodes[2].ents;
    assert FreeSlot(ents, 2) == 2 && FreeSlot(ents, 1) == 2;
    assert Placed(ents, Ent(3, "b")) == [Ent(2, "."), Ent(1, ".."), Ent(3, "b")];
    s := Do(s1, st);
    StepKeepsInv(s1, st);
  }

  /** After mkdir d, mkdir d/b, rmdir d/b and rmdir d, the ".." of the unlinked directory b still names
      the unlinked directory d: a lookup from a current directory b finds an inode without links. */
  lemma DotDotRun() returns (ss: seq<State>, sts: seq<Step>)
    ensures Behaviour(4, ss, sts)
    ensures var s := ss[|sts|];
      && |s.nodes| == 4 && s.nodes[3].kind == Dir && s.nodes[3].nlink == 0 && Names(s.nodes[3].ents, 1, "..")
      && s.nodes[3].ents[1].inum == 2 && s.nodes[2].kind == Dir && s.nodes[2].nlink == 0
  {
    var s1, s2, a, b := NestedDir();
    var c, d := Unlink(2, "b", 2), Unlink(1, "d", 2);
    assert Names(s2.nodes[2].ents, 2, "b");
    var s3 := Do(s2, c);
    StepKeepsInv(s2, c);
    assert Names(s3.nodes[1].ents, 2, "d");
    ss, sts := [Start(4), s1, s2, s3, Do(s3, d)], [a, b, c, d];
  }

  // ---------- the calls ----------

  class Volume {
    var nodes: seq<Node>
    ghost var pending: seq<nat>
    ghost var depth: seq<nat>
    ghost var slot: seq<nat>

    ghost function View(): State
      reads this
    {
      State(nodes, pending, depth, slot)
    }

    /** mkfs's image with n inodes. */
    constructor (n: nat)
      requires n > ROOT
      ensures View() == Start(n) && Inv(View())
    {
      var s := Start(n);
      nodes, pending, depth, slot := s.nodes, s.pending, s.depth, s.slot;
      new;
      StartOk(n);
    }

    /** dirlookup: the first slot in use under the name, or -1. */
    method DirLookup(d: nat, name: string) returns (k: int)
      requires d < |nodes|
      ensures k >= 0 <==> Present(nodes[d].ents, name)
      ensures k >= 0 ==> Names(nodes[d].ents, k, name) && forall m :: 0 <= m < k ==> !Names(nodes[d].ents, m, name)
    {
      var ents := nodes[d].ents;
      k := 0;
      while k < |ents|
        invariant 0 <= k <= |ents| && forall m :: 0 <= m < k ==> !Names(ents, m, name)
      {
        if ents[k].inum != 0 && ents[k].name == name {
          assert Names(ents, k, name);
          return;
        }
        k := k + 1;
      }
      k := -1;
    }

    /** dirlink's second loop. */
    method EmptySlot(d: nat) returns (k: nat)
      requires d < |nodes|
      ensures k == FreeSlot(nodes[d].ents, 0)
    {
      var ents := nodes[d].ents;
      k := 0;
      while k < |ents| && ents[k].inum != 0
        invariant 0 <= k <= |ents| && FreeSlot(ents, 0) == FreeSlot(ents, k)
      {
        k := k + 1;
      }
    }

    method DirLink(d: nat, name: string, inum: nat) returns (ok: bool)
      requires d < |nodes|
      modifies `nodes
      ensures ok <==> !Present(old(nodes[d].ents), name)
      ensures nodes == if ok then old(nodes)[d := Entered(old(nodes[d]), Ent(inum, name), 0)] else old(nodes)
    {
      var k := DirLookup(d, name);
      if k >= 0 { return false; }
      var off := EmptySlot(d);
      var ents := nodes[d].ents;
      ents := if off < |ents| then ents[off := Ent(inum, name)] else ents + [Ent(inum, name)];
      nodes := nodes[d := nodes[d].(ents := ents)];
      ok := true;
    }

    method IsDirEmpty(d: nat) returns (empty: bool)
      requires d < |nodes| && nodes[d].kind == Dir
      ensures empty <==> Removable(nodes[d])
    {
      var k := 2;
      while k < |nodes[d].ents|
        invariant 2 <= k && forall m :: 2 <= m < k && m < |nodes[d].ents| ==> nodes[d].ents[m].inum == 0
      {
        if nodes[d].ents[k].inum != 0 { return false; }
        k := k + 1;
      }
      empty := true;
    }

    /** ialloc's search: the first free inode, or 0 where the kernel panics. */
    method IAlloc() returns (j: nat)
      requires |nodes| > 0
      ensures j == 0 <==> forall i :: 0 < i < |nodes| ==> nodes[i].kind != Free
      ensures j != 0 ==> j < |nodes| && nodes[j].kind == Free && forall i :: 0 < i < j ==> nodes[i].kind != Free
    {
      j := 1;
      while j < |nodes|
        invariant 1 <= j && forall i :: 0 < i < j && i < |nodes| ==> nodes[i].kind != Free
      {
        if nodes[j].kind == Free { return; }
        j := j + 1;
      }
      j := 0;
    }

    method AddLinks(i: nat, up: int)
      requires i < |nodes|
      modifies `nodes
      ensures nodes == old(nodes)[i := old(nodes[i]).(nlink := old(nodes[i]).nlink + up)]
    {
      nodes := nodes[i := nodes[i].(nlink := nodes[i].nlink + up)];
    }
  
    /** create's dirlinks of "." and ".." into the new inode j. */
    method AddDots(j: nat, dp: nat)
      requires 0 < j < |nodes| && dp > 0 && nodes[j].ents == []
      modifies `nodes
      ensures nodes == old(nodes)[j := old(nodes[j]).(ents := [Ent(j, "."), Ent(dp, "..")])]
    {
      var dot := DirLink(j, ".", j);
      ghost var one := nodes[j].ents;
      assert one == [Ent(j, ".")] && FreeSlot(one, 0) == 1 && !Present(one, "..");
      var up := DirLink(j, "..", dp);
      assert nodes[j].ents == [Ent(j, "."), Ent(dp, "..")];
    }

    /** The rest of create, once dirlookup failed and ialloc found j. */
    method FillNew(dp: nat, name: string, kind: Kind, j: nat)
      requires Sized(View()) && Enabled(View(), Create(dp, name, kind, j))
      modifies this
      ensures View() == Do(old(View()), Create(dp, name, kind, j))
    {
      depth, slot := depth[j := depth[dp] + 1], slot[j := FreeSlot(nodes[dp].ents, 0)];
      nodes := nodes[j := Node(kind, 1, [])];
      if kind == Dir {
        AddLinks(dp, 1);
        AddDots(j, dp);
      }
      var ok := DirLink(dp, name, j);
    }

    /** create: an existing file for T_FILE, -1 for any other existing name, else a new inode
        (0 where ialloc panics). */
    method CreateNode(dp: nat, name: string, kind: Kind) returns (r: int)
      requires Inv(View()) && IsDir(View(), dp) && kind != Free
      modifies this
      ensures Inv(View()) <==> Linked(old(nodes[dp])) || View() == old(View())
      ensures Present(old(nodes[dp].ents), name) ==> View() == old(View())
      ensures !Present(old(nodes[dp].ents), name) && r > 0 ==>
        Enabled(old(View()), Create(dp, name, kind, r)) && View() == Do(old(View()), Create(dp, name, kind, r))
      ensures !Present(old(nodes[dp].ents), name) && r <= 0 ==>
        r == 0 && View() == old(View()) && forall i :: 0 < i < |nodes| ==> nodes[i].kind != Free
      ensures Present(old(nodes[dp].ents), name) ==>
        exists k: nat :: Names(nodes[dp].ents, k, name) && nodes[dp].ents[k].inum < |nodes| &&
          r == if kind == File && nodes[nodes[dp].ents[k].inum].kind == File then nodes[dp].ents[k].inum else -1
    {
      var k := DirLookup(dp, name);
      if k >= 0 {
        assert ShapeOk(View(), dp) && Names(nodes[dp].ents, k, name);
        var i := nodes[dp].ents[k].inum;
        return if kind == File && nodes[i].kind == File then i else -1;
      }
      var j := IAlloc();
      if j == 0 { return 0; }
      AttachedIff(View(), Create(dp, name, kind, j));
      FillNew(dp, name, kind, j);
      assert nodes[j] != old(nodes[j]);
      return j;
    }

    /** sys_link up to its first iunlock. */
    method Hold(i: nat)
      requires Inv(View()) && Enabled(View(), LinkBegin(i))
      modifies this
      ensures Inv(View()) && View() == Do(old(View()), LinkBegin(i))
    {
      StepKeepsInv(View(), LinkBegin(i));
      AddLinks(i, 1);
      pending := pending[i := pending[i] + 1];
    }

    /** sys_link's bad path. */
    method LetGo(i: nat)
      requires Inv(View()) && Enabled(View(), LinkAbort(i))
      modifies this
      ensures Inv(View()) && View() == Do(old(View()), LinkAbort(i))
    {
      StepKeepsInv(View(), LinkAbort(i));
      AddLinks(i, -1);
      pending := pending[i := pending[i] - 1];
    }

    /** sys_link's directory entry. */
    method Name(i: nat, dp: nat, name: string) returns (ok: bool)
      requires Inv(View()) && 0 < i < |nodes| && pending[i] > 0 && IsDir(View(), dp)
      modifies this
      ensures Inv(View()) <==> !ok || Linked(old(nodes[dp]))
      ensures ok <==> Enabled(old(View()), LinkCommit(i, dp, name))
      ensures View() == if ok then Do(old(View()), LinkCommit(i, dp, name)) else old(View())
    {
      ghost var s := View();
      ok := DirLink(dp, name, i);
      if ok {
        AttachedIff(s, LinkCommit(i, dp, name));
        pending := pending[i := pending[i] - 1];
      }
    }

    /** sys_link with its old inode i and its new parent found; `found` and `sameDev` are the
        outcomes of nameiparent and of the device comparison. */
    method Link(i: nat, found: bool, dp: nat, sameDev: bool, name: string) returns (ok: bool)
      requires Inv(View()) && 0 < i < |nodes| && nodes[i].kind != Free
      requires found ==> IsDir(View(), dp)
      modifies this
      ensures Inv(View()) <==> !ok || (dp < |old(nodes)| && Linked(old(nodes)[dp]))
      ensures ok <==> old(nodes[i].kind) != Dir && found && sameDev && !Present(old(nodes[dp].ents), name)
      ensures !ok ==> View() == old(View())
      ensures ok ==>
        Linkable(old(View()), i, dp, name) && View() == Do(Do(old(View()), LinkBegin(i)), LinkCommit(i, dp, name))
    {
      if nodes[i].kind == Dir { return false; }
      Hold(i);
      if found && sameDev {
        ok := Name(i, dp, name);
        if ok { return; }
      }
      LetGo(i);
      assert nodes == old(nodes) && pending == old(pending);
      return false;
    }

    /** sys_unlink's checks: the slot to clear, or -1. */
    method Victim(dp: nat, name: string) returns (k: int)
      requires Inv(View()) && IsDir(View(), dp)
      ensures k >= 0 ==> Enabled(View(), Step.Unlink(dp, name, k))
      ensures k < 0 ==> forall m: nat :: !Enabled(View(), Step.Unlink(dp, name, m))
    {
      if name == "." || name == ".." { return -1; }
      k := DirLookup(dp, name);
      if k < 0 { return -1; }
      assert ShapeOk(View(), dp);
      assert forall m :: Names(nodes[dp].ents, m, name) ==> m == k;
      var i := nodes[dp].ents[k].inum;
      if nodes[i].kind == Dir {
        var empty := IsDirEmpty(i);
        if !empty { return -1; }
      }
    }

    /** sys_unlink's updates. */
    method Remove(dp: nat, ghost name: string, k: nat)
      requires Inv(View()) && Enabled(View(), Step.Unlink(dp, name, k))
      modifies `nodes
      ensures View() == Do(old(View()), Step.Unlink(dp, name, k))
    {
      ghost var t := UnlinkTarget(View(), Step.Unlink(dp, name, k));
      var i := nodes[dp].ents[k].inum;
      var isDir := nodes[i].kind == Dir;
      nodes := nodes[dp := nodes[dp].(ents := nodes[dp].ents[k := Ent(0, "")])];
      if isDir { AddLinks(dp, -1); }
      AddLinks(i, -1);
    }

    method Unlink(dp: nat, name: string) returns (ok: bool, k: int)
      requires Inv(View()) && IsDir(View(), dp)
      modifies `nodes
      ensures Inv(View())
      ensures ok ==>
        k >= 0 && Enabled(old(View()), Step.Unlink(dp, name, k)) && View() == Do(old(View()), Step.Unlink(dp, name, k))
      ensures !ok ==> View() == old(View()) && forall m: nat :: !Enabled(old(View()), Step.Unlink(dp, name, m))
    {
      k := Victim(dp, name);
      if k < 0 { return false, k; }
      StepKeepsInv(View(), Step.Unlink(dp, name, k));
      Remove(dp, name, k);
      ok := true;
    }
  }
}
