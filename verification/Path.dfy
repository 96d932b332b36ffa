/** Path names (skipelem in fs.c and the loop of namex that calls it). */
module Path {

  const DIRSIZ := 14

  function DropSlashes(s: string): (r: string)
    ensures |r| <= |s| && (r != "" ==> r[0] != '/')
  {
    if s != "" && s[0] == '/' then DropSlashes(s[1..]) else s
  }

  /** The characters before the first slash. */
  function First(s: string): (r: string)
    ensures |r| <= |s| && (s != "" && s[0] != '/' ==> r != "") && '/' !in r
  {
    if s == "" || s[0] == '/' then "" else [s[0]] + First(s[1..])
  }

  /** The name skipelem stores: longer elements are cut. */
  function Stored(w: string): string { if |w| >= DIRSIZ then w[..DIRSIZ] else w }

  /** The names that skipelem finds one after the other. */
  function Elements(s: string): seq<string>
    decreases |s|
  {
    var p := DropSlashes(s);
    if p == "" then [] else [Stored(First(p))] + Elements(p[|First(p)|..])
  }

  // ---------- what a path spells ----------

  function Slashes(n: nat): string { if n == 0 then "" else ['/'] + Slashes(n - 1) }

  predicate IsElement(w: string) { w != "" && '/' !in w }

  /** The words of a path with gaps[k] slashes before word k and gaps[|words|] after the last. */
  function Spell(words: seq<string>, gaps: seq<nat>): string
    requires |gaps| == |words| + 1
  {
    Slashes(gaps[0]) + if words == [] then "" else words[0] + Spell(words[1..], gaps[1..])
  }

  predicate GoodSpelling(words: seq<string>, gaps: seq<nat>) {
    && |gaps| == |words| + 1 && (forall k :: 0 <= k < |words| ==> IsElement(words[k]))
    && (forall k :: 0 < k < |words| ==> gaps[k] > 0)
  }

  lemma {:induction false} DropAll(n: nat, s: string)
    requires s != "" ==> s[0] != '/'
    ensures DropSlashes(Slashes(n) + s) == s
  {
    if n > 0 {
      assert (Slashes(n) + s)[1..] == Slashes(n - 1) + s;
      DropAll(n - 1, s);
    } else {
      assert Slashes(n) + s == s;
    }
  }

  lemma {:induction false} FirstWord(w: string, rest: string)
    requires '/' !in w && (rest != "" ==> rest[0] == '/')
    ensures First(w + rest) == w && (w + rest)[|w|..] == rest
  {
    if w == "" {
      assert w + rest == rest;
    } else {
      assert (w + rest)[1..] == w[1..] + rest;
      FirstWord(w[1..], rest);
    }
  }

  /** Whatever the slashes between, before and after them, the words are what skipelem finds. */
  lemma {:induction false} ElementsSpelled(words: seq<string>, gaps: seq<nat>)
    requires GoodSpelling(words, gaps)
    ensures |Elements(Spell(words, gaps))| == |words|
    ensures forall k :: 0 <= k < |words| ==> Elements(Spell(words, gaps))[k] == Stored(words[k])
    decreases |words|
  {
    if words == [] {
      DropAll(gaps[0], "");
    } else {
      var rest := Spell(words[1..], gaps[1..]);
      RestStarts(words[1..], gaps[1..]);
      DropAll(gaps[0], words[0] + rest);
      FirstWord(words[0], rest);
      ElementsSpelled(words[1..], gaps[1..]);
    }
  }

  lemma RestStarts(words: seq<string>, gaps: seq<nat>)
    requires |gaps| == |words| + 1 && (words != [] ==> gaps[0] > 0)
    ensures Spell(words, gaps) != "" ==> Spell(words, gaps)[0] == '/'
  {
    if gaps[0] > 0 { assert Slashes(gaps[0])[0] == '/'; } else { assert Slashes(0) == ""; }
  }

  /** Every path spells some words. */
  lemma {:induction false} EveryPath(s: string) returns (words: seq<string>, gaps: seq<nat>)
    ensures GoodSpelling(words, gaps) && Spell(words, gaps) == s
    ensures words != [] && s[0] != '/' ==> gaps[0] == 0
    ensures s != "" && s[0] == '/' ==> gaps[0] > 0
    decreases |s|
  {
    if s == "" {
      return [], [0];
    }
    if s[0] == '/' {
      words, gaps := EveryPath(s[1..]);
      gaps := gaps[0 := gaps[0] + 1];
      SpellSlash(words, gaps);
    } else {
      var w := First(s);
      FirstPrefix(s);
      words, gaps := EveryPath(s[|w|..]);
      words, gaps := [w] + words, [0] + gaps;
    }
  }

  lemma SpellSlash(words: seq<string>, gaps: seq<nat>)
    requires |gaps| == |words| + 1 && gaps[0] > 0
    ensures Spell(words, gaps) == ['/'] + Spell(words, gaps[0 := gaps[0] - 1])
  {
    var less := gaps[0 := gaps[0] - 1];
    assert gaps[1..] == less[1..];
  }

  lemma {:induction false} FirstPrefix(s: string)
    ensures |First(s)| <= |s| && s == First(s) + s[|First(s)|..]
    ensures |First(s)| < |s| ==> s[|First(s)|] == '/'
  {
    if s != "" && s[0] != '/' { FirstPrefix(s[1..]); }
  }

  // ---------- the code ----------

  /** The loops over slashes. */
  method PastSlashes(path: string, i: nat) returns (p: nat)
    requires i <= |path|
    ensures i <= p <= |path| && path[p..] == DropSlashes(path[i..])
  {
    p := i;
    while p < |path| && path[p] == '/'
      invariant i <= p <= |path| && DropSlashes(path[p..]) == DropSlashes(path[i..])
    {
      p := p + 1;
    }
  }

  /** The loop over an element. */
  method PastElement(path: string, s: nat) returns (p: nat)
    requires s <= |path|
    ensures p == s + |First(path[s..])| <= |path| && First(path[s..]) == path[s..p]
  {
    p := s;
    while p < |path| && path[p] != '/'
      invariant s <= p <= |path| && First(path[s..]) == path[s..p] + First(path[p..])
    {
      assert path[p..][1..] == path[p + 1..] && path[s..p + 1] == path[s..p] + [path[p]];
      p := p + 1;
    }
  }

  /** skipelem at position i: the stored name and the position of the next element, or found == false. */
  method SkipElem(path: string, i: nat) returns (found: bool, name: string, next: nat)
    requires i <= |path|
    ensures found <==> DropSlashes(path[i..]) != ""
    ensures found ==> i < next <= |path| && name == Stored(First(DropSlashes(path[i..])))
    ensures found ==> Elements(path[i..]) == [name] + Elements(path[next..])
    ensures found && next < |path| ==> path[next] != '/'
  {
    var s := PastSlashes(path, i);
    if s == |path| { return false, "", s; }
    var e := PastElement(path, s);
    var w := path[s..e];
    name := if |w| >= DIRSIZ then w[..DIRSIZ] else w;
    next := PastSlashes(path, e);
    assert path[s..][|w|..] == path[e..];
    DropTwice(path[e..]);
    SameElements(path[next..], path[e..]);
    if next < |path| { assert path[next..][0] == path[next]; }
    found := true;
  }

  lemma DropTwice(s: string)
    ensures DropSlashes(DropSlashes(s)) == DropSlashes(s)
  {
  }

  lemma SameElements(a: string, b: string)
    requires DropSlashes(a) == DropSlashes(b)
    ensures Elements(a) == Elements(b)
  {
  }

  /** namex's loop: the names in order. */
  method Walk(path: string) returns (names: seq<string>)
    ensures names == Elements(path)
  {
    names := [];
    var i := 0;
    assert path[0..] == path;
    while true
      invariant 0 <= i <= |path| && Elements(path) == names + Elements(path[i..])
      decreases |path| - i
    {
      var found, name, next := SkipElem(path, i);
      if !found { break; }
      names := names + [name];
      i := next;
    }
  }
}
