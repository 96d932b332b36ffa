/** grep's matcher (match, matchhere, matchstar in grep.c) against the language its patterns
    denote.  A C string is the characters before its NUL. */
module Grep {

  // ---------- what a pattern means ----------

  datatype Atom = Any | Lit(c: char)

  /** One element of a pattern: an atom, or an atom repeated any number of times. */
  datatype Item = One(a: Atom) | Star(a: Atom)

  /** `fromStart` is a leading ^, `toEnd` a final $. */
  datatype Pattern = Pattern(fromStart: bool, items: seq<Item>, toEnd: bool)

  function AtomOf(c: char): Atom { if c == '.' then Any else Lit(c) }

  predicate Accepts(a: Atom, c: char) { a == Any || a == Lit(c) }

  /** The strings that one item stands for. */
  predicate InItem(it: Item, s: string) {
    match it
    case One(a) => |s| == 1 && Accepts(a, s[0])
    case Star(a) => forall i :: 0 <= i < |s| ==> Accepts(a, s[i])
  }

  function Concat(ps: seq<string>): string { if ps == [] then [] else ps[0] + Concat(ps[1..]) }

  /** ps cuts s into one piece per item. */
  ghost predicate Splits(items: seq<Item>, s: string, ps: seq<string>) {
    |ps| == |items| && Concat(ps) == s && forall i :: 0 <= i < |ps| ==> InItem(items[i], ps[i])
  }

  ghost predicate Denotes(items: seq<Item>, s: string) { exists ps: seq<string> :: Splits(items, s, ps) }

  /** Some occurrence of the items in the text, pinned to the ends the pattern anchors. */
  ghost predicate Means(p: Pattern, text: string) {
    exists i, j :: Occurs(p, text, i, j)
  }

  ghost predicate Occurs(p: Pattern, text: string, i: int, j: int) {
    && 0 <= i <= j <= |text|
    && (p.fromStart ==> i == 0) && (p.toEnd ==> j == |text|)
    && Denotes(p.items, text[i..j])
  }

  /** How a pattern string is read: ^ only first, $ only last, * after any character. */
  function Body(re: string): Pattern {
    if re == "" then Pattern(true, [], false)
    else if |re| >= 2 && re[1] == '*' then
      var r := Body(re[2..]);
      r.(items := [Star(AtomOf(re[0]))] + r.items)
    else if re == "$" then Pattern(true, [], true)
    else
      var r := Body(re[1..]);
      r.(items := [One(AtomOf(re[0]))] + r.items)
  }

  function Parse(re: string): Pattern {
    if re != "" && re[0] == '^' then Body(re[1..]) else Body(re).(fromStart := false)
  }

  // ---------- the language, one item at a time ----------

  lemma DenotesNil(s: string)
    ensures Denotes([], s) <==> s == []
  {
    if s == [] { assert Splits([], s, []); }
  }

  /** The first piece can be any prefix in the item's language. */
  lemma DenotesCons(it: Item, items: seq<Item>, s: string)
    ensures Denotes([it] + items, s) <==>
      exists k :: 0 <= k <= |s| && InItem(it, s[..k]) && Denotes(items, s[k..])
  {
    if Denotes([it] + items, s) {
      var ps :| Splits([it] + items, s, ps);
      var k := |ps[0]|;
      assert s[..k] == ps[0] && s[k..] == Concat(ps[1..]);
      assert Splits(items, s[k..], ps[1..]) by {
        forall i | 0 <= i < |ps[1..]| ensures InItem(items[i], ps[1..][i]) {
          assert InItem(([it] + items)[i + 1], ps[i + 1]);
        }
      }
    }
    if k :| 0 <= k <= |s| && InItem(it, s[..k]) && Denotes(items, s[k..]) {
      var ps :| Splits(items, s[k..], ps);
      assert ([s[..k]] + ps)[1..] == ps;
      assert Splits([it] + items, s, [s[..k]] + ps);
    }
  }

  lemma StarPrefix(a: Atom, s: string, k: int)
    requires 0 < k <= |s|
    ensures InItem(Star(a), s[..k]) <==> Accepts(a, s[0]) && InItem(Star(a), s[1..][..k - 1])
    ensures s[1..][k - 1..] == s[k..]
  {
    var t := s[1..][..k - 1];
    forall i | 0 <= i < k - 1 ensures t[i] == s[..k][i + 1] { }
    assert s[..k] == [s[0]] + t;
  }

  /** A starred item gives up one character at a time. */
  lemma StarStep(a: Atom, items: seq<Item>, s: string)
    ensures Denotes([Star(a)] + items, s) <==>
      Denotes(items, s) || (|s| > 0 && Accepts(a, s[0]) && Denotes([Star(a)] + items, s[1..]))
  {
    assert s[0..] == s && InItem(Star(a), s[..0]);
    DenotesCons(Star(a), items, s);
    if |s| > 0 {
      DenotesCons(Star(a), items, s[1..]);
      forall k | 0 < k <= |s|
        ensures InItem(Star(a), s[..k]) <==> Accepts(a, s[0]) && InItem(Star(a), s[1..][..k - 1])
        ensures s[1..][k - 1..] == s[k..]
      {
        StarPrefix(a, s, k);
      }
      if Accepts(a, s[0]) && Denotes([Star(a)] + items, s[1..]) {
        var k :| 0 <= k <= |s[1..]| && InItem(Star(a), s[1..][..k]) && Denotes(items, s[1..][k..]);
        assert InItem(Star(a), s[..k + 1]) && s[1..][k..] == s[k + 1..];
      }
    }
  }

  lemma OneStep(a: Atom, items: seq<Item>, s: string)
    ensures Denotes([One(a)] + items, s) <==> |s| > 0 && Accepts(a, s[0]) && Denotes(items, s[1..])
  {
    DenotesCons(One(a), items, s);
    if |s| > 0 { assert s[..1] == [s[0]]; }
  }

  // ---------- matching at the start of the text ----------

  /** Some prefix of the text (all of it under a final $) is in the items' language. */
  ghost predicate Here(items: seq<Item>, toEnd: bool, text: string) {
    exists j :: 0 <= j <= |text| && (toEnd ==> j == |text|) && Denotes(items, text[..j])
  }

  lemma HereNil(toEnd: bool, text: string)
    ensures Here([], toEnd, text) <==> !toEnd || text == ""
  {
    DenotesNil(text[..0]);
    DenotesNil(text[..|text|]);
  }

  lemma HereOne(a: Atom, items: seq<Item>, toEnd: bool, text: string)
    ensures Here([One(a)] + items, toEnd, text) <==>
      |text| > 0 && Accepts(a, text[0]) && Here(items, toEnd, text[1..])
  {
    forall j | 0 <= j <= |text|
      ensures Denotes([One(a)] + items, text[..j])
        <==> j > 0 && Accepts(a, text[0]) && Denotes(items, text[1..][..j - 1])
    {
      OneStep(a, items, text[..j]);
      if j > 0 { assert text[..j][1..] == text[1..][..j - 1]; }
    }
    if |text| > 0 && Accepts(a, text[0]) && Here(items, toEnd, text[1..]) {
      var j :| 0 <= j <= |text[1..]| && (toEnd ==> j == |text[1..]|) && Denotes(items, text[1..][..j]);
      assert Denotes([One(a)] + items, text[..j + 1]);
    }
  }

  lemma HereStar(a: Atom, items: seq<Item>, toEnd: bool, text: string)
    ensures Here([Star(a)] + items, toEnd, text) <==>
      Here(items, toEnd, text) || (|text| > 0 && Accepts(a, text[0]) && Here([Star(a)] + items, toEnd, text[1..]))
  {
    forall j | 0 <= j <= |text|
      ensures Denotes([Star(a)] + items, text[..j]) <==>
        Denotes(items, text[..j]) || (j > 0 && Accepts(a, text[0]) && Denotes([Star(a)] + items, text[1..][..j - 1]))
    {
      StarStep(a, items, text[..j]);
      if j > 0 { assert text[..j][1..] == text[1..][..j - 1]; }
    }
    if |text| > 0 && Accepts(a, text[0]) && Here([Star(a)] + items, toEnd, text[1..]) {
      var j :| 0 <= j <= |text[1..]| && (toEnd ==> j == |text[1..]|) && Denotes([Star(a)] + items, text[1..][..j]);
      assert Denotes([Star(a)] + items, text[..j + 1]);
    }
  }

  /** Means quantifies over where an occurrence starts. */
  lemma MeansHere(p: Pattern, text: string)
    ensures Means(p, text) <==>
      exists i :: 0 <= i <= |text| && (p.fromStart ==> i == 0) && Here(p.items, p.toEnd, text[i..])
  {
    forall i, j | 0 <= i <= j <= |text| ensures text[i..][..j - i] == text[i..j] { }
    if Means(p, text) {
      var i, j :| Occurs(p, text, i, j);
      assert text[i..][..j - i] == text[i..j];
      assert Here(p.items, p.toEnd, text[i..]);
    }
    if i :| 0 <= i <= |text| && (p.fromStart ==> i == 0) && Here(p.items, p.toEnd, text[i..]) {
      var j :| 0 <= j <= |text[i..]| && (p.toEnd ==> j == |text[i..]|) && Denotes(p.items, text[i..][..j]);
      assert text[i..][..j] == text[i..i + j];
      assert Occurs(p, text, i, i + j);
    }
  }

  // ---------- the matcher ----------

  /** matchhere: the rest of the pattern against the start of the text. */
  method MatchHere(re: string, text: string) returns (r: bool)
    ensures r <==> Here(Body(re).items, Body(re).toEnd, text)
    decreases |re|, 0
  {
    if re == "" {
      HereNil(false, text);
      return true;
    }
    if |re| >= 2 && re[1] == '*' {
      r := MatchStar(re[0], re[2..], text);
      return;
    }
    if re[0] == '$' && |re| == 1 {
      HereNil(true, text);
      return text == "";
    }
    HereOne(AtomOf(re[0]), Body(re[1..]).items, Body(re).toEnd, text);
    if text != "" && (re[0] == '.' || re[0] == text[0]) {
      r := MatchHere(re[1..], text[1..]);
      return;
    }
    return false;
  }

  /** matchstar: c* and the rest of the pattern against the start of the text. */
  method MatchStar(c: char, re: string, text: string) returns (r: bool)
    ensures r <==> Here([Star(AtomOf(c))] + Body(re).items, Body(re).toEnd, text)
    decreases |re|, 1
  {
    ghost var a, b := AtomOf(c), Body(re);
    var t := text;
    while true
      invariant Here([Star(a)] + b.items, b.toEnd, text) <==> Here([Star(a)] + b.items, b.toEnd, t)
      decreases |t|
    {
      HereStar(a, b.items, b.toEnd, t);
      var here := MatchHere(re, t);
      if here { return true; }
      if !(t != "" && (t[0] == c || c == '.')) { return false; }
      t := t[1..];
    }
  }

  /** match: 1 exactly when some substring of the text, anchored as the pattern says, is in the
      language that the pattern denotes. */
  method Match(re: string, text: string) returns (r: bool)
    ensures r <==> Means(Parse(re), text)
  {
    ghost var p := Parse(re);
    MeansHere(p, text);
    BodyAnchored(re);
    assert text[0..] == text;
    if re != "" && re[0] == '^' {
      BodyAnchored(re[1..]);
      r := MatchHere(re[1..], text);
      return;
    }
    var i := 0;
    while true
      invariant 0 <= i <= |text|
      invariant forall k :: 0 <= k < i ==> !Here(p.items, p.toEnd, text[k..])
      decreases |text| - i
    {
      var here := MatchHere(re, text[i..]);
      if here { return true; }
      if i == |text| { return false; }
      i := i + 1;
    }
  }

  lemma {:induction false} BodyAnchored(re: string)
    ensures Body(re).fromStart
  {
    if re != "" {
      if |re| >= 2 && re[1] == '*' { BodyAnchored(re[2..]); } else if re != "$" { BodyAnchored(re[1..]); }
    }
  }
}
