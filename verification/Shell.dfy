/** The shell's parser (gettoken, peek, parsecmd and the functions it calls, nulterminate in sh.c).
    The line is its characters up to the NUL; positions are the cursor *ps. */
module Shell {

  const NUL := '\0'
  const MAXARGS := 10

  predicate Space(c: char) { c == ' ' || c == '\t' || c == '\r' || c == '\n' || c == '\U{0B}' }

  predicate Symbol(c: char) { c == '<' || c == '|' || c == '>' || c == '&' || c == ';' || c == '(' || c == ')' }

  predicate WordChar(c: char) { !Space(c) && !Symbol(c) && c != NUL }

  /** A word of the line: argv[i] and eargv[i], or file and efile. */
  datatype Span = Span(q: nat, eq: nat)

  /** `out`: opened for writing on descriptor 1, for both > and >>. */
  datatype Redirect = Redirect(file: Span, out: bool)

  datatype Cmd =
    | Exec(argv: seq<Span>)
    | Redir(cmd: Cmd, to: Redirect)
    | Pipe(left: Cmd, right: Cmd)
    | List(left: Cmd, right: Cmd)
    | Back(cmd: Cmd)

  /** Err: the shell's panic on a syntax error. */
  datatype Result = Ok(cmd: Cmd, pos: nat) | Err

  datatype Redirs = Found(redirs: seq<Redirect>, at: nat) | NoFile

  // ---------- tokens ----------

  function Cur(s: string, i: nat): char { if i < |s| then s[i] else NUL }

  function Skip(s: string, i: nat): (j: nat)
    requires i <= |s|
    ensures i <= j <= |s| && (j < |s| ==> !Space(s[j]))
    decreases |s| - i
  {
    if i < |s| && Space(s[i]) then Skip(s, i + 1) else i
  }

  function WordEnd(s: string, i: nat): (j: nat)
    requires i <= |s|
    ensures i <= j <= |s| && (j < |s| ==> Space(s[j]) || Symbol(s[j]))
    decreases |s| - i
  {
    if i < |s| && !Space(s[i]) && !Symbol(s[i]) then WordEnd(s, i + 1) else i
  }

  /** What gettoken returns: the token's kind, its ends and the cursor after it. */
  datatype Token = Token(kind: char, q: nat, eq: nat, next: nat)

  function GetToken(s: string, i: nat): (t: Token)
    requires i <= |s|
    ensures i <= t.q <= t.eq <= t.next <= |s|
    ensures t.kind != NUL ==> t.q < t.eq
  {
    var q := Skip(s, i);
    var c := Cur(s, q);
    if q == |s| || c == NUL then Token(NUL, q, q, q)
    else if c == '>' && Cur(s, q + 1) == '>' then Token('+', q, q + 2, Skip(s, q + 2))
    else if Symbol(c) then Token(c, q, q + 1, Skip(s, q + 1))
    else Token('a', q, WordEnd(s, q), Skip(s, WordEnd(s, q)))
  }

  /** A maximal run of word characters. */
  ghost predicate IsWord(s: string, w: Span) {
    && w.q < w.eq <= |s| && (forall k :: w.q <= k < w.eq ==> WordChar(s[k]))
    && (w.eq < |s| ==> !WordChar(s[w.eq]))
  }

  /** The character peek tests, NUL at the end of the line. */
  function Ahead(s: string, i: nat): char
    requires i <= |s|
  {
    Cur(s, Skip(s, i))
  }

  predicate IsArrow(c: char) { c == '<' || c == '>' }

  /** What ends the words of a command. */
  predicate EndsWords(c: char) { c == '|' || c == ')' || c == '&' || c == ';' }

  // ---------- the parse ----------

  function Wrap(c: Cmd, rs: seq<Redirect>): Cmd
    decreases |rs|
  {
    if rs == [] then c else Redir(Wrap(c, rs[..|rs| - 1]), rs[|rs| - 1])
  }

  function ParseRedirs(s: string, i: nat): (r: Redirs)
    requires i <= |s| && NUL !in s
    ensures r.Found? ==> i <= r.at <= |s|
    decreases |s| - i
  {
    if !IsArrow(Ahead(s, i)) then Found([], Skip(s, i))
    else
      var t := GetToken(s, i);
      var f := GetToken(s, t.next);
      if f.kind != 'a' then NoFile
      else
        var rest := ParseRedirs(s, f.next);
        if rest.NoFile? then NoFile else Found([Redirect(Span(f.q, f.eq), t.kind != '<')] + rest.redirs, rest.at)
  }

  /** parseexec's loop: the exec command is filled in although redirections already wrap it. */
  function ParseArgs(s: string, i: nat, argv: seq<Span>, rs: seq<Redirect>): (r: Result)
    requires i <= |s| && NUL !in s
    ensures r.Ok? ==> i <= r.pos <= |s|
    decreases |s| - i
  {
    var t := GetToken(s, i);
    if EndsWords(Ahead(s, i)) || t.kind == NUL then Ok(Wrap(Exec(argv), rs), Skip(s, i))
    else if t.kind != 'a' || |argv| + 1 >= MAXARGS then Err
    else
      var more := ParseRedirs(s, t.next);
      if more.NoFile? then Err else ParseArgs(s, more.at, argv + [Span(t.q, t.eq)], rs + more.redirs)
  }

  function ParseExec(s: string, i: nat): (r: Result)
    requires i <= |s| && NUL !in s
    ensures r.Ok? ==> i <= r.pos <= |s|
    decreases |s| - i, 1
  {
    if Ahead(s, i) == '(' then ParseBlock(s, i)
    else
      var rs := ParseRedirs(s, i);
      if rs.NoFile? then Err else ParseArgs(s, rs.at, [], rs.redirs)
  }

  function ParseBlock(s: string, i: nat): (r: Result)
    requires i <= |s| && NUL !in s && Ahead(s, i) == '('
    ensures r.Ok? ==> i <= r.pos <= |s|
    decreases |s| - i, 0
  {
    CloseBlock(s, ParseLine(s, GetToken(s, i).next))
  }

  /** parseblock after its parseline. */
  function CloseBlock(s: string, c: Result): (r: Result)
    requires NUL !in s && (c.Ok? ==> c.pos <= |s|)
    ensures r.Ok? ==> c.Ok? && c.pos <= r.pos <= |s|
  {
    if c.Err? || Ahead(s, c.pos) != ')' then Err
    else
      var rs := ParseRedirs(s, GetToken(s, c.pos).next);
      if rs.NoFile? then Err else Ok(Wrap(c.cmd, rs.redirs), rs.at)
  }

  function ParsePipe(s: string, i: nat): (r: Result)
    requires i <= |s| && NUL !in s
    ensures r.Ok? ==> i <= r.pos <= |s|
    decreases |s| - i, 2
  {
    var l := ParseExec(s, i);
    if l.Err? then Err
    else if Ahead(s, l.pos) != '|' then Ok(l.cmd, Skip(s, l.pos))
    else
      var r := ParsePipe(s, GetToken(s, l.pos).next);
      if r.Err? then Err else Ok(Pipe(l.cmd, r.cmd), r.pos)
  }

  /** parseline's loop over &. */
  function ParseBacks(s: string, i: nat, c: Cmd): (r: Result)
    requires i <= |s| && NUL !in s
    ensures r.Ok? && i <= r.pos <= |s|
    decreases |s| - i
  {
    if Ahead(s, i) == '&' then ParseBacks(s, GetToken(s, i).next, Back(c)) else Ok(c, Skip(s, i))
  }

  function ParseLine(s: string, i: nat): (r: Result)
    requires i <= |s| && NUL !in s
    ensures r.Ok? ==> i <= r.pos <= |s|
    decreases |s| - i, 3
  {
    var p := ParsePipe(s, i);
    if p.Err? then Err else EndLine(s, ParseBacks(s, p.pos, p.cmd))
  }

  /** parseline after its loop. */
  function EndLine(s: string, l: Result): (r: Result)
    requires NUL !in s && l.Ok? && l.pos <= |s|
    ensures r.Ok? ==> l.pos <= r.pos <= |s|
    decreases |s| - l.pos, 0
  {
    if Ahead(s, l.pos) != ';' then Ok(l.cmd, Skip(s, l.pos))
    else
      var r := ParseLine(s, GetToken(s, l.pos).next);
      if r.Err? then Err else Ok(List(l.cmd, r.cmd), r.pos)
  }

  function ParseCmd(s: string): Result
    requires NUL !in s
  {
    var l := ParseLine(s, 0);
    if l.Err? || Skip(s, l.pos) != |s| then Err else Ok(l.cmd, |s|)
  }

  // ---------- a parsed tree points at words only ----------

  ghost predicate WordsOnly(s: string, c: Cmd) {
    match c
    case Exec(argv) => |argv| < MAXARGS && forall k :: 0 <= k < |argv| ==> IsWord(s, argv[k])
    case Redir(d, to) => WordsOnly(s, d) && IsWord(s, to.file) && Pointed(s, to)
    case Pipe(l, r) => WordsOnly(s, l) && WordsOnly(s, r)
    case List(l, r) => WordsOnly(s, l) && WordsOnly(s, r)
    case Back(d) => WordsOnly(s, d)
  }

  ghost predicate FilesOnly(s: string, rs: seq<Redirect>) {
    forall k :: 0 <= k < |rs| ==> IsWord(s, rs[k].file) && Pointed(s, rs[k])
  }

  /** A redirection stands behind its arrow: < for input, > or >> for output, and only spaces between. */
  ghost predicate Pointed(s: string, r: Redirect) { exists a: nat :: PointedFrom(s, r, a) }

  ghost predicate PointedFrom(s: string, r: Redirect, a: nat) {
    && a < |s| && s[a] == (if r.out then '>' else '<') && r.file.q <= |s|
    && var b := if r.out && Cur(s, a + 1) == '>' then a + 2 else a + 1;
      b <= r.file.q && forall k :: b <= k < r.file.q ==> Space(s[k])
  }

  lemma {:induction false} SkipRun(s: string, i: nat)
    requires i <= |s|
    ensures forall k :: i <= k < Skip(s, i) ==> Space(s[k])
    decreases |s| - i
  {
    if i < |s| && Space(s[i]) { SkipRun(s, i + 1); }
  }

  /** The arrow token and the word after it. */
  lemma ArrowPoints(s: string, i: nat)
    requires i <= |s| && NUL !in s && IsArrow(Ahead(s, i))
    ensures var t := GetToken(s, i);
      var f := GetToken(s, t.next); f.kind == 'a' ==> Pointed(s, Redirect(Span(f.q, f.eq), t.kind != '<'))
  {
    var t := GetToken(s, i);
    var f := GetToken(s, t.next);
    SkipRun(s, t.eq);
    SkipRun(s, t.next);
    if f.kind == 'a' { assert PointedFrom(s, Redirect(Span(f.q, f.eq), t.kind != '<'), t.q); }
  }

  lemma {:induction false} WordEndRun(s: string, i: nat)
    requires i <= |s| && NUL !in s
    ensures forall k :: i <= k < WordEnd(s, i) ==> WordChar(s[k])
    decreases |s| - i
  {
    if i < |s| && !Space(s[i]) && !Symbol(s[i]) { WordEndRun(s, i + 1); }
  }

  lemma TokenWord(s: string, i: nat)
    requires i <= |s| && NUL !in s && GetToken(s, i).kind == 'a'
    ensures IsWord(s, Span(GetToken(s, i).q, GetToken(s, i).eq))
  {
    WordEndRun(s, Skip(s, i));
  }

  lemma {:induction false} WrapWords(s: string, c: Cmd, rs: seq<Redirect>)
    requires WordsOnly(s, c) && FilesOnly(s, rs)
    ensures WordsOnly(s, Wrap(c, rs))
  {
    if rs != [] { WrapWords(s, c, rs[..|rs| - 1]); }
  }

  lemma {:induction false} RedirsWords(s: string, i: nat)
    requires i <= |s| && NUL !in s
    ensures ParseRedirs(s, i).Found? ==> FilesOnly(s, ParseRedirs(s, i).redirs)
    decreases |s| - i
  {
    var t := GetToken(s, i);
    var f := GetToken(s, t.next);
    if IsArrow(Ahead(s, i)) && f.kind == 'a' {
      TokenWord(s, t.next);
      ArrowPoints(s, i);
      RedirsWords(s, f.next);
    }
  }

  lemma {:induction false} ArgsWords(s: string, i: nat, argv: seq<Span>, rs: seq<Redirect>)
    requires i <= |s| && NUL !in s && WordsOnly(s, Exec(argv)) && FilesOnly(s, rs)
    ensures ParseArgs(s, i, argv, rs).Ok? ==> WordsOnly(s, ParseArgs(s, i, argv, rs).cmd)
    decreases |s| - i
  {
    var t := GetToken(s, i);
    WrapWords(s, Exec(argv), rs);
    if t.kind == 'a' && |argv| + 1 < MAXARGS {
      TokenWord(s, i);
      RedirsWords(s, t.next);
      var more := ParseRedirs(s, t.next);
      if more.Found? { ArgsWords(s, more.at, argv + [Span(t.q, t.eq)], rs + more.redirs); }
    }
  }

  lemma {:induction false} ExecWordsOnly(s: string, i: nat)
    requires i <= |s| && NUL !in s
    ensures ParseExec(s, i).Ok? ==> WordsOnly(s, ParseExec(s, i).cmd)
    decreases |s| - i, 1
  {
    if Ahead(s, i) == '(' {
      var c := ParseLine(s, GetToken(s, i).next);
      LineWordsOnly(s, GetToken(s, i).next);
      if c.Ok? && Ahead(s, c.pos) == ')' {
        var rs := ParseRedirs(s, GetToken(s, c.pos).next);
        RedirsWords(s, GetToken(s, c.pos).next);
        if rs.Found? { WrapWords(s, c.cmd, rs.redirs); }
      }
    } else {
      RedirsWords(s, i);
      var rs := ParseRedirs(s, i);
      if rs.Found? { ArgsWords(s, rs.at, [], rs.redirs); }
    }
  }

  lemma {:induction false} PipeWordsOnly(s: string, i: nat)
    requires i <= |s| && NUL !in s
    ensures ParsePipe(s, i).Ok? ==> WordsOnly(s, ParsePipe(s, i).cmd)
    decreases |s| - i, 2
  {
    ExecWordsOnly(s, i);
    var l := ParseExec(s, i);
    if l.Ok? && Ahead(s, l.pos) == '|' { PipeWordsOnly(s, GetToken(s, l.pos).next); }
  }

  lemma {:induction false} BacksWordsOnly(s: string, i: nat, c: Cmd)
    requires i <= |s| && NUL !in s && WordsOnly(s, c)
    ensures WordsOnly(s, ParseBacks(s, i, c).cmd)
    decreases |s| - i
  {
    if Ahead(s, i) == '&' { BacksWordsOnly(s, GetToken(s, i).next, Back(c)); }
  }

  lemma {:induction false} LineWordsOnly(s: string, i: nat)
    requires i <= |s| && NUL !in s
    ensures ParseLine(s, i).Ok? ==> WordsOnly(s, ParseLine(s, i).cmd)
    decreases |s| - i, 3
  {
    PipeWordsOnly(s, i);
    var p := ParsePipe(s, i);
    if p.Ok? {
      BacksWordsOnly(s, p.pos, p.cmd);
      var l := ParseBacks(s, p.pos, p.cmd);
      if Ahead(s, l.pos) == ';' { LineWordsOnly(s, GetToken(s, l.pos).next); }
    }
  }

  // ---------- nothing of the line is lost ----------

  /** Word w is one of c's. */
  predicate Has(c: Cmd, w: Span) {
    match c
    case Exec(argv) => w in argv
    case Redir(d, to) => Has(d, w) || w == to.file
    case Pipe(l, r) => Has(l, w) || Has(r, w)
    case List(l, r) => Has(l, w) || Has(r, w)
    case Back(d) => Has(d, w)
  }

  /** Character k of the line is in a word of the list, of the redirections, of the command. */
  predicate InArgs(argv: seq<Span>, k: nat) { exists m :: 0 <= m < |argv| && argv[m].q <= k < argv[m].eq }

  predicate InFiles(rs: seq<Redirect>, k: nat) { exists m :: 0 <= m < |rs| && rs[m].file.q <= k < rs[m].file.eq }

  predicate Within(d: Cmd, k: nat) {
    match d
    case Exec(argv) => InArgs(argv, k)
    case Redir(e, to) => Within(e, k) || to.file.q <= k < to.file.eq
    case Pipe(l, r) => Within(l, k) || Within(r, k)
    case List(l, r) => Within(l, k) || Within(r, k)
    case Back(e) => Within(e, k)
  }

  lemma TokenIn(s: string, i: nat, k: nat)
    requires i <= k < |s| && k < GetToken(s, i).next && NUL !in s && WordChar(s[k])
    ensures GetToken(s, i).kind == 'a' && GetToken(s, i).q <= k < GetToken(s, i).eq
  {
    SkipRun(s, i);
    SkipRun(s, GetToken(s, i).eq);
  }

  lemma NotSkipped(s: string, i: nat, k: nat)
    requires i <= k < |s| && WordChar(s[k])
    ensures Skip(s, i) <= k
  {
    SkipRun(s, i);
  }

  lemma InJoin(a: seq<Redirect>, b: seq<Redirect>, k: nat)
    ensures InFiles(a + b, k) <==> InFiles(a, k) || InFiles(b, k)
  {
    if InFiles(a, k) {
      var m :| 0 <= m < |a| && a[m].file.q <= k < a[m].file.eq;
      assert (a + b)[m] == a[m];
    }
    if InFiles(b, k) {
      var m :| 0 <= m < |b| && b[m].file.q <= k < b[m].file.eq;
      assert (a + b)[|a| + m] == b[m];
    }
  }

  lemma {:induction false} WrapIn(d: Cmd, rs: seq<Redirect>, k: nat)
    ensures Within(Wrap(d, rs), k) <==> Within(d, k) || InFiles(rs, k)
    decreases |rs|
  {
    if rs != [] {
      var front, x := rs[..|rs| - 1], rs[|rs| - 1];
      WrapIn(d, front, k);
      InJoin(front, [x], k);
      assert rs == front + [x] && [x][0] == x;
    }
  }

  lemma {:induction false} RedirsIn(s: string, i: nat, k: nat)
    requires i <= k < |s| && NUL !in s && WordChar(s[k])
    ensures var r := ParseRedirs(s, i); r.Found? && k < r.at ==> InFiles(r.redirs, k)
    decreases |s| - i
  {
    var t := GetToken(s, i);
    var f := GetToken(s, t.next);
    NotSkipped(s, i, k);
    if IsArrow(Ahead(s, i)) && f.kind == 'a' {
      if k < t.next {
        TokenIn(s, i, k);
      } else if k < f.next {
        TokenIn(s, t.next, k);
      } else {
        RedirsIn(s, f.next, k);
      }
      var rest := ParseRedirs(s, f.next);
      var x := Redirect(Span(f.q, f.eq), t.kind != '<');
      if rest.Found? {
        InJoin([x], rest.redirs, k);
        assert [x][0] == x;
      }
    }
  }

  lemma {:induction false} ArgsIn(s: string, i: nat, argv: seq<Span>, rs: seq<Redirect>, k: nat)
    requires i <= |s| && k < |s| && NUL !in s && WordChar(s[k])
    ensures var r := ParseArgs(s, i, argv, rs);
      r.Ok? && (InArgs(argv, k) || InFiles(rs, k) || i <= k < r.pos) ==> Within(r.cmd, k)
    decreases |s| - i
  {
    var t := GetToken(s, i);
    WrapIn(Exec(argv), rs, k);
    if i <= k { NotSkipped(s, i, k); }
    var more := ParseRedirs(s, t.next);
    if t.kind == 'a' && !EndsWords(Ahead(s, i)) && |argv| + 1 < MAXARGS && more.Found? {
      var w := Span(t.q, t.eq);
      ArgsIn(s, more.at, argv + [w], rs + more.redirs, k);
      InJoin(rs, more.redirs, k);
      assert (argv + [w])[|argv|] == w && (InArgs(argv, k) ==> InArgs(argv + [w], k)) by {
        assert forall m :: 0 <= m < |argv| ==> (argv + [w])[m] == argv[m];
      }
      if i <= k < t.next { TokenIn(s, i, k); }
      if t.next <= k < more.at { RedirsIn(s, t.next, k); }
    }
  }

  lemma {:induction false} ExecIn(s: string, i: nat, k: nat)
    requires i <= k < |s| && NUL !in s && WordChar(s[k])
    ensures var r := ParseExec(s, i); r.Ok? && k < r.pos ==> Within(r.cmd, k)
    decreases |s| - i, 1
  {
    if Ahead(s, i) == '(' {
      BlockIn(s, i, k);
    } else {
      RedirsIn(s, i, k);
      var rs := ParseRedirs(s, i);
      if rs.Found? { ArgsIn(s, rs.at, [], rs.redirs, k); }
    }
  }

  lemma {:induction false} BlockIn(s: string, i: nat, k: nat)
    requires i <= k < |s| && NUL !in s && WordChar(s[k]) && Ahead(s, i) == '('
    ensures var r := ParseBlock(s, i); r.Ok? && k < r.pos ==> Within(r.cmd, k)
    decreases |s| - i, 0
  {
    var t := GetToken(s, i);
    var l := ParseLine(s, t.next);
    if k < t.next { TokenIn(s, i, k); }
    LineIn(s, t.next, k);
    if l.Ok? && Ahead(s, l.pos) == ')' {
      var u := GetToken(s, l.pos);
      if l.pos <= k < u.next { TokenIn(s, l.pos, k); }
      var rs := ParseRedirs(s, u.next);
      if rs.Found? {
        WrapIn(l.cmd, rs.redirs, k);
        if u.next <= k { RedirsIn(s, u.next, k); }
      }
    }
  }

  lemma {:induction false} PipeIn(s: string, i: nat, k: nat)
    requires i <= k < |s| && NUL !in s && WordChar(s[k])
    ensures var r := ParsePipe(s, i); r.Ok? && k < r.pos ==> Within(r.cmd, k)
    decreases |s| - i, 2
  {
    ExecIn(s, i, k);
    var l := ParseExec(s, i);
    if l.Ok? && l.pos <= k {
      NotSkipped(s, l.pos, k);
      if Ahead(s, l.pos) == '|' {
        var n := GetToken(s, l.pos).next;
        if k < n { TokenIn(s, l.pos, k); } else { PipeIn(s, n, k); }
      }
    }
  }

  lemma {:induction false} BacksIn(s: string, i: nat, d: Cmd, k: nat)
    requires i <= |s| && k < |s| && NUL !in s && WordChar(s[k])
    ensures var r := ParseBacks(s, i, d); Within(d, k) || i <= k < r.pos ==> Within(r.cmd, k)
    decreases |s| - i
  {
    if i <= k { NotSkipped(s, i, k); }
    if Ahead(s, i) == '&' {
      if i <= k < GetToken(s, i).next { TokenIn(s, i, k); }
      BacksIn(s, GetToken(s, i).next, Back(d), k);
    }
  }

  lemma {:induction false} LineIn(s: string, i: nat, k: nat)
    requires k < |s| && i <= |s| && NUL !in s && WordChar(s[k])
    ensures var r := ParseLine(s, i); r.Ok? && i <= k < r.pos ==> Within(r.cmd, k)
    decreases |s| - i, 3
  {
    if i <= k { PipeIn(s, i, k); }
    var p := ParsePipe(s, i);
    if p.Ok? {
      BacksIn(s, p.pos, p.cmd, k);
      var l := ParseBacks(s, p.pos, p.cmd);
      if l.pos <= k { NotSkipped(s, l.pos, k); }
      if Ahead(s, l.pos) == ';' {
        var n := GetToken(s, l.pos).next;
        if l.pos <= k < n { TokenIn(s, l.pos, k); }
        LineIn(s, n, k);
      }
    }
  }

  /** Every word character of a line that parses is in a word of its tree. */
  lemma WordsKept(s: string, k: nat)
    requires NUL !in s && ParseCmd(s).Ok? && k < |s| && WordChar(s[k])
    ensures Within(ParseCmd(s).cmd, k)
  {
    LineIn(s, 0, k);
    if ParseLine(s, 0).pos <= k { NotSkipped(s, ParseLine(s, 0).pos, k); }
  }

  /** How often the characters i to j of the line open and do not close a parenthesis, or hold c. */
  function Net(s: string, i: nat, j: nat, c: char): int
    requires i <= j <= |s|
    decreases j - i
  {
    if i == j then 0
    else Net(s, i, j - 1, c) + if s[j - 1] == c then 1 else if c == '(' && s[j - 1] == ')' then -1 else 0
  }

  /** How often a command uses the symbol c; it keeps no parentheses. */
  function Uses(d: Cmd, c: char): nat {
    match d
    case Exec(_) => 0
    case Redir(e, to) => Uses(e, c) + if c == '<' && !to.out then 1 else 0
    case Pipe(l, r) => Uses(l, c) + Uses(r, c) + if c == '|' then 1 else 0
    case List(l, r) => Uses(l, c) + Uses(r, c) + if c == ';' then 1 else 0
    case Back(e) => Uses(e, c) + if c == '&' then 1 else 0
  }

  function Ins(rs: seq<Redirect>, c: char): nat {
    if rs == [] then 0 else Ins(rs[..|rs| - 1], c) + if c == '<' && !rs[|rs| - 1].out then 1 else 0
  }

  predicate Counted(c: char) { c == '|' || c == ';' || c == '&' || c == '<' || c == '(' }

  lemma {:induction false} NetSplit(s: string, i: nat, m: nat, j: nat, c: char)
    requires i <= m <= j <= |s|
    ensures Net(s, i, j, c) == Net(s, i, m, c) + Net(s, m, j, c)
    decreases j - m
  {
    if m < j { NetSplit(s, i, m, j - 1, c); }
  }

  lemma {:induction false} NetNone(s: string, i: nat, j: nat, c: char)
    requires i <= j <= |s| && Counted(c) && forall k :: i <= k < j ==> !Symbol(s[k]) || s[k] == '>'
    ensures Net(s, i, j, c) == 0
    decreases j - i
  {
    if i < j { NetNone(s, i, j - 1, c); }
  }

  lemma TokenNet(s: string, i: nat, c: char)
    requires i <= |s| && NUL !in s && Counted(c)
    ensures var t := GetToken(s, i);
      Net(s, i, t.next, c) == if t.kind == c then 1 else if c == '(' && t.kind == ')' then -1 else 0
  {
    var t := GetToken(s, i);
    SkipRun(s, i);
    SkipRun(s, t.eq);
    WordEndRun(s, t.q);
    NetSplit(s, i, t.q, t.next, c);
    NetSplit(s, t.q, t.eq, t.next, c);
    NetNone(s, i, t.q, c);
    NetNone(s, t.eq, t.next, c);
    if t.kind == 'a' || t.kind == '+' { NetNone(s, t.q, t.eq, c); }
  }

  lemma SkipNet(s: string, i: nat, c: char)
    requires i <= |s| && Counted(c)
    ensures Net(s, i, Skip(s, i), c) == 0
  {
    SkipRun(s, i);
    NetNone(s, i, Skip(s, i), c);
  }

  lemma {:induction false} WrapUses(d: Cmd, rs: seq<Redirect>, c: char)
    ensures Uses(Wrap(d, rs), c) == Uses(d, c) + Ins(rs, c)
    decreases |rs|
  {
    if rs != [] { WrapUses(d, rs[..|rs| - 1], c); }
  }

  lemma {:induction false} InsJoin(a: seq<Redirect>, b: seq<Redirect>, c: char)
    ensures Ins(a + b, c) == Ins(a, c) + Ins(b, c)
    decreases |b|
  {
    if b == [] {
      assert a + b == a;
    } else {
      InsJoin(a, b[..|b| - 1], c);
      assert (a + b)[..|a + b| - 1] == a + b[..|b| - 1];
    }
  }

  lemma {:induction false} RedirsNet(s: string, i: nat, c: char)
    requires i <= |s| && NUL !in s && Counted(c)
    ensures var r := ParseRedirs(s, i); r.Found? ==> Net(s, i, r.at, c) == Ins(r.redirs, c)
    decreases |s| - i
  {
    var t := GetToken(s, i);
    var f := GetToken(s, t.next);
    SkipNet(s, i, c);
    if IsArrow(Ahead(s, i)) && f.kind == 'a' {
      var rest := ParseRedirs(s, f.next);
      if rest.Found? {
        RedirsNet(s, f.next, c);
        TokenNet(s, i, c);
        TokenNet(s, t.next, c);
        NetSplit(s, i, t.next, rest.at, c);
        NetSplit(s, t.next, f.next, rest.at, c);
        var x := Redirect(Span(f.q, f.eq), t.kind != '<');
        InsJoin([x], rest.redirs, c);
        assert [x][..0] == [];
      }
    }
  }

  lemma {:induction false} ArgsNet(s: string, i: nat, argv: seq<Span>, rs: seq<Redirect>, c: char)
    requires i <= |s| && NUL !in s && Counted(c)
    ensures var r := ParseArgs(s, i, argv, rs); r.Ok? ==> Uses(r.cmd, c) == Ins(rs, c) + Net(s, i, r.pos, c)
    decreases |s| - i
  {
    var t := GetToken(s, i);
    SkipNet(s, i, c);
    WrapUses(Exec(argv), rs, c);
    var more := ParseRedirs(s, t.next);
    if t.kind == 'a' && !EndsWords(Ahead(s, i)) && |argv| + 1 < MAXARGS && more.Found? {
      var r := ParseArgs(s, more.at, argv + [Span(t.q, t.eq)], rs + more.redirs);
      ArgsNet(s, more.at, argv + [Span(t.q, t.eq)], rs + more.redirs, c);
      TokenNet(s, i, c);
      RedirsNet(s, t.next, c);
      InsJoin(rs, more.redirs, c);
      if r.Ok? {
        NetSplit(s, i, t.next, r.pos, c);
        NetSplit(s, t.next, more.at, r.pos, c);
      }
    }
  }

  lemma {:induction false} ExecNet(s: string, i: nat, c: char)
    requires i <= |s| && NUL !in s && Counted(c)
    ensures var r := ParseExec(s, i); r.Ok? ==> Uses(r.cmd, c) == Net(s, i, r.pos, c)
    decreases |s| - i, 1
  {
    if Ahead(s, i) == '(' {
      BlockNet(s, i, c);
    } else {
      RedirsNet(s, i, c);
      var rs := ParseRedirs(s, i);
      if rs.Found? {
        ArgsNet(s, rs.at, [], rs.redirs, c);
        var r := ParseArgs(s, rs.at, [], rs.redirs);
        if r.Ok? { NetSplit(s, i, rs.at, r.pos, c); }
      }
    }
  }

  lemma {:induction false} BlockNet(s: string, i: nat, c: char)
    requires i <= |s| && NUL !in s && Counted(c) && Ahead(s, i) == '('
    ensures var r := ParseBlock(s, i); r.Ok? ==> Uses(r.cmd, c) == Net(s, i, r.pos, c)
    decreases |s| - i, 0
  {
    var t := GetToken(s, i);
    var l := ParseLine(s, t.next);
    LineNet(s, t.next, c);
    TokenNet(s, i, c);
    if l.Ok? && Ahead(s, l.pos) == ')' {
      var u := GetToken(s, l.pos);
      TokenNet(s, l.pos, c);
      RedirsNet(s, u.next, c);
      var rs := ParseRedirs(s, u.next);
      if rs.Found? {
        WrapUses(l.cmd, rs.redirs, c);
        NetSplit(s, i, t.next, rs.at, c);
        NetSplit(s, t.next, l.pos, rs.at, c);
        NetSplit(s, l.pos, u.next, rs.at, c);
      }
    }
  }

  lemma {:induction false} PipeNet(s: string, i: nat, c: char)
    requires i <= |s| && NUL !in s && Counted(c)
    ensures var r := ParsePipe(s, i); r.Ok? ==> Uses(r.cmd, c) == Net(s, i, r.pos, c)
    decreases |s| - i, 2
  {
    ExecNet(s, i, c);
    var l := ParseExec(s, i);
    if l.Ok? {
      SkipNet(s, l.pos, c);
      NetSplit(s, i, l.pos, Skip(s, l.pos), c);
      if Ahead(s, l.pos) == '|' { NextNet(s, i, l.pos, ParsePipe(s, GetToken(s, l.pos).next), c, 2); }
    }
  }

  /** A command, a symbol and the rest of the line. */
  lemma {:induction false} NextNet(s: string, i: nat, m: nat, r: Result, c: char, level: nat)
    requires i <= m <= |s| && NUL !in s && Counted(c) && (Ahead(s, m) == '|' || Ahead(s, m) == ';') && 2 <= level <= 3
    requires r == if level == 2 then ParsePipe(s, GetToken(s, m).next) else ParseLine(s, GetToken(s, m).next)
    ensures r.Ok? ==> Net(s, i, r.pos, c) == Net(s, i, m, c) + (if Ahead(s, m) == c then 1 else 0) + Uses(r.cmd, c)
    decreases |s| - m, 0
  {
    var n := GetToken(s, m).next;
    TokenNet(s, m, c);
    if level == 2 { PipeNet(s, n, c); } else { LineNet(s, n, c); }
    if r.Ok? {
      NetSplit(s, i, m, r.pos, c);
      NetSplit(s, m, n, r.pos, c);
    }
  }

  lemma {:induction false} BacksNet(s: string, i: nat, d: Cmd, c: char)
    requires i <= |s| && NUL !in s && Counted(c)
    ensures var r := ParseBacks(s, i, d); Uses(r.cmd, c) == Uses(d, c) + Net(s, i, r.pos, c)
    decreases |s| - i
  {
    SkipNet(s, i, c);
    if Ahead(s, i) == '&' {
      var n := GetToken(s, i).next;
      BacksNet(s, n, Back(d), c);
      TokenNet(s, i, c);
      NetSplit(s, i, n, ParseBacks(s, n, Back(d)).pos, c);
    }
  }

  lemma {:induction false} LineNet(s: string, i: nat, c: char)
    requires i <= |s| && NUL !in s && Counted(c)
    ensures var r := ParseLine(s, i); r.Ok? ==> Uses(r.cmd, c) == Net(s, i, r.pos, c)
    decreases |s| - i, 3
  {
    PipeNet(s, i, c);
    var p := ParsePipe(s, i);
    if p.Ok? {
      BacksNet(s, p.pos, p.cmd, c);
      var l := ParseBacks(s, p.pos, p.cmd);
      NetSplit(s, i, p.pos, l.pos, c);
      EndNet(s, i, l, c);
    }
  }

  /** parseline after its loop. */
  lemma {:induction false} EndNet(s: string, i: nat, l: Result, c: char)
    requires NUL !in s && Counted(c) && l.Ok? && i <= l.pos <= |s| && Uses(l.cmd, c) == Net(s, i, l.pos, c)
    ensures var r := EndLine(s, l); r.Ok? ==> Uses(r.cmd, c) == Net(s, i, r.pos, c)
    decreases |s| - l.pos, 1
  {
    SkipNet(s, l.pos, c);
    NetSplit(s, i, l.pos, Skip(s, l.pos), c);
    if Ahead(s, l.pos) == ';' { NextNet(s, i, l.pos, ParseLine(s, GetToken(s, l.pos).next), c, 3); }
  }

  /** Every |, ; and & and every < of a line that parses is a node of its tree, and every parenthesis
      is closed. */
  lemma SymbolsKept(s: string, c: char)
    requires NUL !in s && ParseCmd(s).Ok? && Counted(c)
    ensures Uses(ParseCmd(s).cmd, c) == Net(s, 0, |s|, c)
  {
    var l := ParseLine(s, 0);
    LineNet(s, 0, c);
    SkipNet(s, l.pos, c);
    NetSplit(s, 0, l.pos, |s|, c);
  }

  // ---------- nulterminate ----------

  /** The buffer with a NUL stored at the end of each word of c. */
  function Cut(buf: string, c: Cmd): (r: string)
    ensures |r| == |buf|
    decreases c
  {
    match c
    case Exec(argv) => CutArgs(buf, argv, |argv|)
    case Redir(d, to) => CutAt(Cut(buf, d), to.file)
    case Pipe(l, r) => Cut(Cut(buf, l), r)
    case List(l, r) => Cut(Cut(buf, l), r)
    case Back(d) => Cut(buf, d)
  }

  function CutAt(buf: string, w: Span): (r: string)
    ensures |r| == |buf|
  {
    if w.eq < |buf| then buf[w.eq := NUL] else buf
  }

  function CutArgs(buf: string, argv: seq<Span>, n: nat): (r: string)
    requires n <= |argv|
    ensures |r| == |buf|
  {
    if n == 0 then buf else CutAt(CutArgs(buf, argv, n - 1), argv[n - 1])
  }

  /** The C string that starts at q. */
  function CString(buf: string, q: nat): string
    requires q <= |buf|
    decreases |buf| - q
  {
    if q == |buf| || buf[q] == NUL then [] else [buf[q]] + CString(buf, q + 1)
  }

  /** A buffer that may have NULs where the line s has no word character, and has not changed elsewhere. */
  ghost predicate CutOutside(s: string, buf: string) {
    |buf| == |s| + 1 && forall k :: 0 <= k < |s| ==> buf[k] == s[k] || (buf[k] == NUL && !WordChar(s[k]))
  }

  lemma CutAtOutside(s: string, buf: string, w: Span)
    requires CutOutside(s, buf) && IsWord(s, w)
    ensures CutOutside(s, CutAt(buf, w))
  {
  }

  lemma {:induction false} CutArgsOutside(s: string, buf: string, argv: seq<Span>, n: nat)
    requires CutOutside(s, buf) && n <= |argv| && forall k :: 0 <= k < |argv| ==> IsWord(s, argv[k])
    ensures CutOutside(s, CutArgs(buf, argv, n))
  {
    if n > 0 { CutArgsOutside(s, buf, argv, n - 1); CutAtOutside(s, CutArgs(buf, argv, n - 1), argv[n - 1]); }
  }

  /** No NUL lands inside a word. */
  lemma {:induction false} CutKeepsWords(s: string, buf: string, c: Cmd)
    requires CutOutside(s, buf) && WordsOnly(s, c)
    ensures CutOutside(s, Cut(buf, c))
    decreases c
  {
    match c
    case Exec(argv) => CutArgsOutside(s, buf, argv, |argv|);
    case Redir(d, to) => CutKeepsWords(s, buf, d); CutAtOutside(s, Cut(buf, d), to.file);
    case Pipe(l, r) => CutKeepsWords(s, buf, l); CutKeepsWords(s, Cut(buf, l), r);
    case List(l, r) => CutKeepsWords(s, buf, l); CutKeepsWords(s, Cut(buf, l), r);
    case Back(d) => CutKeepsWords(s, buf, d);
  }

  lemma {:induction false} CutArgsNul(buf: string, argv: seq<Span>, n: nat, e: nat)
    requires n <= |argv| && e < |buf|
    ensures buf[e] == NUL ==> CutArgs(buf, argv, n)[e] == NUL
    ensures (exists k :: 0 <= k < n && argv[k].eq == e) ==> CutArgs(buf, argv, n)[e] == NUL
  {
    if n > 0 { CutArgsNul(buf, argv, n - 1, e); }
  }

  /** Every word of c ends in a NUL, and a NUL once stored stays. */
  lemma {:induction false} CutEnds(buf: string, c: Cmd, e: nat)
    requires e < |buf|
    ensures buf[e] == NUL ==> Cut(buf, c)[e] == NUL
    ensures forall w :: Has(c, w) && w.eq == e ==> Cut(buf, c)[e] == NUL
    decreases c
  {
    match c
    case Exec(argv) => CutArgsNul(buf, argv, |argv|, e);
    case Redir(d, to) => CutEnds(buf, d, e);
    case Pipe(l, r) => CutEnds(buf, l, e); CutEnds(Cut(buf, l), r, e);
    case List(l, r) => CutEnds(buf, l, e); CutEnds(Cut(buf, l), r, e);
    case Back(d) => CutEnds(buf, d, e);
  }

  lemma {:induction false} CStringWord(s: string, buf: string, q: nat, eq: nat)
    requires CutOutside(s, buf) && q <= eq <= |s| && buf[eq] == NUL && forall k :: q <= k < eq ==> WordChar(s[k])
    ensures CString(buf, q) == s[q..eq]
    decreases eq - q
  {
    if q < eq {
      CStringWord(s, buf, q + 1, eq);
      assert s[q..eq] == [s[q]] + s[q + 1..eq];
    }
  }

  /** Whatever line parses, every argv and file string then reads as exactly the word scanned there. */
  lemma Terminated(s: string, w: Span)
    requires NUL !in s && ParseCmd(s).Ok? && Has(ParseCmd(s).cmd, w)
    ensures IsWord(s, w) && CString(Cut(s + [NUL], ParseCmd(s).cmd), w.q) == s[w.q..w.eq]
  {
    var c := ParseCmd(s).cmd;
    LineWordsOnly(s, 0);
    HasWord(s, c, w);
    CutKeepsWords(s, s + [NUL], c);
    CutEnds(s + [NUL], c, w.eq);
    CStringWord(s, Cut(s + [NUL], c), w.q, w.eq);
  }

  lemma {:induction false} HasWord(s: string, c: Cmd, w: Span)
    requires WordsOnly(s, c) && Has(c, w)
    ensures IsWord(s, w)
    decreases c
  {
    match c
    case Exec(argv) =>
    case Redir(d, to) => if Has(d, w) { HasWord(s, d, w); }
    case Pipe(l, r) => if Has(l, w) { HasWord(s, l, w); } else { HasWord(s, r, w); }
    case List(l, r) => if Has(l, w) { HasWord(s, l, w); } else { HasWord(s, r, w); }
    case Back(d) => HasWord(s, d, w);
  }

  // ---------- printing ----------

  /** A command tree over words. */
  datatype Tree =
    | Words(args: seq<string>)
    | Into(tree: Tree, file: string, out: bool)
    | Piped(left: Tree, right: Tree)
    | Then(left: Tree, right: Tree)
    | Amp(tree: Tree)

  predicate Word(w: string) { |w| > 0 && forall k :: 0 <= k < |w| ==> WordChar(w[k]) }

  predicate Printable(t: Tree) {
    match t
    case Words(args) => |args| < MAXARGS && forall k :: 0 <= k < |args| ==> Word(args[k])
    case Into(d, f, _) => Printable(d) && Word(f)
    case Piped(l, r) => Printable(l) && Printable(r)
    case Then(l, r) => Printable(l) && Printable(r)
    case Amp(d) => Printable(d)
  }

  /** Which parser can produce the tree unparenthesised: 0 parseline, 1 its & loop, 2 parsepipe, 3 parseexec. */
  function Level(t: Tree): nat {
    match t
    case Then(_, _) => 0
    case Amp(_) => 1
    case Piped(_, _) => 2
    case _ => 3
  }

  function Join(args: seq<string>): string {
    if args == [] then "" else if |args| == 1 then args[0] else args[0] + " " + Join(args[1..])
  }

  function Arrow(file: string, out: bool): string { (if out then ">" else "<") + file }

  /** The canonical text of t where a parser of the given level reads it. */
  function Print(level: nat, t: Tree): string
    decreases t, 1
  {
    if Level(t) >= level then Bare(t) else "(" + Bare(t) + ")"
  }

  function Bare(t: Tree): string
    decreases t, 0
  {
    match t
    case Words(args) => Join(args)
    case Into(d, f, out) => Print(3, d) + Arrow(f, out)
    case Piped(l, r) => Print(3, l) + "|" + Print(2, r)
    case Then(l, r) => Print(1, l) + ";" + Print(0, r)
    case Amp(d) => Print(1, d) + "&"
  }

  /** The characters of w, one by one. */
  function Text(s: string, w: Span): string
    requires w.q <= w.eq <= |s|
    decreases w.eq - w.q
  {
    if w.q == w.eq then "" else [s[w.q]] + Text(s, Span(w.q + 1, w.eq))
  }

  lemma {:induction false} TextIs(s: string, w: Span)
    requires w.q <= w.eq <= |s|
    ensures Text(s, w) == s[w.q..w.eq]
    decreases w.eq - w.q
  {
    if w.q < w.eq { TextIs(s, Span(w.q + 1, w.eq)); }
  }

  /** The tree a command of line s stands for. */
  function Read(s: string, c: Cmd): Tree
    requires InLine(s, c)
  {
    match c
    case Exec(argv) => Words(seq(|argv|, k requires 0 <= k < |argv| => Text(s, argv[k])))
    case Redir(d, to) => Into(Read(s, d), Text(s, to.file), to.out)
    case Pipe(l, r) => Piped(Read(s, l), Read(s, r))
    case List(l, r) => Then(Read(s, l), Read(s, r))
    case Back(d) => Amp(Read(s, d))
  }

  predicate InLine(s: string, c: Cmd) {
    match c
    case Exec(argv) => forall k :: 0 <= k < |argv| ==> argv[k].q <= argv[k].eq <= |s|
    case Redir(d, to) => InLine(s, d) && to.file.q <= to.file.eq <= |s|
    case Pipe(l, r) => InLine(s, l) && InLine(s, r)
    case List(l, r) => InLine(s, l) && InLine(s, r)
    case Back(d) => InLine(s, d)
  }

  /** Text w stands at position i of s. */
  predicate At(s: string, i: nat, w: string) { i + |w| <= |s| && forall k :: 0 <= k < |w| ==> s[i + k] == w[k] }

  lemma AtSplit(s: string, i: nat, a: string, b: string)
    requires At(s, i, a + b)
    ensures At(s, i, a) && At(s, i + |a|, b)
  {
    forall k | 0 <= k < |a| ensures s[i + k] == a[k] { assert (a + b)[k] == a[k]; }
    forall k | 0 <= k < |b| ensures s[i + |a| + k] == b[k] { assert (a + b)[|a| + k] == b[k]; }
  }

  lemma AtText(s: string, i: nat, w: string)
    requires At(s, i, w)
    ensures Text(s, Span(i, i + |w|)) == w
  {
    TextIs(s, Span(i, i + |w|));
  }

  /** Position e is the end of the line or holds what may follow a command of the given level. */
  predicate StopsAt(s: string, e: nat, level: nat) { e == |s| || (e < |s| && MayFollow(level, s[e])) }

  predicate MayFollow(level: nat, c: char) {
    c == ')' || (level > 0 && (c == '&' || c == ';')) || (level > 2 && c == '|')
  }

  lemma SkipNone(s: string, i: nat)
    requires i <= |s| && (i < |s| ==> !Space(s[i]))
    ensures Skip(s, i) == i
  {
  }

  lemma {:induction false} WordEndAt(s: string, i: nat, e: nat)
    requires i <= e <= |s| && (forall k :: i <= k < e ==> WordChar(s[k])) && (e < |s| ==> Space(s[e]) || Symbol(s[e]))
    ensures WordEnd(s, i) == e
    decreases e - i
  {
    if i < e { WordEndAt(s, i + 1, e); }
  }

  /** gettoken on a printed word. */
  lemma WordToken(s: string, i: nat, w: string)
    requires NUL !in s && Word(w) && At(s, i, w) && (i + |w| < |s| ==> Space(s[i + |w|]) || Symbol(s[i + |w|]))
    ensures GetToken(s, i) == Token('a', i, i + |w|, Skip(s, i + |w|)) && WordChar(s[i])
  {
    WordSpan(s, i, w);
    SkipNone(s, i);
    WordEndAt(s, i, i + |w|);
  }

  lemma WordSpan(s: string, i: nat, w: string)
    requires Word(w) && At(s, i, w)
    ensures forall k :: i <= k < i + |w| ==> WordChar(s[k])
    ensures (i + |w| < |s| ==> !WordChar(s[i + |w|])) ==> IsWord(s, Span(i, i + |w|))
  {
    forall k | i <= k < i + |w| ensures WordChar(s[k]) { assert s[i + (k - i)] == w[k - i]; }
  }

  // ---------- redirections and words ----------

  datatype Target = Target(file: string, out: bool)

  function Arrows(rs: seq<Target>): string { if rs == [] then "" else Arrow(rs[0].file, rs[0].out) + Arrows(rs[1..]) }

  function Base(t: Tree): Tree { if t.Into? then Base(t.tree) else t }

  function Targets(t: Tree): seq<Target> { if t.Into? then Targets(t.tree) + [Target(t.file, t.out)] else [] }

  function Rewrap(t: Tree, rs: seq<Target>): Tree
    decreases |rs|
  {
    if rs == [] then t else Into(Rewrap(t, rs[..|rs| - 1]), rs[|rs| - 1].file, rs[|rs| - 1].out)
  }

  predicate GoodTargets(rs: seq<Target>) { forall k :: 0 <= k < |rs| ==> Word(rs[k].file) }

  lemma {:induction false} ArrowsSnoc(rs: seq<Target>, x: Target)
    ensures Arrows(rs + [x]) == Arrows(rs) + Arrow(x.file, x.out)
  {
    if rs == [] {
      assert Arrows([x][1..]) == "";
    } else {
      ArrowsSnoc(rs[1..], x);
      assert (rs + [x])[1..] == rs[1..] + [x];
    }
  }

  /** The text of a redirected command: its base, then its redirections in order. */
  lemma {:induction false} PrintBase(t: Tree)
    requires Printable(t)
    ensures Print(3, t) == Print(3, Base(t)) + Arrows(Targets(t)) && Rewrap(Base(t), Targets(t)) == t
    ensures Printable(Base(t)) && !Base(t).Into? && GoodTargets(Targets(t)) && (t.Into? ==> Base(t) < t)
  {
    if t.Into? {
      PrintBase(t.tree);
      ArrowsSnoc(Targets(t.tree), Target(t.file, t.out));
      assert Targets(t)[..|Targets(t)| - 1] == Targets(t.tree);
    }
  }

  /** The redirections found read as rs. */
  ghost predicate ReadsAs(s: string, found: seq<Redirect>, rs: seq<Target>) {
    |found| == |rs| && forall k {:trigger found[k]} :: 0 <= k < |rs| ==>
      found[k].file.q <= found[k].file.eq <= |s| && Text(s, found[k].file) == rs[k].file && found[k].out == rs[k].out
  }

  lemma ArrowAt(s: string, i: nat, file: string, out: bool)
    requires At(s, i, Arrow(file, out)) && Word(file)
    ensures s[i] == (if out then '>' else '<') && At(s, i + 1, file) && WordChar(s[i + 1])
  {
    AtSplit(s, i, if out then ">" else "<", file);
    assert s[i + 0] == Arrow(file, out)[0] && s[i + 1 + 0] == file[0];
  }

  lemma ArrowToken(s: string, i: nat)
    requires NUL !in s && i + 1 < |s| && IsArrow(s[i]) && WordChar(s[i + 1])
    ensures IsArrow(Ahead(s, i)) && GetToken(s, i) == Token(s[i], i, i + 1, i + 1)
  {
    SkipNone(s, i);
    SkipNone(s, i + 1);
  }

  /** gettoken twice on a printed redirection that ends at j. */
  lemma ArrowTokens(s: string, i: nat, file: string, out: bool, j: nat)
    requires NUL !in s && Word(file) && At(s, i, Arrow(file, out)) && j == i + 1 + |file| && (j < |s| ==> Symbol(s[j]))
    ensures IsArrow(Ahead(s, i)) && GetToken(s, i) == Token(if out then '>' else '<', i, i + 1, i + 1)
    ensures GetToken(s, i + 1) == Token('a', i + 1, j, j) && Text(s, Span(i + 1, j)) == file
  {
    ArrowAt(s, i, file, out);
    ArrowToken(s, i);
    FileToken(s, i + 1, file);
  }

  lemma FileToken(s: string, i: nat, file: string)
    requires NUL !in s && Word(file) && At(s, i, file) && (i + |file| < |s| ==> Symbol(s[i + |file|]))
    ensures GetToken(s, i) == Token('a', i, i + |file|, i + |file|) && Text(s, Span(i, i + |file|)) == file
  {
    WordToken(s, i, file);
    SkipNone(s, i + |file|);
    AtText(s, i, file);
  }

  /** parseredirs on one redirection, given what it finds from its end. */
  lemma OneRedir(s: string, i: nat, out: bool, j: nat, rest: seq<Redirect>, e: nat)
    requires NUL !in s && i < j <= |s| && IsArrow(Ahead(s, i)) &&
      GetToken(s, i) == Token(if out then '>' else '<', i, i + 1, i + 1)
    requires GetToken(s, i + 1) == Token('a', i + 1, j, j) && ParseRedirs(s, j) == Found(rest, e)
    ensures ParseRedirs(s, i) == Found([Redirect(Span(i + 1, j), out)] + rest, e)
  {
  }

  lemma ReadsCons(s: string, x: Redirect, found: seq<Redirect>, rs: seq<Target>)
    requires rs != [] && ReadsAs(s, found, rs[1..])
    requires x.file.q <= x.file.eq <= |s| && Text(s, x.file) == rs[0].file && x.out == rs[0].out
    ensures ReadsAs(s, [x] + found, rs)
  {
    var all := [x] + found;
    forall k | 1 <= k < |all| ensures all[k] == found[k - 1] && rs[k] == rs[1..][k - 1] {}
  }

  /** The redirections rs stand one after the other from i to e. */
  predicate LaidOut(s: string, i: nat, rs: seq<Target>, e: nat)
    decreases |rs|
  {
    if rs == [] then i == e <= |s|
    else At(s, i, Arrow(rs[0].file, rs[0].out)) && LaidOut(s, i + 1 + |rs[0].file|, rs[1..], e)
  }

  lemma {:induction false} ArrowsLaidOut(s: string, i: nat, rs: seq<Target>)
    requires At(s, i, Arrows(rs))
    ensures LaidOut(s, i, rs, i + |Arrows(rs)|)
    decreases |rs|
  {
    if rs != [] {
      AtSplit(s, i, Arrow(rs[0].file, rs[0].out), Arrows(rs[1..]));
      ArrowsLaidOut(s, i + 1 + |rs[0].file|, rs[1..]);
    }
  }

  lemma FirstArrow(s: string, i: nat, rs: seq<Target>, e: nat)
    requires rs != [] && LaidOut(s, i, rs, e)
    ensures i < |s| && IsArrow(s[i])
  {
    assert s[i + 0] == Arrow(rs[0].file, rs[0].out)[0];
  }

  /** What follows a word before the redirections rs. */
  lemma AfterWord(s: string, i: nat, rs: seq<Target>, e: nat)
    requires LaidOut(s, i, rs, e) && StopsAt(s, e, 3)
    ensures i <= |s| && (i < |s| ==> Symbol(s[i]))
  {
    if rs != [] { FirstArrow(s, i, rs, e); }
  }

  lemma {:induction false} RedirsFrom(s: string, i: nat, rs: seq<Target>, e: nat) returns (found: seq<Redirect>)
    requires NUL !in s && GoodTargets(rs) && LaidOut(s, i, rs, e) && StopsAt(s, e, 3)
    ensures i <= |s| && ParseRedirs(s, i) == Found(found, e) && ReadsAs(s, found, rs)
    decreases |rs|
  {
    if rs == [] {
      SkipNone(s, i);
      return [];
    }
    var j, rest := i + 1 + |rs[0].file|, rs[1..];
    var more := RedirsFrom(s, j, rest, e);
    AfterWord(s, j, rest, e);
    ArrowTokens(s, i, rs[0].file, rs[0].out, j);
    OneRedir(s, i, rs[0].out, j, more, e);
    found := [Redirect(Span(i + 1, j), rs[0].out)] + more;
    ReadsCons(s, found[0], more, rs);
  }

  lemma {:induction false} WrapReads(s: string, c: Cmd, found: seq<Redirect>, rs: seq<Target>)
    requires InLine(s, c) && ReadsAs(s, found, rs)
    ensures InLine(s, Wrap(c, found)) && Read(s, Wrap(c, found)) == Rewrap(Read(s, c), rs)
    decreases |rs|
  {
    if rs != [] { WrapReads(s, c, found[..|rs| - 1], rs[..|rs| - 1]); }
  }

  /** The words argv read as texts. */
  ghost predicate ReadsWords(s: string, argv: seq<Span>, texts: seq<string>) {
    && |argv| == |texts|
    && forall k {:trigger argv[k]} :: 0 <= k < |argv| ==>
      argv[k].q <= argv[k].eq <= |s| && Text(s, argv[k]) == texts[k]
  }

  lemma ReadsSnoc(s: string, argv: seq<Span>, texts: seq<string>, w: Span, text: string)
    requires ReadsWords(s, argv, texts) && w.q <= w.eq <= |s| && Text(s, w) == text
    ensures ReadsWords(s, argv + [w], texts + [text])
  {
  }

  lemma ReadExec(s: string, argv: seq<Span>, texts: seq<string>)
    requires ReadsWords(s, argv, texts)
    ensures InLine(s, Exec(argv)) && Read(s, Exec(argv)) == Words(texts)
  {
  }

  /** Where the words end, parseexec stops with what it has. */
  lemma ArgsStop(s: string, i: nat, argv: seq<Span>, texts: seq<string>, found: seq<Redirect>, rs: seq<Target>)
    requires NUL !in s && i <= |s| && |argv| < MAXARGS && StopsAt(s, i, 3) && ReadsAs(s, found, rs) &&
      ReadsWords(s, argv, texts)
    ensures ParseArgs(s, i, argv, found) == Ok(Wrap(Exec(argv), found), i)
    ensures InLine(s, Wrap(Exec(argv), found)) && Read(s, Wrap(Exec(argv), found)) == Rewrap(Words(texts), rs)
  {
    SkipNone(s, i);
    ReadExec(s, argv, texts);
    WrapReads(s, Exec(argv), found, rs);
  }

  /** The words args stand from i to e, one space apart. */
  predicate WordsLaidOut(s: string, i: nat, args: seq<string>, e: nat)
    requires args != []
    decreases |args|
  {
    var j := i + |args[0]|;
    At(s, i, args[0]) && if |args| == 1 then e == j else j < |s| && s[j] == ' ' && WordsLaidOut(s, j + 1, args[1..], e)
  }

  lemma {:induction false} JoinLaidOut(s: string, i: nat, args: seq<string>)
    requires args != [] && At(s, i, Join(args))
    ensures WordsLaidOut(s, i, args, i + |Join(args)|)
    decreases |args|
  {
    if |args| > 1 {
      AtSplit(s, i, args[0] + " ", Join(args[1..]));
      AtSplit(s, i, args[0], " ");
      assert s[i + |args[0]| + 0] == " "[0];
      JoinLaidOut(s, i + |args[0]| + 1, args[1..]);
    }
  }

  lemma FirstLetter(s: string, i: nat, args: seq<string>, e: nat)
    requires args != [] && WordsLaidOut(s, i, args, e) && Word(args[0])
    ensures i < |s| && WordChar(s[i])
  {
    assert s[i + 0] == args[0][0];
  }

  /** One turn of parseexec's loop, given the word's token and the redirections after it. */
  lemma ArgStep(s: string, i: nat, argv: seq<Span>, w: Span, next: nat, found: seq<Redirect>, at: nat)
    requires NUL !in s && i <= |s| && |argv| + 1 < MAXARGS
    requires i < |s| && WordChar(s[i]) && GetToken(s, i) == Token('a', w.q, w.eq, next) &&
      ParseRedirs(s, next) == Found(found, at)
    ensures ParseArgs(s, i, argv, []) == ParseArgs(s, at, argv + [w], found)
  {
    SkipNone(s, i);
    assert [] + found == found;
  }

  /** A word followed by a symbol or the end. */
  lemma WordStep(s: string, i: nat, argv: seq<Span>, word: string, found: seq<Redirect>, e: nat)
    requires NUL !in s && |argv| + 1 < MAXARGS && Word(word) && At(s, i, word) &&
      (i + |word| < |s| ==> Symbol(s[i + |word|]))
    requires ParseRedirs(s, i + |word|) == Found(found, e)
    ensures ParseArgs(s, i, argv, []) == ParseArgs(s, e, argv + [Span(i, i + |word|)], found)
  {
    WordToken(s, i, word);
    SkipNone(s, i + |word|);
    ArgStep(s, i, argv, Span(i, i + |word|), i + |word|, found, e);
  }

  /** The last word, its redirections and the end. */
  lemma LastArg(s: string, i: nat, argv: seq<Span>, texts: seq<string>, word: string, m: nat, rs: seq<Target>, e: nat)
    returns (c: Cmd)
    requires NUL !in s && |argv| + 1 < MAXARGS && Word(word) && GoodTargets(rs) && m == i + |word|
    requires At(s, i, word) && LaidOut(s, m, rs, e) && StopsAt(s, e, 3) && ReadsWords(s, argv, texts)
    ensures ParseArgs(s, i, argv, []) == Ok(c, e) && InLine(s, c) && Read(s, c) == Rewrap(Words(texts + [word]), rs)
  {
    var w := Span(i, i + |word|);
    AtText(s, i, word);
    AfterWord(s, i + |word|, rs, e);
    var found := RedirsFrom(s, i + |word|, rs, e);
    WordStep(s, i, argv, word, found, e);
    ReadsSnoc(s, argv, texts, w, word);
    ArgsStop(s, e, argv + [w], texts + [word], found, rs);
    c := Wrap(Exec(argv + [w]), found);
  }

  /** A word, a space and another word. */
  lemma NextArg(s: string, i: nat, argv: seq<Span>, word: string)
    requires NUL !in s && |argv| + 1 < MAXARGS && Word(word) && At(s, i, word)
    requires i + |word| + 1 < |s| && s[i + |word|] == ' ' && WordChar(s[i + |word| + 1])
    ensures ParseArgs(s, i, argv, []) == ParseArgs(s, i + |word| + 1, argv + [Span(i, i + |word|)], [])
  {
    var j := i + |word|;
    WordToken(s, i, word);
    SkipNone(s, j + 1);
    ArgStep(s, i, argv, Span(i, j), j + 1, [], j + 1);
  }

  lemma Regroup(a: seq<string>, b: seq<string>)
    requires b != []
    ensures a + [b[0]] + b[1..] == a + b
  {
  }

  lemma FirstOfTwo(s: string, i: nat, args: seq<string>, m: nat)
    requires |args| > 1 && WordsLaidOut(s, i, args, m) && Word(args[0]) && Word(args[1])
    ensures At(s, i, args[0]) && WordsLaidOut(s, i + |args[0]| + 1, args[1..], m)
    ensures i + |args[0]| + 1 < |s| && s[i + |args[0]|] == ' ' && WordChar(s[i + |args[0]| + 1])
    ensures Text(s, Span(i, i + |args[0]|)) == args[0]
  {
    FirstLetter(s, i + |args[0]| + 1, args[1..], m);
    WordSpan(s, i, args[0]);
    AtText(s, i, args[0]);
  }

  /** parseexec's loop up to the last of the printed words. */
  lemma {:induction false} PassWords(s: string, i: nat, argv: seq<Span>, texts: seq<string>, args: seq<string>,
      last: string, m: nat) returns (j: nat, now: seq<Span>, read: seq<string>)
    requires NUL !in s && args != [] && |argv| + |args| < MAXARGS && (forall k :: 0 <= k < |args| ==> Word(args[k]))
    requires WordsLaidOut(s, i, args, m) && ReadsWords(s, argv, texts) && args[|args| - 1] == last
    ensures i <= j <= |s| && ParseArgs(s, i, argv, []) == ParseArgs(s, j, now, [])
    ensures |now| + 1 < MAXARGS && ReadsWords(s, now, read) && read + [last] == texts + args
    ensures At(s, j, last) && m == j + |last|
    decreases |args|
  {
    if |args| == 1 {
      return i, argv, texts;
    }
    var word, rest := args[0], args[1..];
    var w := Span(i, i + |word|);
    FirstOfTwo(s, i, args, m);
    ReadsSnoc(s, argv, texts, w, word);
    Regroup(texts, args);
    j, now, read := PassWords(s, w.eq + 1, argv + [w], texts + [word], rest, last, m);
    NextArg(s, i, argv, word);
  }

  /** parseexec's loop on printed words and redirections. */
  lemma ArgsFrom(s: string, i: nat, args: seq<string>, m: nat, rs: seq<Target>, e: nat) returns (c: Cmd)
    requires NUL !in s && args != [] && |args| < MAXARGS && (forall k :: 0 <= k < |args| ==> Word(args[k])) &&
      GoodTargets(rs)
    requires WordsLaidOut(s, i, args, m) && LaidOut(s, m, rs, e) && StopsAt(s, e, 3)
    ensures i <= |s| && ParseArgs(s, i, [], []) == Ok(c, e) && InLine(s, c) && Read(s, c) == Rewrap(Words(args), rs)
  {
    var last := args[|args| - 1];
    var j, now, read := PassWords(s, i, [], [], args, last, m);
    assert [] + args == args;
    c := LastArg(s, j, now, read, last, m, rs, e);
  }

  // ---------- the parser inverts the printer ----------

  /** No text begins with a space, so the cursor stays where the text starts. */
  lemma {:induction false} PrintStart(level: nat, t: Tree)
    requires Printable(t)
    ensures Print(level, t) != "" ==> !Space(Print(level, t)[0])
    ensures Level(t) < 3 ==> Bare(t) != ""
    ensures Bare(t) != "" ==> !Space(Bare(t)[0])
    decreases t
  {
    match t
    case Words(args) => if args != [] { assert Word(args[0]); }
    case Into(d, f, out) => PrintStart(3, d);
    case Piped(l, r) => PrintStart(3, l);
    case Then(l, r) => PrintStart(1, l);
    case Amp(d) => PrintStart(1, d);
  }

  /** The cursor after a one-character token, where printed text or a stop follows. */
  lemma SymbolToken(s: string, i: nat)
    requires NUL !in s && i < |s| && (s[i] == '|' || s[i] == ';' || s[i] == '&' || s[i] == '(' || s[i] == ')')
    requires i + 1 < |s| ==> !Space(s[i + 1])
    ensures Ahead(s, i) == s[i] && GetToken(s, i) == Token(s[i], i, i + 1, i + 1)
  {
    SkipNone(s, i);
    SkipNone(s, i + 1);
  }

  lemma TextStart(s: string, i: nat, level: nat, t: Tree, after: nat)
    requires Printable(t) && At(s, i, Print(level, t)) && StopsAt(s, i + |Print(level, t)|, after)
    ensures i < |s| ==> !Space(s[i])
  {
    PrintStart(level, t);
    if Print(level, t) != "" { assert s[i + 0] == Print(level, t)[0]; }
  }

  /** What parseexec does where no parenthesis stands. */
  lemma ExecWords(s: string, i: nat, t: Tree, rs: seq<Target>, e: nat) returns (c: Cmd)
    requires NUL !in s && t.Words? && Printable(t) && GoodTargets(rs)
    requires At(s, i, Join(t.args)) && LaidOut(s, i + |Join(t.args)|, rs, e) && StopsAt(s, e, 3)
    ensures i <= |s| && ParseExec(s, i) == Ok(c, e) && InLine(s, c) && Read(s, c) == Rewrap(t, rs)
  {
    if t.args == [] {
      AfterWord(s, i, rs, e);
      NotParen(s, i, rs, e);
      var found := RedirsFrom(s, i, rs, e);
      ArgsStop(s, e, [], [], found, rs);
      c := Wrap(Exec([]), found);
    } else {
      JoinLaidOut(s, i, t.args);
      FirstLetter(s, i, t.args, i + |Join(t.args)|);
      SkipNone(s, i);
      c := ArgsFrom(s, i, t.args, i + |Join(t.args)|, rs, e);
    }
  }

  lemma NotParen(s: string, i: nat, rs: seq<Target>, e: nat)
    requires LaidOut(s, i, rs, e) && StopsAt(s, e, 3)
    ensures i <= |s| && Ahead(s, i) != '('
  {
    AfterWord(s, i, rs, e);
    SkipNone(s, i);
    if rs != [] { FirstArrow(s, i, rs, e); }
  }

  lemma BlockStep(s: string, i: nat, c: Cmd, m: nat, found: seq<Redirect>, e: nat)
    requires NUL !in s && i < m < |s| &&
      Ahead(s, i) == '(' && GetToken(s, i).next == i + 1 && ParseLine(s, i + 1) == Ok(c, m)
    requires Ahead(s, m) == ')' && GetToken(s, m).next == m + 1 && ParseRedirs(s, m + 1) == Found(found, e)
    ensures ParseExec(s, i) == Ok(Wrap(c, found), e)
  {
    CloseStep(s, c, m, found, e);
    assert ParseBlock(s, i) == CloseBlock(s, Ok(c, m));
  }

  lemma CloseStep(s: string, c: Cmd, m: nat, found: seq<Redirect>, e: nat)
    requires NUL !in s && m < |s| &&
      Ahead(s, m) == ')' && GetToken(s, m).next == m + 1 && ParseRedirs(s, m + 1) == Found(found, e)
    ensures CloseBlock(s, Ok(c, m)) == Ok(Wrap(c, found), e)
  {
  }

  lemma PipeStep(s: string, i: nat, l: Cmd, m: nat, r: Cmd, e: nat)
    requires NUL !in s && i <= m < |s| && ParseExec(s, i) == Ok(l, m)
    requires Ahead(s, m) == '|' && GetToken(s, m).next == m + 1 && ParsePipe(s, m + 1) == Ok(r, e)
    ensures ParsePipe(s, i) == Ok(Pipe(l, r), e)
  {
  }

  lemma PipeEnd(s: string, i: nat, l: Cmd, e: nat)
    requires NUL !in s && i <= e <= |s| && ParseExec(s, i) == Ok(l, e) && StopsAt(s, e, 1)
    ensures ParsePipe(s, i) == Ok(l, e)
  {
    SkipNone(s, e);
  }

  lemma BackStep(s: string, i: nat, e: nat, c: Cmd)
    requires NUL !in s && i < |s| && e == i + 1 && s[i] == '&' && (e < |s| ==> !Space(s[e]))
    ensures ParseBacks(s, i, c) == ParseBacks(s, e, Back(c))
  {
    SymbolToken(s, i);
  }

  lemma BackEnd(s: string, i: nat, c: Cmd)
    requires NUL !in s && i <= |s| && (i < |s| ==> s[i] == ';' || s[i] == ')')
    ensures ParseBacks(s, i, c) == Ok(c, i)
  {
    SkipNone(s, i);
  }

  lemma ThenStep(s: string, l: Cmd, m: nat, r: Cmd, e: nat)
    requires NUL !in s && m < |s| && Ahead(s, m) == ';' && GetToken(s, m).next == m + 1 &&
      ParseLine(s, m + 1) == Ok(r, e)
    ensures EndLine(s, Ok(l, m)) == Ok(List(l, r), e)
  {
  }

  lemma NoThen(s: string, l: Cmd, e: nat)
    requires NUL !in s && e <= |s| && StopsAt(s, e, 0)
    ensures EndLine(s, Ok(l, e)) == Ok(l, e)
  {
    SkipNone(s, e);
  }

  lemma LineStep(s: string, i: nat, a: Cmd, p: nat, l: Cmd, m: nat, r: Result)
    requires NUL !in s && i <= p <= m <= |s| && ParsePipe(s, i) == Ok(a, p) && ParseBacks(s, p, a) == Ok(l, m) &&
      EndLine(s, Ok(l, m)) == r
    ensures ParseLine(s, i) == r
  {
  }

  /** Where a printed text ends and a symbol stands. */
  lemma SymbolAt(s: string, i: nat, a: string, c: char, b: string)
    requires At(s, i, a + [c] + b)
    ensures At(s, i, a) && i + |a| < |s| && s[i + |a|] == c && At(s, i + |a| + 1, b)
  {
    AtSplit(s, i, a + [c], b);
    AtSplit(s, i, a, [c]);
    assert s[i + |a| + 0] == [c][0];
  }

  /** The parsers' order of descent on one tree: a parenthesised tree comes before its line. */
  function Rank(level: nat, t: Tree): nat {
    if Level(t) < level <= 3 then 9 - level else if level <= 3 then 4 - level else 0
  }

  lemma ExecLayout(s: string, i: nat, t: Tree, e: nat)
    requires Printable(t) && At(s, i, Print(3, t)) && e == i + |Print(3, t)|
    ensures Printable(Base(t)) && !Base(t).Into? && GoodTargets(Targets(t)) && Rewrap(Base(t), Targets(t)) == t
    ensures Base(t).Words? ==> At(s, i, Join(Base(t).args)) && LaidOut(s, i + |Join(Base(t).args)|, Targets(t), e)
    ensures !Base(t).Words? ==>
      At(s, i, "(" + Bare(Base(t)) + ")") && LaidOut(s, i + |Bare(Base(t))| + 2, Targets(t), e)
    ensures t.Into? ==> Base(t) < t
    ensures !t.Into? ==> Base(t) == t
  {
    PrintBase(t);
    AtSplit(s, i, Print(3, Base(t)), Arrows(Targets(t)));
    ArrowsLaidOut(s, i + |Print(3, Base(t))|, Targets(t));
    assert Print(3, Base(t)) == if Base(t).Words? then Join(Base(t).args) else "(" + Bare(Base(t)) + ")";
  }

  /** parseexec on the text of t. */
  lemma {:induction false} ExecBack(s: string, i: nat, t: Tree, e: nat) returns (c: Cmd)
    requires NUL !in s && Printable(t) && At(s, i, Print(3, t)) && e == i + |Print(3, t)| && StopsAt(s, e, 3)
    ensures ParseExec(s, i) == Ok(c, e) && InLine(s, c) && Read(s, c) == t
    decreases t, Rank(3, t)
  {
    var b, rs := Base(t), Targets(t);
    ExecLayout(s, i, t, e);
    if b.Words? {
      c := ExecWords(s, i, b, rs, e);
    } else {
      c := BlockBack(s, i, b, rs, e);
    }
  }

  lemma BlockLayout(s: string, i: nat, t: Tree, rs: seq<Target>, e: nat, m: nat)
    requires NUL !in s && Printable(t) && At(s, i, "(" + Bare(t) + ")") && m == i + 1 + |Bare(t)|
    requires LaidOut(s, m + 1, rs, e) && StopsAt(s, e, 3)
    ensures At(s, i + 1, Print(0, t)) && m < |s| && s[m] == ')'
    ensures Ahead(s, i) == '(' && GetToken(s, i).next == i + 1 && Ahead(s, m) == ')' && GetToken(s, m).next == m + 1
  {
    assert "(" + Bare(t) + ")" == [] + ['('] + (Bare(t) + ")");
    SymbolAt(s, i, [], '(', Bare(t) + ")");
    assert Bare(t) + ")" == Bare(t) + [')'] + [];
    SymbolAt(s, i + 1, Bare(t), ')', []);
    TextStart(s, i + 1, 0, t, 3);
    SymbolToken(s, i);
    AfterWord(s, m + 1, rs, e);
    SymbolToken(s, m);
  }

  /** parseblock once its line is parsed up to the parenthesis at m. */
  lemma BlockFinish(s: string, i: nat, d: Cmd, m: nat, rs: seq<Target>, e: nat) returns (c: Cmd)
    requires NUL !in s && i < m < |s| && InLine(s, d) && ParseLine(s, i + 1) == Ok(d, m)
    requires Ahead(s, i) == '(' && GetToken(s, i).next == i + 1 && Ahead(s, m) == ')' && GetToken(s, m).next == m + 1
    requires GoodTargets(rs) && LaidOut(s, m + 1, rs, e) && StopsAt(s, e, 3)
    ensures ParseExec(s, i) == Ok(c, e) && InLine(s, c) && Read(s, c) == Rewrap(Read(s, d), rs)
  {
    var found := RedirsFrom(s, m + 1, rs, e);
    WrapReads(s, d, found, rs);
    BlockStep(s, i, d, m, found, e);
    c := Wrap(d, found);
  }

  /** parseblock on a parenthesised tree and its redirections. */
  lemma {:induction false} BlockBack(s: string, i: nat, t: Tree, rs: seq<Target>, e: nat) returns (c: Cmd)
    requires NUL !in s && Printable(t) && Level(t) < 3 && GoodTargets(rs) && At(s, i, "(" + Bare(t) + ")")
    requires LaidOut(s, i + |Bare(t)| + 2, rs, e) && StopsAt(s, e, 3)
    ensures ParseExec(s, i) == Ok(c, e) && InLine(s, c) && Read(s, c) == Rewrap(t, rs)
    decreases t, 5
  {
    var m := i + 1 + |Bare(t)|;
    BlockLayout(s, i, t, rs, e, m);
    var d := LineBack(s, i + 1, t, m);
    c := BlockFinish(s, i, d, m, rs, e);
  }

  /** parsepipe on the text of t. */
  lemma {:induction false} PipeBack(s: string, i: nat, t: Tree, e: nat) returns (c: Cmd)
    requires NUL !in s && Printable(t) && At(s, i, Print(2, t)) && e == i + |Print(2, t)| && StopsAt(s, e, 2)
    ensures ParsePipe(s, i) == Ok(c, e) && InLine(s, c) && Read(s, c) == t
    decreases t, Rank(2, t)
  {
    if t.Piped? {
      var m := i + |Print(3, t.left)|;
      PipeLayout(s, i, t, e, m);
      var l := ExecBack(s, i, t.left, m);
      var r := PipeBack(s, m + 1, t.right, e);
      PipeStep(s, i, l, m, r, e);
      c := Pipe(l, r);
    } else {
      SamePrint(t);
      c := ExecBack(s, i, t, e);
      PipeEnd(s, i, c, e);
    }
  }

  /** A parser passes on the trees that are not its own. */
  lemma SamePrint(t: Tree)
    ensures !t.Then? ==> Print(0, t) == Print(1, t)
    ensures !t.Amp? ==> Print(1, t) == Print(2, t)
    ensures !t.Piped? ==> Print(2, t) == Print(3, t)
  {
  }

  lemma AmpLayout(s: string, i: nat, t: Tree, e: nat)
    requires t.Amp? && At(s, i, Print(1, t)) && e == i + |Print(1, t)|
    ensures At(s, i, Print(1, t.tree)) && e - 1 == i + |Print(1, t.tree)| && e - 1 < |s| && s[e - 1] == '&'
  {
    assert Print(1, t) == Print(1, t.tree) + ['&'] + [];
    SymbolAt(s, i, Print(1, t.tree), '&', []);
  }

  lemma PipeLayout(s: string, i: nat, t: Tree, e: nat, m: nat)
    requires NUL !in s && Printable(t) && t.Piped? && At(s, i, Print(2, t)) && e == i + |Print(2, t)| &&
      StopsAt(s, e, 2) && m == i + |Print(3, t.left)|
    ensures At(s, i, Print(3, t.left)) && m < |s| && s[m] == '|' && At(s, m + 1, Print(2, t.right)) &&
      e == m + 1 + |Print(2, t.right)|
    ensures Ahead(s, m) == '|' && GetToken(s, m).next == m + 1
  {
    SymbolAt(s, i, Print(3, t.left), '|', Print(2, t.right));
    TextStart(s, m + 1, 2, t.right, 2);
    SymbolToken(s, m);
  }

  lemma ThenLayout(s: string, i: nat, t: Tree, e: nat, m: nat)
    requires NUL !in s && Printable(t) && t.Then? && At(s, i, Print(0, t)) && e == i + |Print(0, t)| &&
      StopsAt(s, e, 0) && m == i + |Print(1, t.left)|
    ensures At(s, i, Print(1, t.left)) && m < |s| && s[m] == ';' && At(s, m + 1, Print(0, t.right)) &&
      e == m + 1 + |Print(0, t.right)|
    ensures Ahead(s, m) == ';' && GetToken(s, m).next == m + 1
  {
    SymbolAt(s, i, Print(1, t.left), ';', Print(0, t.right));
    TextStart(s, m + 1, 0, t.right, 0);
    SymbolToken(s, m);
  }

  /** parsepipe and the & loop on the text of t: the loop goes on from its end with t's command. */
  lemma {:induction false} AmpBack(s: string, i: nat, t: Tree, e: nat) returns (a: Cmd, p: nat, c: Cmd)
    requires NUL !in s && Printable(t) && At(s, i, Print(1, t)) && e == i + |Print(1, t)| && StopsAt(s, e, 1)
    ensures ParsePipe(s, i) == Ok(a, p) && i <= p <= e && ParseBacks(s, p, a) == ParseBacks(s, e, c)
    ensures InLine(s, c) && Read(s, c) == t
    decreases t, Rank(1, t)
  {
    if t.Amp? {
      AmpLayout(s, i, t, e);
      var d;
      a, p, d := AmpBack(s, i, t.tree, e - 1);
      BackStep(s, e - 1, e, d);
      c := Back(d);
    } else {
      SamePrint(t);
      c := PipeBack(s, i, t, e);
      a, p := c, e;
    }
  }

  /** parseline on the text of t. */
  lemma {:induction false} LineBack(s: string, i: nat, t: Tree, e: nat) returns (c: Cmd)
    requires NUL !in s && Printable(t) && At(s, i, Print(0, t)) && e == i + |Print(0, t)| && StopsAt(s, e, 0)
    ensures ParseLine(s, i) == Ok(c, e) && InLine(s, c) && Read(s, c) == t
    decreases t, Rank(0, t)
  {
    if t.Then? {
      var m := i + |Print(1, t.left)|;
      ThenLayout(s, i, t, e, m);
      var a, p, l := AmpBack(s, i, t.left, m);
      BackEnd(s, m, l);
      var r := LineBack(s, m + 1, t.right, e);
      ThenStep(s, l, m, r, e);
      c := List(l, r);
      LineStep(s, i, a, p, l, m, Ok(c, e));
    } else {
      SamePrint(t);
      var a, p, l := AmpBack(s, i, t, e);
      BackEnd(s, e, l);
      NoThen(s, l, e);
      c := l;
      LineStep(s, i, a, p, l, e, Ok(c, e));
    }
  }

  lemma {:induction false} JoinNoNul(args: seq<string>)
    requires forall k :: 0 <= k < |args| ==> Word(args[k])
    ensures NUL !in Join(args)
  {
    if args != [] { assert Word(args[0]); JoinNoNul(args[1..]); }
  }

  lemma {:induction false} PrintNoNul(t: Tree)
    requires Printable(t)
    ensures NUL !in Bare(t) && forall level: nat :: NUL !in Print(level, t)
  {
    match t
    case Words(args) => JoinNoNul(args);
    case Into(d, f, out) => PrintNoNul(d);
    case Piped(l, r) => PrintNoNul(l); PrintNoNul(r);
    case Then(l, r) => PrintNoNul(l); PrintNoNul(r);
    case Amp(d) => PrintNoNul(d);
  }

  /** parsecmd inverts the canonical printer on every command tree of fewer than MAXARGS words a command. */
  lemma ParseInverts(t: Tree)
    requires Printable(t)
    ensures NUL !in Print(0, t) && ParseCmd(Print(0, t)).Ok?
    ensures InLine(Print(0, t), ParseCmd(Print(0, t)).cmd) && Read(Print(0, t), ParseCmd(Print(0, t)).cmd) == t
  {
    var s := Print(0, t);
    PrintNoNul(t);
    var c := LineBack(s, 0, t, |s|);
    SkipNone(s, |s|);
  }

  // ---------- the code ----------

  lemma SkipTwice(s: string, i: nat)
    requires i <= |s| && NUL !in s
    ensures Skip(s, Skip(s, i)) == Skip(s, i) && Ahead(s, Skip(s, i)) == Ahead(s, i) &&
      GetToken(s, Skip(s, i)) == GetToken(s, i)
  {
    SkipNone(s, Skip(s, i));
  }

  /** The line s and the cursor that peek and gettoken move. */
  class Parser {
    const s: string
    var pos: nat

    ghost predicate Valid()
      reads this
    {
      pos <= |s| && NUL !in s
    }

    constructor (line: string)
      requires NUL !in line
      ensures Valid() && s == line && pos == 0
    {
      s, pos := line, 0;
    }

    method SkipSpaces()
      requires Valid()
      modifies this
      ensures pos == Skip(s, old(pos)) && Valid()
    {
      while pos < |s| && Space(s[pos])
        invariant old(pos) <= pos <= |s| && Skip(s, old(pos)) == Skip(s, pos)
      {
        pos := pos + 1;
      }
    }

    method SkipWord()
      requires Valid()
      modifies this
      ensures pos == WordEnd(s, old(pos)) && Valid()
    {
      while pos < |s| && !Space(s[pos]) && !Symbol(s[pos])
        invariant old(pos) <= pos <= |s| && WordEnd(s, old(pos)) == WordEnd(s, pos)
      {
        pos := pos + 1;
      }
    }

    method Peek() returns (c: char)
      requires Valid()
      modifies this
      ensures Valid() && pos == Skip(s, old(pos)) && c == Ahead(s, old(pos)) == Ahead(s, pos) &&
        GetToken(s, pos) == GetToken(s, old(pos))
    {
      SkipTwice(s, pos);
      SkipSpaces();
      c := if pos < |s| then s[pos] else NUL;
    }

    method Gettoken() returns (t: Token)
      requires Valid()
      modifies this
      ensures Valid() && t == GetToken(s, old(pos)) && pos == t.next
    {
      SkipSpaces();
      var q := pos;
      var kind := if pos < |s| then s[pos] else NUL;
      if kind == NUL {
      } else if kind == '>' {
        pos := pos + 1;
        if pos < |s| && s[pos] == '>' {
          kind := '+';
          pos := pos + 1;
        }
      } else if Symbol(kind) {
        pos := pos + 1;
      } else {
        kind := 'a';
        SkipWord();
      }
      var eq := pos;
      SkipSpaces();
      t := Token(kind, q, eq, pos);
    }

    /** The redirections parseredirs wraps around its command, in order. */
    method Redirections() returns (ok: bool, rs: seq<Redirect>)
      requires Valid()
      modifies this
      ensures Valid() && pos >= old(pos)
      ensures ParseRedirs(s, old(pos)) == if ok then Found(rs, pos) else NoFile
    {
      rs := [];
      var c := Peek();
      ghost var i := old(pos);
      RedirsSkip(s, i);
      while c == '<' || c == '>'
        invariant Valid() && pos >= old(pos) && c == Ahead(s, pos) && pos == Skip(s, pos)
        invariant ParseRedirs(s, old(pos)) == Prepend(rs, ParseRedirs(s, pos))
        decreases |s| - pos
      {
        ghost var at := pos;
        var t := Gettoken();
        var f := Gettoken();
        if f.kind != 'a' { return false, rs; }
        var x := Redirect(Span(f.q, f.eq), t.kind != '<');
        RedirOnce(s, at, x, pos);
        PrependTwice(rs, x, ParseRedirs(s, pos));
        rs := rs + [x];
        RedirsSkip(s, pos);
        c := Peek();
      }
      ok := true;
    }
  
    /** parseexec's loop. */
    method Arguments(rs0: seq<Redirect>) returns (ok: bool, cmd: Cmd)
      requires Valid()
      modifies this
      ensures Valid() && pos >= old(pos)
      ensures ParseArgs(s, old(pos), [], rs0) == if ok then Ok(cmd, pos) else Err
    {
      var argv: seq<Span>, rs := [], rs0;
      ghost var i, want := pos, ParseArgs(s, pos, [], rs0);
      var c := Peek();
      ArgsSkip(s, i, argv, rs);
      cmd := Exec([]);
      while !EndsWords(c)
        invariant Valid() && pos >= old(pos) && c == Ahead(s, pos) && pos == Skip(s, pos)
        invariant ParseArgs(s, pos, argv, rs) == want
        decreases |s| - pos
      {
        ghost var at := pos;
        var t := Gettoken();
        if t.kind == NUL { break; }
        if t.kind != 'a' { return false, cmd; }
        var w := Span(t.q, t.eq);
        if |argv| + 1 >= MAXARGS { return false, cmd; }
        ghost var next := pos;
        var more, found := Redirections();
        if !more { return false, cmd; }
        ArgOnce(s, at, argv, rs, w, next, found, pos);
        argv, rs := argv + [w], rs + found;
        ArgsSkip(s, pos, argv, rs);
        c := Peek();
      }
      return true, Wrap(Exec(argv), rs);
    }

    method Command() returns (ok: bool, cmd: Cmd)
      requires Valid()
      modifies this
      ensures Valid() && pos >= old(pos)
      ensures ParseExec(s, old(pos)) == if ok then Ok(cmd, pos) else Err
      decreases |s| - pos, 1
    {
      ghost var i := pos;
      var c := Peek();
      ExecSkip(s, i);
      if c == '(' {
        ok, cmd := Block();
        return;
      }
      var found, rs := Redirections();
      if !found { return false, Exec([]); }
      ok, cmd := Arguments(rs);
    }

    method Block() returns (ok: bool, cmd: Cmd)
      requires Valid() && Ahead(s, pos) == '('
      modifies this
      ensures Valid() && pos >= old(pos)
      ensures ParseBlock(s, old(pos)) == if ok then Ok(cmd, pos) else Err
      decreases |s| - pos, 0
    {
      ghost var i := pos;
      var t := Gettoken();
      ok, cmd := Line();
      if !ok { return; }
      ghost var inner := Ok(cmd, pos);
      var c := Peek();
      if c != ')' { return false, cmd; }
      t := Gettoken();
      var found, rs := Redirections();
      CloseOnce(s, inner, found, rs, pos);
      if !found { return false, cmd; }
      cmd := Wrap(cmd, rs);
    }

    method Pipeline() returns (ok: bool, cmd: Cmd)
      requires Valid()
      modifies this
      ensures Valid() && pos >= old(pos)
      ensures ParsePipe(s, old(pos)) == if ok then Ok(cmd, pos) else Err
      decreases |s| - pos, 2
    {
      ok, cmd := Command();
      if !ok { return; }
      var c := Peek();
      if c == '|' {
        var t := Gettoken();
        var right;
        ok, right := Pipeline();
        cmd := Pipe(cmd, right);
      }
    }

    method Line() returns (ok: bool, cmd: Cmd)
      requires Valid()
      modifies this
      ensures Valid() && pos >= old(pos)
      ensures ParseLine(s, old(pos)) == if ok then Ok(cmd, pos) else Err
      decreases |s| - pos, 3
    {
      ok, cmd := Pipeline();
      if !ok { return; }
      ghost var backs := ParseBacks(s, pos, cmd);
      BacksSkip(s, pos, cmd);
      var c := Peek();
      while c == '&'
        invariant Valid() && pos >= old(pos) && c == Ahead(s, pos) && pos == Skip(s, pos) &&
          ParseBacks(s, pos, cmd) == backs
        decreases |s| - pos
      {
        var t := Gettoken();
        cmd := Back(cmd);
        BacksSkip(s, pos, cmd);
        c := Peek();
      }
      c := Peek();
      if c == ';' {
        var t := Gettoken();
        var right;
        ok, right := Line();
        cmd := List(cmd, right);
      }
    }

    /** parsecmd up to its nulterminate. */
    method Parse() returns (ok: bool, cmd: Cmd)
      requires Valid() && pos == 0
      modifies this
      ensures ParseCmd(s) == if ok then Ok(cmd, |s|) else Err
    {
      ok, cmd := Line();
      if !ok { return; }
      var c := Peek();
      if pos != |s| { return false, cmd; }
    }
  }

  function Prepend(rs: seq<Redirect>, r: Redirs): Redirs { if r.NoFile? then NoFile else Found(rs + r.redirs, r.at) }

  lemma RedirsSkip(s: string, i: nat)
    requires i <= |s| && NUL !in s
    ensures ParseRedirs(s, Skip(s, i)) == ParseRedirs(s, i)
  {
    SkipTwice(s, i);
  }

  /** One redirection, then the rest. */
  lemma RedirOnce(s: string, i: nat, x: Redirect, next: nat)
    requires NUL !in s && i <= |s| && IsArrow(Ahead(s, i))
    requires GetToken(s, GetToken(s, i).next).kind == 'a' && next == GetToken(s, GetToken(s, i).next).next
    requires x.file.q == GetToken(s, GetToken(s, i).next).q && x.file.eq == GetToken(s, GetToken(s, i).next).eq &&
      x.out == (GetToken(s, i).kind != '<')
    ensures ParseRedirs(s, i) == Prepend([x], ParseRedirs(s, next))
  {
  }

  lemma PrependTwice(rs: seq<Redirect>, x: Redirect, r: Redirs)
    ensures Prepend(rs, Prepend([x], r)) == Prepend(rs + [x], r)
  {
    if r.Found? { assert rs + ([x] + r.redirs) == rs + [x] + r.redirs; }
  }

  lemma ArgsSkip(s: string, i: nat, argv: seq<Span>, rs: seq<Redirect>)
    requires i <= |s| && NUL !in s
    ensures ParseArgs(s, Skip(s, i), argv, rs) == ParseArgs(s, i, argv, rs)
  {
    SkipTwice(s, i);
  }

  lemma ExecSkip(s: string, i: nat)
    requires i <= |s| && NUL !in s
    ensures ParseExec(s, Skip(s, i)) == ParseExec(s, i)
  {
    SkipTwice(s, i);
    RedirsSkip(s, i);
  }

  lemma BacksSkip(s: string, i: nat, c: Cmd)
    requires i <= |s| && NUL !in s
    ensures ParseBacks(s, Skip(s, i), c) == ParseBacks(s, i, c)
  {
    SkipTwice(s, i);
  }

  lemma ArgOnce(s: string, i: nat, argv: seq<Span>, rs: seq<Redirect>, w: Span, next: nat, found: seq<Redirect>,
      at: nat)
    requires NUL !in s && i <= |s| && !EndsWords(Ahead(s, i)) && GetToken(s, i) == Token('a', w.q, w.eq, next) &&
      |argv| + 1 < MAXARGS
    requires ParseRedirs(s, next) == Found(found, at)
    ensures ParseArgs(s, i, argv, rs) == ParseArgs(s, at, argv + [w], rs + found)
  {
  }

  lemma CloseOnce(s: string, c: Result, ok: bool, found: seq<Redirect>, at: nat)
    requires NUL !in s && c.Ok? && c.pos <= |s| && Ahead(s, c.pos) == ')'
    requires ParseRedirs(s, GetToken(s, c.pos).next) == if ok then Found(found, at) else NoFile
    ensures CloseBlock(s, c) == if ok then Ok(Wrap(c.cmd, found), at) else Err
  {
  }

  /** nulterminate, in place. */
  method Nulterminate(buf: array<char>, c: Cmd, ghost s: string)
    requires WordsOnly(s, c) && buf.Length == |s| + 1
    modifies buf
    ensures buf[..] == Cut(old(buf[..]), c)
    decreases c
  {
    match c
    case Exec(argv) =>
      var i := 0;
      while i < |argv|
        invariant 0 <= i <= |argv| && buf[..] == CutArgs(old(buf[..]), argv, i)
      {
        buf[argv[i].eq] := NUL;
        i := i + 1;
      }
    case Redir(d, to) =>
      Nulterminate(buf, d, s);
      buf[to.file.eq] := NUL;
    case Pipe(l, r) =>
      Nulterminate(buf, l, s);
      Nulterminate(buf, r, s);
    case List(l, r) =>
      Nulterminate(buf, l, s);
      Nulterminate(buf, r, s);
    case Back(d) => Nulterminate(buf, d, s);
  }

  /** parsecmd: what the shell runs, with the line cut into C strings. */
  method ParseAndCut(line: string) returns (ok: bool, cmd: Cmd, buf: array<char>)
    requires NUL !in line
    ensures ParseCmd(line) == if ok then Ok(cmd, |line|) else Err
    ensures ok ==> forall w :: Has(cmd, w) ==>
      IsWord(line, w) && buf.Length == |line| + 1 && CString(buf[..], w.q) == line[w.q..w.eq]
  {
    var p := new Parser(line);
    ok, cmd := p.Parse();
    buf := new char[|line| + 1](i requires 0 <= i <= |line| => if i < |line| then line[i] else NUL);
    if ok {
      assert buf[..] == line + [NUL];
      LineWordsOnly(line, 0);
      Nulterminate(buf, cmd, line);
      forall w | Has(cmd, w)
        ensures IsWord(line, w) && CString(buf[..], w.q) == line[w.q..w.eq]
      {
        Terminated(line, w);
      }
    }
  }
}
