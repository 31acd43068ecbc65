/** The parser of user/sh.c over the characters of a line, and nulterminate. */
module Shell {
  import opened ShellGrammar
  import opened ShellLexer
  import ShellSyntax

  const NUL: char := '\0'

  // ---------------------------------------------------------------- trees over a line

  function SpanText(s: string, w: Span): string { if 0 <= w.q <= w.eq <= |s| then s[w.q..w.eq] else "" }

  /** The tree with the words in place of their positions. */
  function TextOf(s: string, c: Cmd<Span>): Cmd<string> {
    match c
    case Exec(argv) => Exec(seq(|argv|, i requires 0 <= i < |argv| => SpanText(s, argv[i])))
    case Redir(cmd, r) => Redir(TextOf(s, cmd), Redirection(r.op, SpanText(s, r.file)))
    case Pipe(l, r) => Pipe(TextOf(s, l), TextOf(s, r))
    case List(l, r) => List(TextOf(s, l), TextOf(s, r))
    case Back(cmd) => Back(TextOf(s, cmd))
  }

  ghost predicate Reads(s: string, ts: seq<Tok<Span>>, texts: seq<Tok<string>>) {
    |ts| == |texts| && forall i | 0 <= i < |ts| :: TextOfTok(s, ts[i]) == texts[i]
  }

  lemma ReadsParts(s: string, ts: seq<Tok<Span>>, a: seq<Tok<string>>, b: seq<Tok<string>>)
    requires Reads(s, ts, a + b)
    ensures Reads(s, ts[..|a|], a) && Reads(s, ts[|a|..], b)
  {
    forall i | 0 <= i < |a|
      ensures TextOfTok(s, ts[..|a|][i]) == a[i]
    {
      assert (a + b)[i] == a[i];
    }
    forall i | 0 <= i < |b|
      ensures TextOfTok(s, ts[|a|..][i]) == b[i]
    {
      assert (a + b)[|a| + i] == b[i];
    }
  }

  lemma ReadsSym(s: string, ts: seq<Tok<Span>>, c: char)
    requires Reads(s, ts, [Sym(c)])
    ensures ts == [Sym(c)]
  {
    assert TextOfTok(s, ts[0]) == Sym(c);
  }

  /** Tokens that read like a rendering are the rendering of a tree that reads the same. */
  lemma {:induction false} Lift(s: string, t: Cmd<string>, ts: seq<Tok<Span>>) returns (c: Cmd<Span>)
    requires Reads(s, ts, Render(t))
    ensures Render(c) == ts && TextOf(s, c) == t && (WellFormed(t) ==> WellFormed(c))
    decreases t, 1
  {
    match t
    case Exec(argv) => c := LiftExec(s, argv, ts);
    case Redir(cmd, r) =>
      var b := Block(cmd);
      ReadsParts(s, ts, b, [Sym(r.op), Word(r.file)]);
      var c1 := LiftBlock(s, cmd, ts[..|b|]);
      var tail := ts[|b|..];
      assert TextOfTok(s, tail[0]) == Sym(r.op) && TextOfTok(s, tail[1]) == Word(r.file);
      c := Redir(c1, Redirection(r.op, tail[1].w));
      assert tail == [Sym(r.op), Word(tail[1].w)];
      assert ts == ts[..|b|] + tail;
    case Pipe(l, r) =>
      var c1, c2 := LiftPair(s, t, l, r, '|', ts);
      c := Pipe(c1, c2);
    case List(l, r) =>
      var c1, c2 := LiftPair(s, t, l, r, ';', ts);
      c := List(c1, c2);
    case Back(cmd) =>
      var b := Block(cmd);
      ReadsParts(s, ts, b, [Sym('&')]);
      var c1 := LiftBlock(s, cmd, ts[..|b|]);
      ReadsSym(s, ts[|b|..], '&');
      c := Back(c1);
      assert ts == ts[..|b|] + ts[|b|..];
  }

  lemma LiftExec(s: string, argv: seq<string>, ts: seq<Tok<Span>>) returns (c: Cmd<Span>)
    requires Reads(s, ts, Words(argv))
    ensures Render(c) == ts && TextOf(s, c) == Exec(argv) && (|argv| < MAXARGS ==> WellFormed(c))
  {
    forall i | 0 <= i < |ts|
      ensures ts[i].Word? && SpanText(s, ts[i].w) == argv[i]
    {
      assert TextOfTok(s, ts[i]) == Word(argv[i]);
    }
    var spans := seq(|ts|, i requires 0 <= i < |ts| => ts[i].w);
    c := Exec(spans);
    assert Words(spans) == ts;
    assert TextOf(s, c).argv == argv;
  }

  lemma LiftPair(s: string, t: Cmd<string>, l: Cmd<string>, r: Cmd<string>, op: char, ts: seq<Tok<Span>>)
    returns (c1: Cmd<Span>, c2: Cmd<Span>)
    requires Reads(s, ts, Block(l) + [Sym(op)] + Block(r)) && (t == Pipe(l, r) || t == List(l, r))
    ensures Block(c1) + [Sym(op)] + Block(c2) == ts && TextOf(s, c1) == l && TextOf(s, c2) == r
    ensures (WellFormed(l) ==> WellFormed(c1)) && (WellFormed(r) ==> WellFormed(c2))
    decreases t, 0
  {
    var a, b := Block(l) + [Sym(op)], Block(l);
    ReadsParts(s, ts, a, Block(r));
    var front := ts[..|a|];
    ReadsParts(s, front, b, [Sym(op)]);
    c1 := LiftBlock(s, l, front[..|b|]);
    ReadsSym(s, front[|b|..], op);
    c2 := LiftBlock(s, r, ts[|a|..]);
    assert front == front[..|b|] + front[|b|..];
    assert ts == front + ts[|a|..];
  }

  lemma LiftBlock(s: string, t: Cmd<string>, ts: seq<Tok<Span>>) returns (c: Cmd<Span>)
    requires Reads(s, ts, Block(t))
    ensures Block(c) == ts && TextOf(s, c) == t && (WellFormed(t) ==> WellFormed(c))
    decreases t, 2
  {
    var a := [Sym('(')] + Render(t);
    ReadsParts(s, ts, a, [Sym(')')]);
    var front := ts[..|a|];
    ReadsParts(s, front, [Sym('(')], Render(t));
    ReadsSym(s, front[..1], '(');
    ReadsSym(s, ts[|a|..], ')');
    c := Lift(s, t, front[1..]);
    assert front == front[..1] + front[1..];
    assert ts == front + ts[|a|..];
  }

  /** Parsing a tree's parenthesised rendering gives the tree back, wherever the blanks are. */
  lemma SpelledRoundTrip(t: Cmd<string>, gaps: seq<string>, s: string)
    requires WellFormed(t) && Spaced(Render(t), gaps) && s == Spell(Render(t), gaps)
    ensures ParseAll(Toks(s, 0)).Ok? && TextOf(s, ParseAll(Toks(s, 0)).v) == t
  {
    assert s[0..] == s;
    LexSpelled(s, 0, Render(t), gaps);
    var c := Lift(s, t, Toks(s, 0));
    ShellSyntax.RoundTrip(c);
  }

  // ---------------------------------------------------------------- the code

  datatype Outcome = Parsed(cmd: Cmd<Span>) | Failed(e: Error)

  /** A word in the line: a maximal run of word characters. */
  predicate SpanOk(s: string, w: Span) {
    0 <= w.q < w.eq <= |s| && w.eq == WordEnd(s, w.q) && forall i | w.q <= i < w.eq :: WordChar(s[i])
  }

  predicate SpansOk(s: string, c: Cmd<Span>) {
    match c
    case Exec(argv) => forall i | 0 <= i < |argv| :: SpanOk(s, argv[i])
    case Redir(cmd, r) => SpansOk(s, cmd) && SpanOk(s, r.file)
    case Pipe(l, r) => SpansOk(s, l) && SpansOk(s, r)
    case List(l, r) => SpansOk(s, l) && SpansOk(s, r)
    case Back(cmd) => SpansOk(s, cmd)
  }

  /** The code's outcome is the grammar's. */
  ghost predicate Agrees(s: string, spec: Result<Cmd<Span>, Span>, r: Outcome, p: int) {
    && 0 <= p <= |s|
    && (if spec.Fail? then r == Failed(spec.e) else r == Parsed(spec.v) && Toks(s, p) == spec.rest && SpansOk(s, r.cmd))
  }

  predicate IsLine(s: string) { forall i | 0 <= i < |s| :: s[i] != NUL }

  function CharAt(s: string, p: int): char { if 0 <= p < |s| then s[p] else NUL }

  method SkipBlanks(s: string, ps: int) returns (p: int)
    requires 0 <= ps <= |s|
    ensures p == Skip(s, ps)
  {
    p := ps;
    while p < |s| && Blank(s[p])
      invariant ps <= p <= |s| && Skip(s, p) == Skip(s, ps)
    {
      p := p + 1;
    }
  }

  lemma {:induction false} WordEndSpan(s: string, p: int)
    requires 0 <= p <= |s| && IsLine(s)
    ensures forall i | p <= i < WordEnd(s, p) :: WordChar(s[i])
    decreases |s| - p
  {
    if p < |s| && !Blank(s[p]) && !Symbol(s[p]) {
      WordEndSpan(s, p + 1);
    }
  }

  lemma {:induction false} SkipTwice(s: string, p: int)
    requires 0 <= p <= |s|
    ensures Skip(s, Skip(s, p)) == Skip(s, p) && Toks(s, Skip(s, p)) == Toks(s, p)
    decreases |s| - p
  {
    if p < |s| && Blank(s[p]) {
      SkipTwice(s, p + 1);
    }
  }

  method GetToken(s: string, ps: int) returns (ret: char, w: Span, p: int)
    requires 0 <= ps <= |s| && IsLine(s)
    ensures ps <= p <= |s|
    ensures Toks(s, ps) == [] ==> ret == NUL && Toks(s, p) == []
    ensures Toks(s, ps) != [] ==> ret != NUL && ps < p && Toks(s, p) == Toks(s, ps)[1..]
    ensures Toks(s, ps) != [] ==> Toks(s, ps)[0] == if ret == 'a' then Word(w) else Sym(ret)
    ensures ret == 'a' ==> SpanOk(s, w)
  {
    p := SkipBlanks(s, ps);
    ghost var q0 := p;
    var q := p;
    ret := CharAt(s, p);
    if ret == NUL {
    } else if ret == '|' || ret == '(' || ret == ')' || ret == ';' || ret == '&' || ret == '<' {
      p := p + 1;
    } else if ret == '>' {
      p := p + 1;
      if CharAt(s, p) == '>' {
        ret := '+';
        p := p + 1;
      }
    } else {
      ret := 'a';
      while p < |s| && !Blank(s[p]) && !Symbol(s[p])
        invariant q <= p <= |s| && WordEnd(s, p) == WordEnd(s, q)
      {
        p := p + 1;
      }
      WordEndSpan(s, q);
    }
    w := Span(q, p);
    ghost var e := p;
    p := SkipBlanks(s, p);
    SkipTwice(s, e);
    assert q0 < |s| ==> e == TokenEnd(s, q0);
  }

  /** peek, for a set of symbols; a '>' ahead may be the start of ">>". */
  method Peek(s: string, ps: int, toks: set<char>) returns (found: bool, p: int)
    requires 0 <= ps <= |s| && IsLine(s) && forall c | c in toks :: Symbol(c)
    ensures ps <= p <= |s| && Toks(s, p) == Toks(s, ps) && (p == |s| <==> Toks(s, ps) == [])
    ensures found == Starts(Toks(s, ps), if '>' in toks then toks + {'+'} else toks)
  {
    p := SkipBlanks(s, ps);
    SkipTwice(s, ps);
    found := CharAt(s, p) != NUL && CharAt(s, p) in toks;
    assert p < |s| ==> Toks(s, ps)[0] == TokenAt(s, p);
  }

  predicate FilesOk(s: string, rs: Redirs) { forall i | 0 <= i < |rs| :: SpanOk(s, rs[i].file) }

  lemma {:induction false} WrapSpans(s: string, c: Cmd<Span>, rs: Redirs)
    requires SpansOk(s, c) && FilesOk(s, rs)
    ensures SpansOk(s, Wrap(c, rs))
    decreases |rs|
  {
    if |rs| > 0 {
      WrapSpans(s, Redir(c, rs[0]), rs[1..]);
    }
  }

  type Redirs = seq<Redirection<Span>>

  function Prepend(rs: Redirs, r: Result<Redirs, Span>): Result<Redirs, Span> {
    if r.Fail? then r else Ok(rs + r.v, r.rest)
  }

  datatype RedirOutcome = Found(rs: Redirs) | NoFile

  /** parseredirs: the redirections, in the order in which they will wrap the command. */
  method ReadRedirs(s: string, ps: int) returns (r: RedirOutcome, p: int)
    requires 0 <= ps <= |s| && IsLine(s)
    ensures ps <= p <= |s|
    ensures r.NoFile? ==> ParseRedirs(Toks(s, ps)) == Fail(MissingFile)
    ensures r.Found? ==> ParseRedirs(Toks(s, ps)) == Ok(r.rs, Toks(s, p)) && FilesOk(s, r.rs)
  {
    var rs := [];
    var more;
    more, p := Peek(s, ps, {'<', '>'});
    assert {'<', '>'} + {'+'} == {'<', '>', '+'};
    PrependNone(ParseRedirs(Toks(s, p)));
    while more
      invariant ps <= p <= |s| && FilesOk(s, rs) && more == Starts(Toks(s, p), {'<', '>', '+'})
      invariant ParseRedirs(Toks(s, ps)) == Prepend(rs, ParseRedirs(Toks(s, p)))
      decreases |s| - p
    {
      ghost var ts := Toks(s, p);
      var tok, file, w0, kind;
      tok, w0, p := GetToken(s, p);
      kind, file, p := GetToken(s, p);
      if kind != 'a' {
        NoFileOne(ts);
        return NoFile, p;
      }
      RedirOne(ts, tok, file, rs, Toks(s, p));
      FilesMore(s, rs, Redirection(tok, file));
      rs := rs + [Redirection(tok, file)];
      more, p := Peek(s, p, {'<', '>'});
    }
    r := Found(rs);
    assert rs + [] == rs;
  }

  lemma PrependNone(r: Result<Redirs, Span>)
    ensures Prepend([], r) == r
  {
    if r.Ok? {
      assert [] + r.v == r.v;
    }
  }

  lemma NoFileOne(ts: seq<Tok<Span>>)
    requires Starts(ts, {'<', '>', '+'}) && (|ts| == 1 || ts[1].Sym?)
    ensures ParseRedirs(ts) == Fail(MissingFile)
  {
  }

  lemma FilesMore(s: string, rs: Redirs, r: Redirection<Span>)
    requires FilesOk(s, rs) && SpanOk(s, r.file)
    ensures FilesOk(s, rs + [r])
  {
  }

  /** One redirection is read. */
  lemma RedirOne(ts: seq<Tok<Span>>, op: char, file: Span, rs: Redirs, rest: seq<Tok<Span>>)
    requires |ts| > 1 && ts[0] == Sym(op) && ts[1] == Word(file) && ts[1..][1..] == rest
    requires Starts(ts, {'<', '>', '+'})
    ensures Prepend(rs, ParseRedirs(ts)) == Prepend(rs + [Redirection(op, file)], ParseRedirs(rest))
  {
    var x, r := Redirection(op, file), ParseRedirs(rest);
    assert ts[2..] == rest;
    if r.Ok? {
      assert rs + ([x] + r.v) == rs + [x] + r.v;
    }
  }

  method ReadExec(s: string, ps: int) returns (r: Outcome, p: int)
    requires 0 <= ps <= |s| && IsLine(s)
    ensures ps <= p && Agrees(s, ParseExec(Toks(s, ps)), r, p)
    decreases |s| - ps, 1
  {
    var found;
    found, p := Peek(s, ps, {'('});
    if found {
      r, p := ReadBlock(s, p);
      return;
    }
    var redirs;
    redirs, p := ReadRedirs(s, p);
    if redirs.NoFile? {
      return Failed(MissingFile), p;
    }
    r, p := ReadArgs(s, p, redirs.rs);
  }

  /** The loop of parseexec. */
  method ReadArgs(s: string, ps: int, redirs: Redirs) returns (r: Outcome, p: int)
    requires 0 <= ps <= |s| && IsLine(s) && FilesOk(s, redirs)
    ensures ps <= p && Agrees(s, ParseArgs(Toks(s, ps), [], redirs), r, p)
  {
    var argv, rs := [], redirs;
    var stop;
    stop, p := Peek(s, ps, {'|', ')', '&', ';'});
    while !stop
      invariant ps <= p <= |s| && FilesOk(s, rs) && |argv| < MAXARGS && SpansOk(s, Exec(argv))
      invariant stop == Starts(Toks(s, p), {'|', ')', '&', ';'})
      invariant ParseArgs(Toks(s, ps), [], redirs) == ParseArgs(Toks(s, p), argv, rs)
      decreases |s| - p
    {
      var tok, w, more;
      ghost var ts := Toks(s, p);
      tok, w, p := GetToken(s, p);
      if tok == NUL {
        break;
      }
      if tok != 'a' {
        return Failed(Syntax), p;
      }
      if |argv| + 1 >= MAXARGS {
        return Failed(TooManyArgs), p;
      }
      more, p := ReadRedirs(s, p);
      if more.NoFile? {
        return Failed(MissingFile), p;
      }
      ArgsOne(ts, w, argv, rs, more.rs, Toks(s, p));
      OneMoreOk(s, w, argv, rs, more.rs);
      argv, rs := argv + [w], rs + more.rs;
      stop, p := Peek(s, p, {'|', ')', '&', ';'});
    }
    WrapSpans(s, Exec(argv), rs);
    r := Parsed(Wrap(Exec(argv), rs));
  }

  lemma ArgsOne(ts: seq<Tok<Span>>, w: Span, argv: seq<Span>, rs: Redirs, more: Redirs, rest: seq<Tok<Span>>)
    requires |ts| > 0 && ts[0] == Word(w) && |argv| + 1 < MAXARGS && ParseRedirs(ts[1..]) == Ok(more, rest)
    ensures ParseArgs(ts, argv, rs) == ParseArgs(rest, argv + [w], rs + more)
  {
  }

  lemma OneMoreOk(s: string, w: Span, argv: seq<Span>, rs: Redirs, more: Redirs)
    requires SpanOk(s, w) && SpansOk(s, Exec(argv)) && FilesOk(s, rs) && FilesOk(s, more)
    ensures SpansOk(s, Exec(argv + [w])) && FilesOk(s, rs + more)
  {
  }

  method ReadBlock(s: string, ps: int) returns (r: Outcome, p: int)
    requires 0 <= ps <= |s| && IsLine(s) && Starts(Toks(s, ps), {'('})
    ensures ps <= p && Agrees(s, ParseBlock(Toks(s, ps)), r, p)
    decreases |s| - ps, 0
  {
    var tok, w, found;
    tok, w, p := GetToken(s, ps);
    r, p := ReadLine(s, p);
    if r.Failed? {
      return;
    }
    found, p := Peek(s, p, {')'});
    if !found {
      return Failed(MissingParen), p;
    }
    tok, w, p := GetToken(s, p);
    var redirs;
    redirs, p := ReadRedirs(s, p);
    if redirs.NoFile? {
      return Failed(MissingFile), p;
    }
    WrapSpans(s, r.cmd, redirs.rs);
    r := Parsed(Wrap(r.cmd, redirs.rs));
  }

  method ReadPipe(s: string, ps: int) returns (r: Outcome, p: int)
    requires 0 <= ps <= |s| && IsLine(s)
    ensures ps <= p && Agrees(s, ParsePipe(Toks(s, ps)), r, p)
    decreases |s| - ps, 2
  {
    r, p := ReadExec(s, ps);
    if r.Failed? {
      return;
    }
    var found, tok, w;
    found, p := Peek(s, p, {'|'});
    if found {
      tok, w, p := GetToken(s, p);
      var right;
      right, p := ReadPipe(s, p);
      r := if right.Failed? then right else Parsed(Pipe(r.cmd, right.cmd));
    }
  }

  method ReadLine(s: string, ps: int) returns (r: Outcome, p: int)
    requires 0 <= ps <= |s| && IsLine(s)
    ensures ps <= p && Agrees(s, ParseLine(Toks(s, ps)), r, p)
    decreases |s| - ps, 3
  {
    r, p := ReadPipe(s, ps);
    if r.Failed? {
      return;
    }
    var cmd, found, tok, w := r.cmd, false, NUL, Span(0, 0);
    ghost var backs := ParseBacks(cmd, Toks(s, p));
    found, p := Peek(s, p, {'&'});
    while found
      invariant ps <= p <= |s| && SpansOk(s, cmd) && found == Starts(Toks(s, p), {'&'})
      invariant ParseBacks(cmd, Toks(s, p)) == backs
      decreases |s| - p
    {
      tok, w, p := GetToken(s, p);
      cmd := Back(cmd);
      found, p := Peek(s, p, {'&'});
    }
    r := Parsed(cmd);
    found, p := Peek(s, p, {';'});
    if found {
      tok, w, p := GetToken(s, p);
      var right;
      right, p := ReadLine(s, p);
      r := if right.Failed? then right else Parsed(List(cmd, right.cmd));
    }
  }

  // ---------------------------------------------------------------- nulterminate

  /** No word of the line contains position i. */
  predicate EndPos(s: string, i: int) { i == |s| || (0 <= i < |s| && (Blank(s[i]) || Symbol(s[i]))) }

  /** b is the line with NULs written outside its words only. */
  ghost predicate Cut(s: string, b: string) {
    |b| == |s| + 1 && forall i | 0 <= i <= |s| :: (i < |s| && b[i] == s[i]) || (b[i] == NUL && EndPos(s, i))
  }

  /** Every word of the tree is followed by a NUL. */
  predicate Ended(b: string, c: Cmd<Span>) {
    match c
    case Exec(argv) => forall i | 0 <= i < |argv| :: EndedAt(b, argv[i])
    case Redir(cmd, r) => Ended(b, cmd) && EndedAt(b, r.file)
    case Pipe(l, r) => Ended(b, l) && Ended(b, r)
    case List(l, r) => Ended(b, l) && Ended(b, r)
    case Back(cmd) => Ended(b, cmd)
  }

  predicate EndedAt(b: string, w: Span) { 0 <= w.eq < |b| && b[w.eq] == NUL }

  predicate MoreNuls(b: string, b': string) { |b'| == |b| && forall i | 0 <= i < |b| && b[i] == NUL :: b'[i] == NUL }

  lemma {:induction false} EndedMore(b: string, b': string, c: Cmd<Span>)
    requires Ended(b, c) && MoreNuls(b, b')
    ensures Ended(b', c)
    decreases c
  {
    match c
    case Exec(argv) =>
    case Redir(cmd, r) => EndedMore(b, b', cmd);
    case Pipe(l, r) => EndedMore(b, b', l); EndedMore(b, b', r);
    case List(l, r) => EndedMore(b, b', l); EndedMore(b, b', r);
    case Back(cmd) => EndedMore(b, b', cmd);
  }

  /** *eq = 0 */
  method CutAt(buf: array<char>, ghost s: string, w: Span)
    requires Cut(s, buf[..]) && SpanOk(s, w)
    modifies buf
    ensures Cut(s, buf[..]) && EndedAt(buf[..], w) && MoreNuls(old(buf[..]), buf[..])
  {
    buf[w.eq] := NUL;
    ghost var b := old(buf[..]);
    assert buf[..] == b[w.eq := NUL];
  }

  method NulTerminate(buf: array<char>, ghost s: string, c: Cmd<Span>)
    requires Cut(s, buf[..]) && SpansOk(s, c)
    modifies buf
    ensures Cut(s, buf[..]) && Ended(buf[..], c) && MoreNuls(old(buf[..]), buf[..])
    decreases c
  {
    match c
    case Exec(argv) =>
      var i := 0;
      while i < |argv|
        invariant 0 <= i <= |argv| && Cut(s, buf[..]) && MoreNuls(old(buf[..]), buf[..])
        invariant forall k | 0 <= k < i :: EndedAt(buf[..], argv[k])
      {
        CutAt(buf, s, argv[i]);
        i := i + 1;
      }
    case Redir(cmd, r) =>
      NulTerminate(buf, s, cmd);
      ghost var b := buf[..];
      CutAt(buf, s, r.file);
      EndedMore(b, buf[..], cmd);
    case Pipe(l, r) =>
      NulTerminateBoth(buf, s, l, r, c);
    case List(l, r) =>
      NulTerminateBoth(buf, s, l, r, c);
    case Back(cmd) =>
      NulTerminate(buf, s, cmd);
  }

  method NulTerminateBoth(buf: array<char>, ghost s: string, l: Cmd<Span>, r: Cmd<Span>, ghost c: Cmd<Span>)
    requires Cut(s, buf[..]) && SpansOk(s, l) && SpansOk(s, r) && l < c && r < c
    modifies buf
    ensures Cut(s, buf[..]) && Ended(buf[..], l) && Ended(buf[..], r) && MoreNuls(old(buf[..]), buf[..])
    decreases c, 0
  {
    NulTerminate(buf, s, l);
    ghost var b := buf[..];
    NulTerminate(buf, s, r);
    EndedMore(b, buf[..], l);
  }

  /** The C string that starts at q. */
  function CString(b: string, q: int): string
    decreases |b| - q
  {
    if 0 <= q < |b| && b[q] != NUL then [b[q]] + CString(b, q + 1) else ""
  }

  /** The tree with the C strings that its pointers now refer to. */
  function CTextOf(b: string, c: Cmd<Span>): Cmd<string> {
    match c
    case Exec(argv) => Exec(seq(|argv|, i requires 0 <= i < |argv| => CString(b, argv[i].q)))
    case Redir(cmd, r) => Redir(CTextOf(b, cmd), Redirection(r.op, CString(b, r.file.q)))
    case Pipe(l, r) => Pipe(CTextOf(b, l), CTextOf(b, r))
    case List(l, r) => List(CTextOf(b, l), CTextOf(b, r))
    case Back(cmd) => Back(CTextOf(b, cmd))
  }

  lemma {:induction false} WordString(s: string, b: string, w: Span, q: int)
    requires Cut(s, b) && SpanOk(s, w) && EndedAt(b, w) && w.q <= q <= w.eq
    ensures CString(b, q) == s[q..w.eq]
    decreases w.eq - q
  {
    if q < w.eq {
      assert WordChar(s[q]);
      WordString(s, b, w, q + 1);
      assert s[q..w.eq] == [s[q]] + s[q + 1..w.eq];
    }
  }

  /** After nulterminate every word is exactly its token. */
  lemma {:induction false} TextSurvives(s: string, b: string, c: Cmd<Span>)
    requires Cut(s, b) && SpansOk(s, c) && Ended(b, c)
    ensures CTextOf(b, c) == TextOf(s, c)
    decreases c
  {
    match c
    case Exec(argv) =>
      forall i | 0 <= i < |argv|
        ensures CString(b, argv[i].q) == SpanText(s, argv[i])
      {
        WordString(s, b, argv[i], argv[i].q);
      }
    case Redir(cmd, r) =>
      TextSurvives(s, b, cmd);
      WordString(s, b, r.file, r.file.q);
    case Pipe(l, r) => TextSurvives(s, b, l); TextSurvives(s, b, r);
    case List(l, r) => TextSurvives(s, b, l); TextSurvives(s, b, r);
    case Back(cmd) => TextSurvives(s, b, cmd);
  }

  /** parsecmd: the line is in buf, with its terminating NUL. */
  method ParseCmd(buf: array<char>, s: string) returns (r: Outcome)
    requires buf[..] == s + [NUL] && IsLine(s)
    modifies buf
    ensures ParseAll(Toks(s, 0)).Fail? ==> r == Failed(ParseAll(Toks(s, 0)).e) && buf[..] == s + [NUL]
    ensures ParseAll(Toks(s, 0)).Ok? ==> r == Parsed(ParseAll(Toks(s, 0)).v)
    ensures ParseAll(Toks(s, 0)).Ok? ==> CTextOf(buf[..], r.cmd) == TextOf(s, r.cmd)
  {
    var p, found;
    r, p := ReadLine(s, 0);
    if r.Failed? {
      return;
    }
    found, p := Peek(s, p, {});
    if p != |s| {
      return Failed(Leftovers);
    }
    NulTerminate(buf, s, r.cmd);
    TextSurvives(s, buf[..], r.cmd);
  }
}
