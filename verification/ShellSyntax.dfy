/** The grammar behind the parser of user/sh.c: concrete syntax trees, the tokens they stand
    for and the commands they mean. The parser accepts exactly this language. */
module ShellSyntax {
  import opened ShellGrammar

  /** Words and redirections mix freely in a simple command; a group in parentheses has its
      redirections behind it; '&' may be repeated. */
  datatype Items<W> = End | Arg(w: W, next: Items<W>) | File(r: Redirection<W>, next: Items<W>)

  datatype Unit<W> = Simple(items: Items<W>) | Group(line: Line<W>, files: Items<W>)

  datatype Pipeline<W> = One(u: Unit<W>) | More(u: Unit<W>, next: Pipeline<W>)

  datatype Line<W> = Last(p: Pipeline<W>, backs: nat) | Then(p: Pipeline<W>, backs: nat, next: Line<W>)

  // ---------------------------------------------------------------- the tokens

  function ItemTokens<W>(items: Items<W>): seq<Tok<W>> {
    match items
    case End => []
    case Arg(w, next) => [Word(w)] + ItemTokens(next)
    case File(r, next) => [Sym(r.op), Word(r.file)] + ItemTokens(next)
  }

  function Amps<W>(n: nat): seq<Tok<W>> { if n == 0 then [] else [Sym('&')] + Amps(n - 1) }

  function UnitTokens<W>(u: Unit<W>): seq<Tok<W>> {
    match u
    case Simple(items) => ItemTokens(items)
    case Group(line, files) => [Sym('(')] + (Tokens(line) + ([Sym(')')] + ItemTokens(files)))
  }

  function PipeTokens<W>(p: Pipeline<W>): seq<Tok<W>> {
    match p
    case One(u) => UnitTokens(u)
    case More(u, next) => UnitTokens(u) + ([Sym('|')] + PipeTokens(next))
  }

  function Tokens<W>(d: Line<W>): seq<Tok<W>> {
    match d
    case Last(p, backs) => PipeTokens(p) + Amps(backs)
    case Then(p, backs, next) => PipeTokens(p) + (Amps(backs) + ([Sym(';')] + Tokens(next)))
  }

  // ---------------------------------------------------------------- the meaning

  function Args<W>(items: Items<W>): seq<W> {
    match items
    case End => []
    case Arg(w, next) => [w] + Args(next)
    case File(r, next) => Args(next)
  }

  function Files<W>(items: Items<W>): seq<Redirection<W>> {
    match items
    case End => []
    case Arg(w, next) => Files(next)
    case File(r, next) => [r] + Files(next)
  }

  function Backed<W>(cmd: Cmd<W>, n: nat): Cmd<W>
    decreases n
  {
    if n == 0 then cmd else Backed(Back(cmd), n - 1)
  }

  /** A command with its redirections around it, the last one outermost. */
  function Around<W>(cmd: Cmd<W>, rs: seq<Redirection<W>>): Cmd<W> {
    if rs == [] then cmd else Redir(Around(cmd, rs[..|rs| - 1]), rs[|rs| - 1])
  }

  function UnitTree<W>(u: Unit<W>): Cmd<W> {
    match u
    case Simple(items) => Around(Exec(Args(items)), Files(items))
    case Group(line, files) => Around(Tree(line), Files(files))
  }

  function PipeTree<W>(p: Pipeline<W>): Cmd<W> {
    match p
    case One(u) => UnitTree(u)
    case More(u, next) => Pipe(UnitTree(u), PipeTree(next))
  }

  function Tree<W>(d: Line<W>): Cmd<W> {
    match d
    case Last(p, backs) => Backed(PipeTree(p), backs)
    case Then(p, backs, next) => List(Backed(PipeTree(p), backs), Tree(next))
  }

  // ---------------------------------------------------------------- what is legal

  predicate LegalItems<W>(items: Items<W>) {
    match items
    case End => true
    case Arg(w, next) => LegalItems(next)
    case File(r, next) => r.op in {'<', '>', '+'} && LegalItems(next)
  }

  predicate LegalUnit<W>(u: Unit<W>) {
    match u
    case Simple(items) => LegalItems(items) && |Args(items)| < MAXARGS
    case Group(line, files) => Legal(line) && LegalItems(files) && |Args(files)| == 0
  }

  predicate LegalPipe<W>(p: Pipeline<W>) { LegalUnit(p.u) && (p.More? ==> LegalPipe(p.next)) }

  predicate Legal<W>(d: Line<W>) { LegalPipe(d.p) && (d.Then? ==> Legal(d.next)) }

  // ---------------------------------------------------------------- redirections and words

  /** parseexec from some point on, with the words and redirections found so far. */
  function Simply<W>(ts: seq<Tok<W>>, argv: seq<W>, rs: seq<Redirection<W>>): Result<Cmd<W>, W> {
    match ParseRedirs(ts)
    case Fail(e) => Fail(e)
    case Ok(more, rest) => ParseArgs(rest, argv, rs + more)
  }

  lemma NoRedirs<W>(ts: seq<Tok<W>>)
    requires !Starts(ts, {'<', '>', '+'})
    ensures ParseRedirs(ts) == Ok([], ts)
  {
  }

  /** Simply reads a redirection, ... */
  lemma SimplyFile<W>(ts: seq<Tok<W>>, argv: seq<W>, rs: seq<Redirection<W>>)
    requires Starts(ts, {'<', '>', '+'}) && |ts| > 1 && ts[1].Word?
    ensures Simply(ts, argv, rs) == Simply(ts[2..], argv, rs + [Redirection(ts[0].c, ts[1].w)])
  {
    var r := Redirection(ts[0].c, ts[1].w);
    var more := ParseRedirs(ts[2..]);
    if more.Ok? {
      assert rs + ([r] + more.v) == rs + [r] + more.v;
    }
  }

  /** ... or a word, ... */
  lemma SimplyArg<W>(ts: seq<Tok<W>>, argv: seq<W>, rs: seq<Redirection<W>>)
    requires |ts| > 0 && ts[0].Word?
    ensures Simply(ts, argv, rs) ==
      if |argv| + 1 >= MAXARGS then Fail(TooManyArgs) else Simply(ts[1..], argv + [ts[0].w], rs)
  {
    NoRedirs(ts);
    assert rs + [] == rs;
  }

  /** ... or stops. */
  lemma SimplyEnd<W>(ts: seq<Tok<W>>, argv: seq<W>, rs: seq<Redirection<W>>)
    requires |ts| == 0 || (ts[0].Sym? && !Starts(ts, {'<', '>', '+'}))
    ensures Simply(ts, argv, rs) ==
      if Follows(ts) then Ok(Around(Exec(argv), rs), ts) else Fail(Syntax)
  {
    NoRedirs(ts);
    assert rs + [] == rs;
    WrapsAround(Exec(argv), rs);
  }

  /** parseredirs puts each redirection around what it has. */
  lemma {:induction false} WrapsAround<W>(cmd: Cmd<W>, rs: seq<Redirection<W>>)
    ensures Wrap(cmd, rs) == Around(cmd, rs)
    decreases |rs|
  {
    if |rs| > 0 {
      var rest := rs[..|rs| - 1];
      WrapsAround(cmd, rest);
      assert rs == rest + [rs[|rs| - 1]];
      WrapLast(cmd, rest, rs[|rs| - 1]);
    }
  }

  lemma {:induction false} WrapLast<W>(cmd: Cmd<W>, rs: seq<Redirection<W>>, r: Redirection<W>)
    ensures Wrap(cmd, rs + [r]) == Redir(Wrap(cmd, rs), r)
    decreases |rs|
  {
    if |rs| == 0 {
      assert rs + [r] == [r] && [r][1..] == [];
      assert Wrap(cmd, [r]) == Wrap(Redir(cmd, r), []);
    } else {
      assert (rs + [r])[0] == rs[0] && (rs + [r])[1..] == rs[1..] + [r];
      WrapLast(Redir(cmd, rs[0]), rs[1..], r);
    }
  }

  /** What ends a simple command. */
  predicate Follows<W>(post: seq<Tok<W>>) { |post| == 0 || Starts(post, {'|', ')', '&', ';'}) }

  /** What ends a line: nothing, or a closing parenthesis. */
  predicate Closed<W>(post: seq<Tok<W>>) { |post| == 0 || Starts(post, {')'}) }

  // ---------------------------------------------------------------- every derivation is parsed

  lemma {:induction false} ItemsParsed<W>(items: Items<W>, ts: seq<Tok<W>>, post: seq<Tok<W>>, argv: seq<W>,
                                          rs: seq<Redirection<W>>)
    requires ts == ItemTokens(items) + post && LegalItems(items) && Follows(post)
    requires |argv| + |Args(items)| < MAXARGS
    ensures Simply(ts, argv, rs) == Ok(Around(Exec(argv + Args(items)), rs + Files(items)), post)
    decreases items
  {
    match items
    case End =>
      assert ts == post && argv + [] == argv && rs + [] == rs;
      SimplyEnd(ts, argv, rs);
    case Arg(w, next) =>
      var tail := ItemTokens(next) + post;
      HeadOne(ts, Word(w), ItemTokens(next), post);
      Assoc(argv, [w], Args(next));
      SimplyArg(ts, argv, rs);
      ItemsParsed(next, tail, post, argv + [w], rs);
    case File(r, next) =>
      var tail := ItemTokens(next) + post;
      HeadTwo(ts, Sym(r.op), Word(r.file), ItemTokens(next), post);
      Assoc(rs, [r], Files(next));
      SimplyFile(ts, argv, rs);
      ItemsParsed(next, tail, post, argv, rs + [r]);
  }

  lemma HeadOne<T>(ts: seq<T>, x: T, more: seq<T>, post: seq<T>)
    requires ts == [x] + more + post
    ensures |ts| > 0 && ts[0] == x && ts[1..] == more + post
  {
  }

  lemma HeadTwo<T>(ts: seq<T>, x: T, y: T, more: seq<T>, post: seq<T>)
    requires ts == [x, y] + more + post
    ensures |ts| > 1 && ts[0] == x && ts[1] == y && ts[2..] == more + post
  {
  }

  lemma Assoc<T>(a: seq<T>, b: seq<T>, c: seq<T>)
    ensures a + (b + c) == a + b + c
  {
  }

  lemma {:induction false} FilesParsed<W>(files: Items<W>, ts: seq<Tok<W>>, post: seq<Tok<W>>)
    requires ts == ItemTokens(files) + post && LegalItems(files) && |Args(files)| == 0 && Follows(post)
    ensures ParseRedirs(ts) == Ok(Files(files), post)
    decreases files
  {
    if files == End {
      assert ts == post;
      NoRedirs(ts);
    } else {
      HeadTwo(ts, Sym(files.r.op), Word(files.r.file), ItemTokens(files.next), post);
      FilesParsed(files.next, ts[2..], post);
    }
  }

  lemma {:induction false} UnitParsed<W>(u: Unit<W>, ts: seq<Tok<W>>, post: seq<Tok<W>>)
    requires ts == UnitTokens(u) + post && LegalUnit(u) && Follows(post)
    ensures ParseExec(ts) == Ok(UnitTree(u), post)
    decreases u, 0
  {
    match u
    case Simple(items) =>
      NoGroup(items, ts, post);
      ItemsParsed(items, ts, post, [], []);
      assert [] + Args(items) == Args(items) && [] + Files(items) == Files(items);
      SimplyExec(ts);
    case Group(line, files) =>
      var tail := ItemTokens(files) + post;
      var mid := [Sym(')')] + tail;
      GroupParts(ts, Tokens(line), ItemTokens(files), post, mid);
      LineParsed(line, ts[1..], mid);
      FilesParsed(files, tail, post);
      GroupStep(ts, Tree(line), mid, Files(files), post);
  }

  lemma NoGroup<W>(items: Items<W>, ts: seq<Tok<W>>, post: seq<Tok<W>>)
    requires ts == ItemTokens(items) + post && LegalItems(items) && Follows(post)
    ensures !Starts(ts, {'('})
  {
    assert items == End ==> ts == post;
  }

  lemma GroupParts<W>(ts: seq<Tok<W>>, line: seq<Tok<W>>, files: seq<Tok<W>>, post: seq<Tok<W>>, mid: seq<Tok<W>>)
    requires ts == [Sym('(')] + (line + ([Sym(')')] + files)) + post && mid == [Sym(')')] + (files + post)
    ensures Starts(ts, {'('}) && ts[1..] == line + mid && Starts(mid, {')'}) && mid[1..] == files + post
  {
  }

  lemma SimplyExec<W>(ts: seq<Tok<W>>)
    requires !Starts(ts, {'('})
    ensures ParseExec(ts) == Simply(ts, [], [])
  {
    var r := ParseRedirs(ts);
    if r.Ok? {
      assert [] + r.v == r.v;
    }
  }

  lemma GroupStep<W>(ts: seq<Tok<W>>, cmd: Cmd<W>, mid: seq<Tok<W>>, rs: seq<Redirection<W>>, post: seq<Tok<W>>)
    requires Starts(ts, {'('}) && ParseLine(ts[1..]) == Ok(cmd, mid) && Starts(mid, {')'})
    requires ParseRedirs(mid[1..]) == Ok(rs, post)
    ensures ParseExec(ts) == Ok(Around(cmd, rs), post)
  {
    WrapsAround(cmd, rs);
  }

  lemma {:induction false} PipeParsed<W>(p: Pipeline<W>, ts: seq<Tok<W>>, post: seq<Tok<W>>)
    requires ts == PipeTokens(p) + post && LegalPipe(p) && Follows(post) && !Starts(post, {'|'})
    ensures ParsePipe(ts) == Ok(PipeTree(p), post)
    decreases p, 1
  {
    match p
    case One(u) =>
      UnitParsed(u, ts, post);
    case More(u, next) =>
      var tail := PipeTokens(next) + post;
      var mid := [Sym('|')] + tail;
      assert ts == UnitTokens(u) + mid && mid[1..] == tail;
      UnitParsed(u, ts, mid);
      PipeParsed(next, tail, post);
      PipeStep(ts, UnitTree(u), mid, PipeTree(next), post);
  }

  lemma PipeStep<W>(ts: seq<Tok<W>>, l: Cmd<W>, mid: seq<Tok<W>>, r: Cmd<W>, post: seq<Tok<W>>)
    requires ParseExec(ts) == Ok(l, mid) && Starts(mid, {'|'}) && ParsePipe(mid[1..]) == Ok(r, post)
    ensures ParsePipe(ts) == Ok(Pipe(l, r), post)
  {
  }

  lemma {:induction false} AmpsParsed<W>(cmd: Cmd<W>, n: nat, ts: seq<Tok<W>>, post: seq<Tok<W>>)
    requires ts == Amps(n) + post && !Starts(post, {'&'})
    ensures ParseBacks(cmd, ts) == Ok(Backed(cmd, n), post)
    decreases n
  {
    if n == 0 {
      assert ts == post;
    } else {
      assert ts[0] == Sym('&') && ts[1..] == Amps(n - 1) + post;
      AmpsParsed(Back(cmd), n - 1, ts[1..], post);
    }
  }

  /** A line is read as its meaning, up to the closing parenthesis. */
  lemma {:induction false} LineParsed<W>(d: Line<W>, ts: seq<Tok<W>>, post: seq<Tok<W>>)
    requires ts == Tokens(d) + post && Legal(d) && Closed(post)
    ensures ParseLine(ts) == Ok(Tree(d), post)
    decreases d, 2
  {
    var cmd := PipeTree(d.p);
    match d
    case Last(p, backs) =>
      var mid := Amps(backs) + post;
      assert ts == PipeTokens(p) + mid;
      AmpsFollow(backs, post);
      PipeParsed(p, ts, mid);
      AmpsParsed(cmd, backs, mid, post);
      LastStep(ts, cmd, mid, Backed(cmd, backs), post);
    case Then(p, backs, next) =>
      var tail := Tokens(next) + post;
      var semi := [Sym(';')] + tail;
      var mid := Amps(backs) + semi;
      assert ts == PipeTokens(p) + mid && semi[1..] == tail;
      AmpsFollow(backs, semi);
      PipeParsed(p, ts, mid);
      AmpsParsed(cmd, backs, mid, semi);
      LineParsed(next, tail, post);
      ThenStep(ts, cmd, mid, Backed(cmd, backs), semi, Tree(next), post);
  }

  lemma AmpsFollow<W>(n: nat, post: seq<Tok<W>>)
    requires Follows(post) && !Starts(post, {'|'})
    ensures Follows(Amps(n) + post) && !Starts(Amps(n) + post, {'|'})
  {
    assert n == 0 ==> Amps(n) + post == post;
  }

  lemma LastStep<W>(ts: seq<Tok<W>>, cmd: Cmd<W>, mid: seq<Tok<W>>, b: Cmd<W>, post: seq<Tok<W>>)
    requires ParsePipe(ts) == Ok(cmd, mid) && ParseBacks(cmd, mid) == Ok(b, post) && !Starts(post, {';'})
    ensures ParseLine(ts) == Ok(b, post)
  {
  }

  lemma ThenStep<W>(ts: seq<Tok<W>>, cmd: Cmd<W>, mid: seq<Tok<W>>, b: Cmd<W>, semi: seq<Tok<W>>, r: Cmd<W>,
                    post: seq<Tok<W>>)
    requires ParsePipe(ts) == Ok(cmd, mid) && ParseBacks(cmd, mid) == Ok(b, semi) && Starts(semi, {';'})
    requires ParseLine(semi[1..]) == Ok(r, post)
    ensures ParseLine(ts) == Ok(List(b, r), post)
  {
  }

  // ---------------------------------------------------------------- whatever is parsed is derived

  /** The items are what ts has before post, and with argv and rs before them they mean t. */
  ghost predicate ItemsGive<W>(items: Items<W>, ts: seq<Tok<W>>, argv: seq<W>, rs: seq<Redirection<W>>, t: Cmd<W>,
                               post: seq<Tok<W>>) {
    && LegalItems(items) && ts == ItemTokens(items) + post && |argv| + |Args(items)| < MAXARGS
    && t == Around(Exec(argv + Args(items)), rs + Files(items))
  }

  lemma {:induction false} ItemsDerived<W>(ts: seq<Tok<W>>, argv: seq<W>, rs: seq<Redirection<W>>, t: Cmd<W>,
                                           post: seq<Tok<W>>)
    returns (items: Items<W>)
    requires Simply(ts, argv, rs) == Ok(t, post) && |argv| < MAXARGS
    ensures ItemsGive(items, ts, argv, rs, t, post)
    decreases |ts|
  {
    if Starts(ts, {'<', '>', '+'}) {
      SimplyFile(ts, argv, rs);
      var r := Redirection(ts[0].c, ts[1].w);
      var next := ItemsDerived(ts[2..], argv, rs + [r], t, post);
      items := File(r, next);
      FileGives(items, ts, argv, rs, t, post);
    } else if |ts| > 0 && ts[0].Word? {
      SimplyArg(ts, argv, rs);
      var w := ts[0].w;
      var next := ItemsDerived(ts[1..], argv + [w], rs, t, post);
      items := Arg(w, next);
      ArgGives(items, ts, argv, rs, t, post);
    } else {
      SimplyEnd(ts, argv, rs);
      items := End;
      assert argv + [] == argv && rs + [] == rs && [] + post == post;
    }
  }

  lemma FileGives<W>(items: Items<W>, ts: seq<Tok<W>>, argv: seq<W>, rs: seq<Redirection<W>>, t: Cmd<W>,
                     post: seq<Tok<W>>)
    requires |ts| > 1 && items.File? && ts[0] == Sym(items.r.op) && ts[1] == Word(items.r.file)
    requires items.r.op in {'<', '>', '+'} && ItemsGive(items.next, ts[2..], argv, rs + [items.r], t, post)
    ensures ItemsGive(items, ts, argv, rs, t, post)
  {
    TailTwo(ts, ts[0], ts[1], ItemTokens(items.next), post);
    Assoc(rs, [items.r], Files(items.next));
  }

  lemma ArgGives<W>(items: Items<W>, ts: seq<Tok<W>>, argv: seq<W>, rs: seq<Redirection<W>>, t: Cmd<W>,
                    post: seq<Tok<W>>)
    requires |ts| > 0 && items.Arg? && ts[0] == Word(items.w)
    requires ItemsGive(items.next, ts[1..], argv + [items.w], rs, t, post)
    ensures ItemsGive(items, ts, argv, rs, t, post)
  {
    TailOne(ts, ts[0], ItemTokens(items.next), post);
    Assoc(argv, [items.w], Args(items.next));
  }

  lemma TailOne<T>(ts: seq<T>, x: T, more: seq<T>, post: seq<T>)
    requires |ts| > 0 && ts[0] == x && ts[1..] == more + post
    ensures ts == [x] + more + post
  {
    assert ts == [x] + ts[1..];
  }

  lemma TailTwo<T>(ts: seq<T>, x: T, y: T, more: seq<T>, post: seq<T>)
    requires |ts| > 1 && ts[0] == x && ts[1] == y && ts[2..] == more + post
    ensures ts == [x, y] + more + post
  {
    assert ts == [x, y] + ts[2..];
  }

  lemma {:induction false} FilesDerived<W>(ts: seq<Tok<W>>, rs: seq<Redirection<W>>, post: seq<Tok<W>>)
    returns (files: Items<W>)
    requires ParseRedirs(ts) == Ok(rs, post)
    ensures LegalItems(files) && |Args(files)| == 0 && ts == ItemTokens(files) + post && rs == Files(files)
    decreases |ts|
  {
    if Starts(ts, {'<', '>', '+'}) {
      var next := FilesDerived(ts[2..], ParseRedirs(ts[2..]).v, post);
      files := File(Redirection(ts[0].c, ts[1].w), next);
      TailTwo(ts, ts[0], ts[1], ItemTokens(next), post);
    } else {
      NoRedirs(ts);
      files := End;
      assert [] + post == post;
    }
  }

  lemma {:induction false} UnitDerived<W>(ts: seq<Tok<W>>) returns (u: Unit<W>)
    requires ParseExec(ts).Ok?
    ensures LegalUnit(u) && ts == UnitTokens(u) + ParseExec(ts).rest && ParseExec(ts).v == UnitTree(u)
    decreases |ts|, 1
  {
    if Starts(ts, {'('}) {
      var line := LineDerived(ts[1..]);
      var mid := ParseLine(ts[1..]).rest;
      var r := ParseRedirs(mid[1..]);
      var files := FilesDerived(mid[1..], r.v, r.rest);
      u := Group(line, files);
      WrapsAround(Tree(line), r.v);
      GroupTokens(ts, line, mid, files, r.rest);
    } else {
      SimplyExec(ts);
      var items := ItemsDerived(ts, [], [], ParseExec(ts).v, ParseExec(ts).rest);
      assert [] + Args(items) == Args(items) && [] + Files(items) == Files(items);
      u := Simple(items);
    }
  }

  lemma GroupTokens<W>(ts: seq<Tok<W>>, line: Line<W>, mid: seq<Tok<W>>, files: Items<W>, post: seq<Tok<W>>)
    requires Starts(ts, {'('}) && ts[1..] == Tokens(line) + mid
    requires Starts(mid, {')'}) && mid[1..] == ItemTokens(files) + post
    ensures ts == UnitTokens(Group(line, files)) + post
  {
    var a, b, c := [Sym('(')], Tokens(line), [Sym(')')] + ItemTokens(files);
    assert mid == [Sym(')')] + mid[1..] && ts == a + ts[1..];
    Assoc([Sym(')')], ItemTokens(files), post);
    Assoc(b, c, post);
    Assoc(a, b + c, post);
  }

  lemma {:induction false} PipeDerived<W>(ts: seq<Tok<W>>) returns (p: Pipeline<W>)
    requires ParsePipe(ts).Ok?
    ensures LegalPipe(p) && ts == PipeTokens(p) + ParsePipe(ts).rest && ParsePipe(ts).v == PipeTree(p)
    decreases |ts|, 2
  {
    var u := UnitDerived(ts);
    var mid := ParseExec(ts).rest;
    if Starts(mid, {'|'}) {
      var next := PipeDerived(mid[1..]);
      p := More(u, next);
      MoreTokens(ts, UnitTokens(u), mid, PipeTokens(next), ParsePipe(mid[1..]).rest);
    } else {
      p := One(u);
    }
  }

  lemma MoreTokens<W>(ts: seq<Tok<W>>, u: seq<Tok<W>>, mid: seq<Tok<W>>, next: seq<Tok<W>>, post: seq<Tok<W>>)
    requires ts == u + mid && Starts(mid, {'|'}) && mid[1..] == next + post
    ensures ts == u + ([Sym('|')] + next) + post
  {
    assert mid == [Sym('|')] + mid[1..];
    Assoc([Sym('|')], next, post);
    Assoc(u, [Sym('|')] + next, post);
  }

  lemma {:induction false} AmpsDerived<W>(cmd: Cmd<W>, ts: seq<Tok<W>>) returns (n: nat)
    ensures ts == Amps(n) + ParseBacks(cmd, ts).rest && ParseBacks(cmd, ts).v == Backed(cmd, n)
    decreases |ts|
  {
    if Starts(ts, {'&'}) {
      var m := AmpsDerived(Back(cmd), ts[1..]);
      n := m + 1;
      assert ts == [Sym('&')] + ts[1..];
    } else {
      n := 0;
    }
  }

  lemma {:induction false} LineDerived<W>(ts: seq<Tok<W>>) returns (d: Line<W>)
    requires ParseLine(ts).Ok?
    ensures Legal(d) && ts == Tokens(d) + ParseLine(ts).rest && ParseLine(ts).v == Tree(d)
    decreases |ts|, 3
  {
    var p := PipeDerived(ts);
    var cmd, mid := PipeTree(p), ParsePipe(ts).rest;
    var n := AmpsDerived(cmd, mid);
    var b := ParseBacks(cmd, mid);
    if Starts(b.rest, {';'}) {
      var next := LineDerived(b.rest[1..]);
      d := Then(p, n, next);
      ThenTokens(ts, p, mid, n, b.rest, next, ParseLine(b.rest[1..]).rest);
    } else {
      d := Last(p, n);
      Assoc(PipeTokens(p), Amps(n), b.rest);
    }
  }

  lemma ThenTokens<W>(ts: seq<Tok<W>>, p: Pipeline<W>, mid: seq<Tok<W>>, n: nat, semi: seq<Tok<W>>, next: Line<W>,
                      post: seq<Tok<W>>)
    requires ts == PipeTokens(p) + mid && mid == Amps(n) + semi && Starts(semi, {';'})
    requires semi[1..] == Tokens(next) + post
    ensures ts == Tokens(Then(p, n, next)) + post
  {
    var a, b, c := PipeTokens(p), Amps(n), [Sym(';')] + Tokens(next);
    assert semi == [Sym(';')] + semi[1..];
    Assoc([Sym(';')], Tokens(next), post);
    Assoc(b, c, post);
    Assoc(a, b + c, post);
  }

  // ---------------------------------------------------------------- main results

  /** ts can be derived with meaning t. */
  ghost predicate Derives<W(!new)>(t: Cmd<W>, ts: seq<Tok<W>>) {
    exists d: Line<W> :: Legal(d) && Tokens(d) == ts && Tree(d) == t
  }

  /** The parser succeeds exactly on the grammar, with the tree the grammar gives. */
  lemma ParsesIff<W(!new)>(ts: seq<Tok<W>>, t: Cmd<W>)
    ensures ParseAll(ts) == Ok(t, []) <==> Derives(t, ts)
  {
    if ParseAll(ts) == Ok(t, []) {
      var d := LineDerived(ts);
      assert Tokens(d) + [] == Tokens(d);
    }
    if Derives(t, ts) {
      var d: Line<W> :| Legal(d) && Tokens(d) == ts && Tree(d) == t;
      assert ts == Tokens(d) + [];
      LineParsed(d, ts, []);
    }
  }

  /** No line has two meanings. */
  lemma Unambiguous<W>(d: Line<W>, e: Line<W>)
    requires Legal(d) && Legal(e) && Tokens(d) == Tokens(e)
    ensures Tree(d) == Tree(e)
  {
    var ts := Tokens(d);
    assert ts == Tokens(d) + [] && ts == Tokens(e) + [];
    LineParsed(d, ts, []);
    LineParsed(e, ts, []);
  }

  // ---------------------------------------------------------------- every tree can be written

  /** The derivation of a tree's rendering: every operand is a group. */
  function Parens<W>(t: Cmd<W>): Line<W>
    decreases t, 0
  {
    match t
    case Exec(argv) => Last(One(Simple(Plain(argv))), 0)
    case Redir(cmd, r) => Last(One(Group(Parens(cmd), File(r, End))), 0)
    case Pipe(l, r) => Last(More(Group(Parens(l), End), One(Group(Parens(r), End))), 0)
    case List(l, r) => Then(One(Group(Parens(l), End)), 0, Last(One(Group(Parens(r), End)), 0))
    case Back(cmd) => Last(One(Group(Parens(cmd), End)), 1)
  }

  function Plain<W>(argv: seq<W>): Items<W> { if argv == [] then End else Arg(argv[0], Plain(argv[1..])) }

  lemma {:induction false} PlainOk<W>(argv: seq<W>)
    ensures LegalItems(Plain(argv)) && Args(Plain(argv)) == argv && Files(Plain(argv)) == []
    ensures ItemTokens(Plain(argv)) == Words(argv)
  {
    if argv != [] {
      PlainOk(argv[1..]);
      assert argv == [argv[0]] + argv[1..];
      assert Words(argv) == [Word(argv[0])] + Words(argv[1..]);
    }
  }

  lemma GroupOk<W>(t: Cmd<W>, d: Line<W>, p: Pipeline<W>)
    requires p == One(Group(d, End)) && Legal(d) && Tokens(d) == Render(t) && Tree(d) == t
    ensures LegalPipe(p) && PipeTokens(p) == Block(t) && PipeTree(p) == t
  {
    assert [Sym(')')] + ItemTokens<W>(End) == [Sym(')')];
    Assoc([Sym('(')], Render(t), [Sym(')')]);
  }

  lemma RedirOk<W>(t: Cmd<W>, d: Line<W>, r: Redirection<W>, p: Pipeline<W>)
    requires p == One(Group(d, File(r, End))) && Legal(d) && Tokens(d) == Render(t) && Tree(d) == t
    requires r.op in {'<', '>', '+'}
    ensures LegalPipe(p) && PipeTokens(p) == Block(t) + [Sym(r.op), Word(r.file)] && PipeTree(p) == Redir(t, r)
  {
    var f := [Sym(r.op), Word(r.file)];
    var none: Items<W> := End;
    assert LegalItems(none) && ItemTokens(none) == [] && Files(none) == [] && Args(none) == [];
    assert LegalUnit(p.u);
    assert f + [] == f && [r] + [] == [r];
    Assoc(Render(t), [Sym(')')], f);
    Assoc([Sym('(')], Render(t) + [Sym(')')], f);
    Assoc([Sym('(')], Render(t), [Sym(')')]);
    assert [r][..0] == [] && Around(t, [r]) == Redir(Around(t, []), r);
  }

  lemma AmpsNone<W>(ts: seq<Tok<W>>)
    ensures ts + Amps(0) == ts && Amps<W>(0) + ts == ts && ts + Amps(1) == ts + [Sym('&')]
  {
    assert Amps<W>(1) == [Sym('&')];
  }

  lemma {:induction false} ParensOk<W>(t: Cmd<W>)
    requires WellFormed(t)
    ensures Legal(Parens(t)) && Tokens(Parens(t)) == Render(t) && Tree(Parens(t)) == t
    decreases t
  {
    match t
    case Exec(argv) =>
      PlainOk(argv);
      SimpleOk(argv, Plain(argv), Parens(t));
    case Redir(cmd, r) =>
      ParensOk(cmd);
      RedirOk(cmd, Parens(cmd), r, Parens(t).p);
      AmpsNone(Render(t));
    case Pipe(l, r) =>
      ParensOk(l);
      ParensOk(r);
      PipeOk(l, r, Parens(l), Parens(r));
    case List(l, r) =>
      ParensOk(l);
      ParensOk(r);
      ListOk(l, r, Parens(l), Parens(r));
    case Back(cmd) =>
      ParensOk(cmd);
      GroupOk(cmd, Parens(cmd), Parens(t).p);
      AmpsNone(Block(cmd));
  }

  lemma SimpleOk<W>(argv: seq<W>, items: Items<W>, d: Line<W>)
    requires d == Last(One(Simple(items)), 0) && |argv| < MAXARGS
    requires LegalItems(items) && Args(items) == argv && Files(items) == [] && ItemTokens(items) == Words(argv)
    ensures Legal(d) && Tokens(d) == Words(argv) && Tree(d) == Exec(argv)
  {
    AmpsNone(Words(argv));
    assert LegalUnit(d.p.u) && UnitTree(d.p.u) == Around(Exec(argv), []);
    assert Around(Exec(argv), []) == Exec(argv);
    assert PipeTokens(d.p) == Words(argv);
  }

  lemma PipeOk<W>(l: Cmd<W>, r: Cmd<W>, d: Line<W>, e: Line<W>)
    requires Legal(d) && Tokens(d) == Render(l) && Tree(d) == l
    requires Legal(e) && Tokens(e) == Render(r) && Tree(e) == r
    ensures var x := Last(More(Group(d, End), One(Group(e, End))), 0);
      Legal(x) && Tokens(x) == Render(Pipe(l, r)) && Tree(x) == Pipe(l, r)
  {
    var u, p := Group(d, End), One(Group(e, End));
    GroupOk(l, d, One(u));
    GroupOk(r, e, p);
    Assoc(Block(l), [Sym('|')], Block(r));
    assert LegalPipe(More(u, p)) && PipeTokens(More(u, p)) == Render(Pipe(l, r));
    AmpsNone(Render(Pipe(l, r)));
  }

  lemma ListOk<W>(l: Cmd<W>, r: Cmd<W>, d: Line<W>, e: Line<W>)
    requires Legal(d) && Tokens(d) == Render(l) && Tree(d) == l
    requires Legal(e) && Tokens(e) == Render(r) && Tree(e) == r
    ensures var x := Then(One(Group(d, End)), 0, Last(One(Group(e, End)), 0));
      Legal(x) && Tokens(x) == Render(List(l, r)) && Tree(x) == List(l, r)
  {
    var p, y := One(Group(d, End)), Last(One(Group(e, End)), 0);
    GroupOk(l, d, p);
    GroupOk(r, e, y.p);
    AmpsNone(Block(r));
    assert Legal(y) && Tokens(y) == Block(r) && Tree(y) == r;
    AmpsNone([Sym(';')] + Block(r));
    Assoc(Block(l), [Sym(';')], Block(r));
  }

  /** Every well-formed tree is what the parser makes of its rendering. */
  lemma LineRoundTrip<W>(t: Cmd<W>, post: seq<Tok<W>>)
    requires WellFormed(t) && Closed(post)
    ensures ParseLine(Render(t) + post) == Ok(t, post)
  {
    ParensOk(t);
    LineParsed(Parens(t), Render(t) + post, post);
  }

  lemma RoundTrip<W>(t: Cmd<W>)
    requires WellFormed(t)
    ensures ParseAll(Render(t)) == Ok(t, [])
  {
    LineRoundTrip(t, []);
    assert Render(t) + [] == Render(t);
  }
}
