/** The command language of user/sh.c at the level of tokens: the trees, what its
    recursive-descent parser makes of a token sequence, and how a tree is written down. */
module ShellGrammar {

  /** A token: a word, or a symbol, where '+' stands for ">>". */
  datatype Tok<W> = Word(w: W) | Sym(c: char)

  datatype Redirection<W> = Redirection(op: char, file: W)

  datatype Cmd<W> =
    | Exec(argv: seq<W>)
    | Redir(cmd: Cmd<W>, r: Redirection<W>)
    | Pipe(left: Cmd<W>, right: Cmd<W>)
    | List(left: Cmd<W>, right: Cmd<W>)
    | Back(cmd: Cmd<W>)

  datatype Error = MissingFile | MissingParen | Syntax | TooManyArgs | Leftovers

  datatype Result<T, W> = Ok(v: T, rest: seq<Tok<W>>) | Fail(e: Error)

  const MAXARGS: int := 10

  predicate Starts<W>(ts: seq<Tok<W>>, cs: set<char>) { |ts| > 0 && ts[0].Sym? && ts[0].c in cs }

  // ---------------------------------------------------------------- the parser

  function Wrap<W>(cmd: Cmd<W>, rs: seq<Redirection<W>>): Cmd<W>
    decreases |rs|
  {
    if |rs| == 0 then cmd else Wrap(Redir(cmd, rs[0]), rs[1..])
  }

  /** parseredirs: the redirections at the head of ts. */
  function ParseRedirs<W>(ts: seq<Tok<W>>): (r: Result<seq<Redirection<W>>, W>)
    ensures r.Ok? ==> |r.rest| <= |ts|
  {
    if !Starts(ts, {'<', '>', '+'}) then Ok([], ts)
    else if |ts| == 1 || ts[1].Sym? then Fail(MissingFile)
    else match ParseRedirs(ts[2..])
      case Fail(e) => Fail(e)
      case Ok(rs, rest) => Ok([Redirection(ts[0].c, ts[1].w)] + rs, rest)
  }

  function Wrapped<W>(cmd: Cmd<W>, r: Result<seq<Redirection<W>>, W>): Result<Cmd<W>, W> {
    if r.Fail? then Fail(r.e) else Ok(Wrap(cmd, r.v), r.rest)
  }

  /** The loop of parseexec, with the words and redirections found so far. */
  function ParseArgs<W>(ts: seq<Tok<W>>, argv: seq<W>, rs: seq<Redirection<W>>): (r: Result<Cmd<W>, W>)
    ensures r.Ok? ==> |r.rest| <= |ts|
    decreases |ts|
  {
    if |ts| == 0 || Starts(ts, {'|', ')', '&', ';'}) then Ok(Wrap(Exec(argv), rs), ts)
    else if ts[0].Sym? then Fail(Syntax)
    else if |argv| + 1 >= MAXARGS then Fail(TooManyArgs)
    else match ParseRedirs(ts[1..])
      case Fail(e) => Fail(e)
      case Ok(more, rest) => ParseArgs(rest, argv + [ts[0].w], rs + more)
  }

  function ParseExec<W>(ts: seq<Tok<W>>): (r: Result<Cmd<W>, W>)
    ensures r.Ok? ==> |r.rest| <= |ts|
    decreases |ts|, 1
  {
    if Starts(ts, {'('}) then ParseBlock(ts)
    else match ParseRedirs(ts)
      case Fail(e) => Fail(e)
      case Ok(rs, rest) => ParseArgs(rest, [], rs)
  }

  function ParseBlock<W>(ts: seq<Tok<W>>): (r: Result<Cmd<W>, W>)
    requires |ts| > 0
    ensures r.Ok? ==> |r.rest| <= |ts|
    decreases |ts|, 0
  {
    match ParseLine(ts[1..])
    case Fail(e) => Fail(e)
    case Ok(cmd, rest) =>
      if !Starts(rest, {')'}) then Fail(MissingParen)
      else Wrapped(cmd, ParseRedirs(rest[1..]))
  }

  function ParsePipe<W>(ts: seq<Tok<W>>): (r: Result<Cmd<W>, W>)
    ensures r.Ok? ==> |r.rest| <= |ts|
    decreases |ts|, 2
  {
    match ParseExec(ts)
    case Fail(e) => Fail(e)
    case Ok(cmd, rest) =>
      if !Starts(rest, {'|'}) then Ok(cmd, rest)
      else match ParsePipe(rest[1..])
        case Fail(e) => Fail(e)
        case Ok(right, rest') => Ok(Pipe(cmd, right), rest')
  }

  /** The loop of parseline over '&'. */
  function ParseBacks<W>(cmd: Cmd<W>, ts: seq<Tok<W>>): (r: Result<Cmd<W>, W>)
    ensures r.Ok? && |r.rest| <= |ts|
    decreases |ts|
  {
    if Starts(ts, {'&'}) then ParseBacks(Back(cmd), ts[1..]) else Ok(cmd, ts)
  }

  function ParseLine<W>(ts: seq<Tok<W>>): (r: Result<Cmd<W>, W>)
    ensures r.Ok? ==> |r.rest| <= |ts|
    decreases |ts|, 3
  {
    match ParsePipe(ts)
    case Fail(e) => Fail(e)
    case Ok(cmd0, rest0) =>
      var b := ParseBacks(cmd0, rest0);
      if !Starts(b.rest, {';'}) then b
      else match ParseLine(b.rest[1..])
        case Fail(e) => Fail(e)
        case Ok(right, rest) => Ok(List(b.v, right), rest)
  }

  function ParseAll<W>(ts: seq<Tok<W>>): Result<Cmd<W>, W> {
    match ParseLine(ts)
    case Fail(e) => Fail(e)
    case Ok(cmd, rest) => if |rest| > 0 then Fail(Leftovers) else Ok(cmd, [])
  }

  // ---------------------------------------------------------------- writing a tree down

  /** At most nine words to a command, and redirections with <, > and >>. */
  predicate WellFormed<W>(t: Cmd<W>) {
    match t
    case Exec(argv) => |argv| < MAXARGS
    case Redir(cmd, r) => r.op in {'<', '>', '+'} && WellFormed(cmd)
    case Pipe(l, r) => WellFormed(l) && WellFormed(r)
    case List(l, r) => WellFormed(l) && WellFormed(r)
    case Back(cmd) => WellFormed(cmd)
  }

  function Words<W>(argv: seq<W>): (ts: seq<Tok<W>>)
    ensures |ts| == |argv| && forall i | 0 <= i < |argv| :: ts[i] == Word(argv[i])
  {
    seq(|argv|, i requires 0 <= i < |argv| => Word(argv[i]))
  }

  /** The tree with every operand in parentheses. */
  function Render<W>(t: Cmd<W>): seq<Tok<W>>
    decreases t, 0
  {
    match t
    case Exec(argv) => Words(argv)
    case Redir(cmd, r) => Block(cmd) + [Sym(r.op), Word(r.file)]
    case Pipe(l, r) => Block(l) + [Sym('|')] + Block(r)
    case List(l, r) => Block(l) + [Sym(';')] + Block(r)
    case Back(cmd) => Block(cmd) + [Sym('&')]
  }

  function Block<W>(t: Cmd<W>): seq<Tok<W>>
    decreases t, 1
  {
    [Sym('(')] + Render(t) + [Sym(')')]
  }
}
