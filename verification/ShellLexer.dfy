/** The tokens of a command line, as gettoken of user/sh.c finds them. Positions are
    offsets into the line; the line holds no NUL. */
module ShellLexer {
  import opened ShellGrammar

  predicate Blank(c: char) { c == ' ' || c == '\t' || c == '\r' || c == '\n' || c == '\U{0b}' }

  predicate Symbol(c: char) { c == '<' || c == '|' || c == '>' || c == '&' || c == ';' || c == '(' || c == ')' }

  predicate WordChar(c: char) { !Blank(c) && !Symbol(c) && c != '\0' }

  /** Where a word stands in the line. */
  datatype Span = Span(q: int, eq: int)

  function Skip(s: string, p: int): (q: int)
    requires 0 <= p <= |s|
    ensures p <= q <= |s| && (q < |s| ==> !Blank(s[q]))
    decreases |s| - p
  {
    if p < |s| && Blank(s[p]) then Skip(s, p + 1) else p
  }

  function WordEnd(s: string, p: int): (q: int)
    requires 0 <= p <= |s|
    ensures p <= q <= |s| && (q < |s| ==> Blank(s[q]) || Symbol(s[q]))
    decreases |s| - p
  {
    if p < |s| && !Blank(s[p]) && !Symbol(s[p]) then WordEnd(s, p + 1) else p
  }

  function TokenAt(s: string, q: int): Tok<Span>
    requires 0 <= q < |s|
  {
    if s[q] == '>' && q + 1 < |s| && s[q + 1] == '>' then Sym('+')
    else if Symbol(s[q]) then Sym(s[q])
    else Word(Span(q, WordEnd(s, q)))
  }

  function TokenEnd(s: string, q: int): (e: int)
    requires 0 <= q < |s| && !Blank(s[q])
    ensures q < e <= |s|
  {
    if s[q] == '>' && q + 1 < |s| && s[q + 1] == '>' then q + 2
    else if Symbol(s[q]) then q + 1
    else WordEnd(s, q)
  }

  /** The tokens from position p on. */
  function Toks(s: string, p: int): seq<Tok<Span>>
    requires 0 <= p <= |s|
    decreases |s| - p
  {
    var q := Skip(s, p);
    if q == |s| then [] else [TokenAt(s, q)] + Toks(s, TokenEnd(s, q))
  }

  // ---------------------------------------------------------------- lexing what was spelled

  predicate Blanks(g: string) { forall i | 0 <= i < |g| :: Blank(g[i]) }

  predicate IsWord(w: string) { w != "" && forall i | 0 <= i < |w| :: WordChar(w[i]) }

  predicate ValidTok(t: Tok<string>) { if t.Word? then IsWord(t.w) else Symbol(t.c) || t.c == '+' }

  function Spelling(t: Tok<string>): string { if t.Word? then t.w else if t.c == '+' then ">>" else [t.c] }

  /** The tokens written one after the other, each after a gap, and a last gap. */
  function Spell(ts: seq<Tok<string>>, gaps: seq<string>): string
    requires |gaps| == |ts| + 1
  {
    if ts == [] then gaps[0] else gaps[0] + (Spelling(ts[0]) + Spell(ts[1..], gaps[1..]))
  }

  /** Two tokens that would run together. */
  predicate Clash(a: Tok<string>, b: Tok<string>) {
    (a.Word? && b.Word?) || (a == Sym('>') && (b == Sym('>') || b == Sym('+')))
  }

  ghost predicate Spaced(ts: seq<Tok<string>>, gaps: seq<string>) {
    && |gaps| == |ts| + 1
    && (forall i | 0 <= i < |gaps| :: Blanks(gaps[i]))
    && (forall i | 0 <= i < |ts| :: ValidTok(ts[i]))
    && (forall i | 0 < i < |ts| && Clash(ts[i - 1], ts[i]) :: gaps[i] != "")
  }

  function TextOfTok(s: string, t: Tok<Span>): Tok<string> {
    match t
    case Sym(c) => Sym(c)
    case Word(w) => Word(if 0 <= w.q <= w.eq <= |s| then s[w.q..w.eq] else "")
  }

  lemma {:induction false} SkipGap(s: string, p: int, e: int)
    requires 0 <= p <= e <= |s| && (forall i | p <= i < e :: Blank(s[i])) && (e < |s| ==> !Blank(s[e]))
    ensures Skip(s, p) == e
    decreases e - p
  {
    if p < e {
      SkipGap(s, p + 1, e);
    }
  }

  lemma {:induction false} WordEndIs(s: string, p: int, e: int)
    requires 0 <= p <= e <= |s| && (forall i | p <= i < e :: WordChar(s[i]))
    requires (e < |s| ==> Blank(s[e]) || Symbol(s[e]))
    ensures WordEnd(s, p) == e
    decreases e - p
  {
    if p < e {
      WordEndIs(s, p + 1, e);
    }
  }

  /** What a spelled rest begins with: a blank, the first token, or nothing. */
  lemma FirstChar(ts: seq<Tok<string>>, gaps: seq<string>, r: string)
    requires Spaced(ts, gaps) && r == Spell(ts, gaps)
    ensures gaps[0] != "" ==> r != "" && Blank(r[0])
    ensures gaps[0] == "" && ts != [] ==> r != "" && r[0] == Spelling(ts[0])[0]
    ensures gaps[0] == "" && ts == [] ==> r == ""
  {
    if ts != [] {
      assert ValidTok(ts[0]);
    }
  }

  lemma SpacedRest(ts: seq<Tok<string>>, gaps: seq<string>)
    requires Spaced(ts, gaps) && ts != []
    ensures Spaced(ts[1..], gaps[1..])
  {
    forall i | 0 < i < |ts[1..]| && Clash(ts[1..][i - 1], ts[1..][i])
      ensures gaps[1..][i] != ""
    {
      assert Clash(ts[i + 1 - 1], ts[i + 1]);
    }
  }

  /** c may follow token t without becoming part of it. */
  predicate Ends(t: Tok<string>, c: char) {
    (t.Word? ==> Blank(c) || Symbol(c)) && (t == Sym('>') ==> c != '>')
  }

  lemma NextEnds(ts: seq<Tok<string>>, gaps: seq<string>, r: string)
    requires Spaced(ts, gaps) && ts != [] && r == Spell(ts[1..], gaps[1..])
    ensures r != "" ==> Ends(ts[0], r[0])
  {
    SpacedRest(ts, gaps);
    FirstChar(ts[1..], gaps[1..], r);
    if r != "" && gaps[1] == "" {
      assert !Clash(ts[0], ts[1]) && ValidTok(ts[1]);
    }
  }

  /** Text laid out in s from p on. */
  lemma Layout(s: string, p: int, g: string, x: string, r: string, q: int, e: int)
    requires 0 <= p <= |s| && s[p..] == g + (x + r) && q == p + |g| && e == q + |x|
    ensures e <= |s| && s[p..q] == g && s[q..e] == x && s[e..] == r
  {
    var t := s[p..];
    assert |t| == |g| + |x| + |r|;
    assert t[..|g|] == g && t[|g|..] == x + r;
    assert s[p..q] == t[..|g|] && s[q..] == t[|g|..];
    assert s[q..e] == s[q..][..|x|] && s[e..] == s[q..][|x|..];
  }

  lemma TokenReadBack(s: string, q: int, e: int, t: Tok<string>)
    requires ValidTok(t) && 0 <= q < e <= |s| && s[q..e] == Spelling(t) && (e < |s| ==> Ends(t, s[e]))
    ensures !Blank(s[q]) && TokenEnd(s, q) == e && TextOfTok(s, TokenAt(s, q)) == t
  {
    var x := Spelling(t);
    assert forall i | q <= i < e :: s[i] == s[q..e][i - q];
    assert s[q] == x[0];
    if t.Word? {
      assert forall i | q <= i < e :: WordChar(s[i]);
      WordEndIs(s, q, e);
    } else if t.c == '+' {
      assert s[q + 1] == x[1];
    }
  }

  /** The first token of a spelled line is found and read back. */
  lemma FirstToken(s: string, p: int, ts: seq<Tok<string>>, gaps: seq<string>, q: int, e: int)
    requires 0 <= p <= |s| && Spaced(ts, gaps) && ts != [] && s[p..] == Spell(ts, gaps)
    requires q == p + |gaps[0]| && e == q + |Spelling(ts[0])|
    ensures e <= |s| && Skip(s, p) == q < |s| && s[e..] == Spell(ts[1..], gaps[1..])
    ensures TokenEnd(s, q) == e && TextOfTok(s, TokenAt(s, q)) == ts[0]
  {
    var g, x, r := gaps[0], Spelling(ts[0]), Spell(ts[1..], gaps[1..]);
    assert ValidTok(ts[0]) && |x| > 0;
    Layout(s, p, g, x, r, q, e);
    NextEnds(ts, gaps, r);
    assert e < |s| ==> s[e] == r[0];
    TokenReadBack(s, q, e, ts[0]);
    assert forall i | p <= i < q :: s[i] == s[p..q][i - p];
    SkipGap(s, p, q);
  }

  lemma ToksFrom(s: string, p: int, q: int, e: int)
    requires 0 <= p <= |s| && Skip(s, p) == q < |s| && TokenEnd(s, q) == e
    ensures Toks(s, p) == [TokenAt(s, q)] + Toks(s, e)
  {
  }

  /** Lexing a spelled token sequence gives the tokens back, wherever the blanks are. */
  lemma {:induction false} LexSpelled(s: string, p: int, ts: seq<Tok<string>>, gaps: seq<string>)
    requires 0 <= p <= |s| && Spaced(ts, gaps) && s[p..] == Spell(ts, gaps)
    ensures |Toks(s, p)| == |ts| && forall i | 0 <= i < |ts| :: TextOfTok(s, Toks(s, p)[i]) == ts[i]
    decreases |ts|
  {
    if ts == [] {
      assert forall i | p <= i < |s| :: s[i] == s[p..][i - p] == gaps[0][i - p];
      SkipGap(s, p, |s|);
    } else {
      var q := p + |gaps[0]|;
      var e := q + |Spelling(ts[0])|;
      FirstToken(s, p, ts, gaps, q, e);
      SpacedRest(ts, gaps);
      LexSpelled(s, e, ts[1..], gaps[1..]);
      ToksFrom(s, p, q, e);
      assert forall i | 0 < i < |ts| :: ts[i] == ts[1..][i - 1];
    }
  }
}
