/** The line filter of user/grep.c over its fixed buffer. */
module Grep {
  import opened Regex

  const NUL: char := '\0'

  /** The first newline of s at p or later, |s| if there is none. */
  function LineEnd(s: string, p: int): (k: int)
    requires 0 <= p <= |s|
    ensures p <= k <= |s|
    decreases |s| - p
  {
    if p == |s| || s[p] == '\n' then p else LineEnd(s, p + 1)
  }

  lemma {:induction false} LineEndFirst(s: string, p: int)
    requires 0 <= p <= |s|
    ensures LineEnd(s, p) < |s| ==> s[LineEnd(s, p)] == '\n'
    ensures forall j | p <= j < LineEnd(s, p) :: s[j] != '\n'
    decreases |s| - p
  {
    if p < |s| && s[p] != '\n' {
      LineEndFirst(s, p + 1);
    }
  }

  /** The lines a pattern selects. */
  ghost function Hits(re: string): iset<string> { iset text | Found(re, text) }

  ghost predicate Selects(re: string, hits: iset<string>) {
    forall text {:trigger Found(re, text)} :: Found(re, text) <==> text in hits
  }

  /** The line of s that starts at p is complete, free of NUL and fits the buffer. */
  predicate GoodLine(s: string, p: int)
    requires 0 <= p <= |s|
  {
    LineEnd(s, p) < |s| && LineEnd(s, p) <= p + 1022 && forall j | p <= j < LineEnd(s, p) :: s[j] != NUL
  }

  /** The lines of s from p on, without their newlines, up to the first that is not good. */
  function GoodLines(s: string, p: int): seq<string>
    requires 0 <= p <= |s|
    decreases |s| - p
  {
    if !GoodLine(s, p) then [] else [s[p..LineEnd(s, p)]] + GoodLines(s, LineEnd(s, p) + 1)
  }

  ghost function Printed(hits: iset<string>, line: string): string { if line in hits then line + "\n" else "" }

  /** The selected lines, each with its newline. */
  ghost function Select(hits: iset<string>, lines: seq<string>): string {
    if lines == [] then "" else Select(hits, lines[..|lines| - 1]) + Printed(hits, lines[|lines| - 1])
  }

  /** All complete lines from p on are good; what follows the last newline does not matter. */
  predicate AllGood(s: string, p: int)
    requires 0 <= p <= |s|
    decreases |s| - p
  {
    LineEnd(s, p) == |s| || (GoodLine(s, p) && AllGood(s, LineEnd(s, p) + 1))
  }

  /** The complete lines of s from p on. */
  function Lines(s: string, p: int): seq<string>
    requires 0 <= p <= |s|
    decreases |s| - p
  {
    if LineEnd(s, p) == |s| then [] else [s[p..LineEnd(s, p)]] + Lines(s, LineEnd(s, p) + 1)
  }

  /** No line is lost exactly if all of them are good. */
  lemma {:induction false} NoLineLostIff(s: string, p: int)
    requires 0 <= p <= |s|
    ensures GoodLines(s, p) == Lines(s, p) <==> AllGood(s, p)
    decreases |s| - p
  {
    if LineEnd(s, p) < |s| {
      var x, q := s[p..LineEnd(s, p)], LineEnd(s, p) + 1;
      NoLineLostIff(s, q);
      LinesFrom(s, p, x, q);
      SameTail(x, GoodLines(s, q), Lines(s, q));
    }
  }

  lemma LinesFrom(s: string, p: int, x: string, q: int)
    requires 0 <= p <= |s| && LineEnd(s, p) < |s| && x == s[p..LineEnd(s, p)] && q == LineEnd(s, p) + 1
    ensures Lines(s, p) == [x] + Lines(s, q) && GoodLines(s, p) == if GoodLine(s, p) then [x] + GoodLines(s, q) else []
    ensures AllGood(s, p) <==> GoodLine(s, p) && AllGood(s, q)
  {
    AllGoodFrom(s, p, q);
  }

  lemma AllGoodFrom(s: string, p: int, q: int)
    requires 0 <= p <= |s| && LineEnd(s, p) < |s| && q == LineEnd(s, p) + 1
    ensures AllGood(s, p) <==> GoodLine(s, p) && AllGood(s, q)
  {
  }

  lemma SameTail(x: string, a: seq<string>, b: seq<string>)
    ensures [x] + a == [x] + b <==> a == b
  {
    assert ([x] + a)[1..] == a && ([x] + b)[1..] == b;
  }

  /** The failure at work: the line "b" matches the pattern b, but the line before it holds a
      NUL, so nothing is printed. */
  lemma NulHidesLaterLine()
    ensures Found("b", "b")
    ensures Lines("a\0\nb\n", 0) == ["a\0", "b"] && GoodLines("a\0\nb\n", 0) == []
  {
    var s := "a\0\nb\n";
    assert LineEnd(s, 2) == 2 && LineEnd(s, 1) == 2 && LineEnd(s, 0) == 2;
    assert s[1] == NUL && s[0..2] == "a\0";
    assert LineEnd(s, 4) == 4 && LineEnd(s, 3) == 4 && s[3..4] == "b";
    assert LineEnd(s, 5) == 5 == |s|;
    assert Lines(s, 5) == [] && Lines(s, 3) == ["b"];
    var items := Parse("b").items;
    assert Parse("") == Pattern([], false) && "b"[1..] == "";
    assert items == [One('b')];
    assert Concat([]) == "" && Concat(["b"]) == "b" + Concat(["b"][1..]);
    assert Spelled(items, "b"[0..1], ["b"]);
    assert Occurs(Parse("b"), "b", 0, 1);
  }

  /** strchr finds no newline in s[p..m] followed by a NUL: it stops at z. */
  ghost predicate StopsAt(s: string, p: int, m: int, z: int) {
    0 <= p <= z <= m <= |s| && (z == m || s[z] == NUL) && forall k | p <= k < z :: s[k] != '\n'
  }

  /** The buffer ends inside a line that is not good, or the input ends there. */
  lemma Stuck(s: string, p: int, m: int, z: int)
    requires StopsAt(s, p, m, z) && (m == |s| || m == p + 1023)
    ensures GoodLines(s, p) == []
  {
    LineEndFirst(s, p);
    assert LineEnd(s, p) >= z;
  }

  method Strchr(buf: array<char>, p: int, c: char, ghost end: int) returns (q: int)
    requires 0 <= p <= end < buf.Length && buf[end] == NUL && c != NUL
    ensures q == -1 || p <= q < end
    ensures q >= 0 ==> buf[q] == c && forall k | p <= k < q :: buf[k] != c && buf[k] != NUL
    ensures q == -1 ==> exists z | p <= z <= end :: buf[z] == NUL && forall k | p <= k < z :: buf[k] != c
  {
    q := p;
    while buf[q] != NUL
      invariant p <= q <= end
      invariant forall k | p <= k < q :: buf[k] != c && buf[k] != NUL
      decreases end - q
    {
      if buf[q] == c {
        return;
      }
      q := q + 1;
    }
    q := -1;
  }

  method Memmove(buf: array<char>, p: int, n: int)
    requires 0 <= p && 0 <= n && p + n <= buf.Length
    modifies buf
    ensures forall k | 0 <= k < n :: buf[k] == old(buf[p + k])
  {
    if p > 0 {
      var i := 0;
      while i < n
        invariant 0 <= i <= n
        invariant forall k | 0 <= k < i :: buf[k] == old(buf[p + k])
        invariant forall k | i <= k < buf.Length :: buf[k] == old(buf[k])
      {
        buf[i] := buf[p + i];
        i := i + 1;
      }
    } else {
      var i := n;
      while i > 0
        invariant 0 <= i <= n
        invariant forall k | 0 <= k < buf.Length :: buf[k] == old(buf[k])
      {
        i := i - 1;
        buf[i] := buf[p + i];
      }
    }
  }

  lemma LineEndIs(s: string, p: int, q: int)
    requires 0 <= p <= q < |s| && q <= p + 1022 && s[q] == '\n' && forall k | p <= k < q :: s[k] != '\n' && s[k] != NUL
    ensures LineEnd(s, p) == q && GoodLine(s, p)
  {
    LineEndFirst(s, p);
  }

  /** buf[p..m] is the part of s from start + p on. */
  ghost predicate Holds(buf: array<char>, s: string, start: int, p: int, m: int)
    reads buf
  {
    0 <= start && 0 <= p <= m <= buf.Length && start + m <= |s| && forall k | p <= k < m :: buf[k] == s[start + k]
  }

  /** The line buf[p..q] in the buffer. */
  lemma LineInBuffer(buf: array<char>, s: string, start: int, p: int, q: int, m: int)
    requires Holds(buf, s, start, p, m) && p <= q < m <= 1023 && buf[q] == '\n'
    requires forall k | p <= k < q :: buf[k] != '\n' && buf[k] != NUL
    ensures LineEnd(s, start + p) == start + q && GoodLine(s, start + p)
  {
    forall j | start + p <= j < start + q
      ensures s[j] != '\n' && s[j] != NUL
    {
      assert buf[j - start] == s[start + (j - start)];
    }
    LineEndIs(s, start + p, start + q);
  }

  /** No line in buf[p..m]: strchr stopped at z. */
  lemma NoLineInBuffer(buf: array<char>, s: string, start: int, p: int, m: int, z: int)
    requires Holds(buf, s, start, p, m) && p <= z <= m < buf.Length && buf[z] == NUL
    requires forall k | p <= k < z :: buf[k] != '\n'
    ensures StopsAt(s, start + p, start + m, start + z)
  {
    forall j | start + p <= j < start + z
      ensures s[j] != '\n'
    {
      assert buf[j - start] == s[start + (j - start)];
    }
  }

  /** A run of the filter: its lines and where they start; the last start is where it is. */
  datatype Trace = Trace(starts: seq<int>, lines: seq<string>)

  ghost predicate LineAt(s: string, t: Trace, i: int)
    requires 0 <= i < |t.lines| && |t.starts| == |t.lines| + 1
  {
    var a, b := t.starts[i], t.starts[i + 1];
    0 <= a < b <= |s| && GoodLine(s, a) && LineEnd(s, a) == b - 1 && t.lines[i] == s[a..b - 1]
  }

  /** The run has reached position p of s and printed out. */
  ghost predicate Ran(hits: iset<string>, s: string, t: Trace, p: int, out: string) {
    && |t.starts| == |t.lines| + 1 && t.starts[0] == 0 && t.starts[|t.lines|] == p && 0 <= p <= |s|
    && out == Select(hits, t.lines)
    && (forall i {:trigger LineAt(s, t, i)} | 0 <= i < |t.lines| :: LineAt(s, t, i))
  }

  lemma LineKept(s: string, t: Trace, t': Trace, i: int)
    requires |t.starts| == |t.lines| + 1 && |t'.starts| == |t'.lines| + 1 && 0 <= i < |t.lines| && LineAt(s, t, i)
    requires |t'.starts| > |t.starts| && t'.starts[..|t.starts|] == t.starts && t'.lines[..|t.lines|] == t.lines
    ensures LineAt(s, t', i)
  {
    assert t'.starts[i] == t.starts[i] && t'.starts[i + 1] == t.starts[i + 1];
    assert t'.lines[i] == t.lines[i];
  }

  lemma SelectMore(hits: iset<string>, lines: seq<string>, line: string)
    ensures Select(hits, lines + [line]) == Select(hits, lines) + Printed(hits, line)
  {
    assert (lines + [line])[..|lines|] == lines;
  }

  lemma RanMore(hits: iset<string>, s: string, t: Trace, p: int, out: string, p': int, out': string, line: string,
                t': Trace)
    requires Ran(hits, s, t, p, out) && p < p' <= |s| && GoodLine(s, p) && LineEnd(s, p) == p' - 1
    requires line == s[p..p' - 1]
    requires out' == out + Printed(hits, line) && t' == Trace(t.starts + [p'], t.lines + [line])
    ensures Ran(hits, s, t', p', out')
  {
    var n := |t.lines|;
    assert t'.starts[..n + 1] == t.starts && t'.lines[..n] == t.lines;
    assert t'.starts[n] == p && t'.starts[n + 1] == p' && t'.lines[n] == line;
    SelectMore(hits, t.lines, line);
    forall i | 0 <= i < n
      ensures LineAt(s, t', i)
    {
      assert LineAt(s, t, i);
      LineKept(s, t, t', i);
    }
  }

  lemma GoodLinesStep(s: string, a: int, b: int, line: string)
    requires 0 <= a < b <= |s| && GoodLine(s, a) && LineEnd(s, a) == b - 1 && line == s[a..b - 1]
    ensures GoodLines(s, a) == [line] + GoodLines(s, b)
  {
  }

  /** A run that can go no further has seen the good lines, from each of its lines on. */
  lemma {:induction false} RanAll(hits: iset<string>, s: string, t: Trace, p: int, out: string, i: int)
    requires Ran(hits, s, t, p, out) && 0 <= i <= |t.lines| && GoodLines(s, p) == []
    ensures 0 <= t.starts[i] <= |s| && t.lines[i..] == GoodLines(s, t.starts[i])
    decreases |t.lines| - i
  {
    if i < |t.lines| {
      RanAll(hits, s, t, p, out, i + 1);
      assert LineAt(s, t, i);
      GoodLinesAt(s, t, i);
    }
  }

  lemma GoodLinesAt(s: string, t: Trace, i: int)
    requires 0 <= i < |t.lines| && |t.starts| == |t.lines| + 1 && LineAt(s, t, i)
    requires t.lines[i + 1..] == GoodLines(s, t.starts[i + 1])
    ensures t.lines[i..] == GoodLines(s, t.starts[i])
  {
    GoodLinesStep(s, t.starts[i], t.starts[i + 1], t.lines[i]);
    assert t.lines[i..] == [t.lines[i]] + t.lines[i + 1..];
  }

  /** The inner loop: the buffer holds the m bytes of the input from start to end. */
  method FilterBuffer(re: string, buf: array<char>, m: int, before: string, ghost hits: iset<string>,
                      ghost input: string, ghost start: int, ghost end: int, ghost t: Trace)
    returns (p: int, out: string, ghost at: int, ghost z: int, ghost t': Trace)
    requires buf.Length == 1024 && 0 <= m <= 1023 && buf[m] == NUL && Selects(re, hits) && end == start + m
    requires Holds(buf, input, start, 0, m) && Ran(hits, input, t, start, before)
    modifies buf
    ensures 0 <= p <= m && at == start + p && StopsAt(input, at, end, z)
    ensures Holds(buf, input, start, p, m) && Ran(hits, input, t', at, out)
  {
    p, out, at, z, t' := 0, before, start, start, t;
    var more := true;
    while more
      invariant 0 <= p <= m && at == start + p && buf[m] == NUL
      invariant Holds(buf, input, start, p, m) && Ran(hits, input, t', at, out)
      invariant !more ==> StopsAt(input, at, end, z)
      decreases m - p, more
    {
      ghost var was, here := out, at;
      more, p, out, at, z := FilterLine(re, buf, p, m, out, hits, input, start, at, end);
      if more {
        ghost var line := input[here..at - 1];
        ghost var next := Trace(t'.starts + [at], t'.lines + [line]);
        RanMore(hits, input, t', here, was, at, out, line, next);
        t' := next;
      }
    }
  }

  /** One pass of the inner loop. */
  method FilterLine(re: string, buf: array<char>, p: int, m: int, before: string, ghost hits: iset<string>,
                    ghost input: string, ghost start: int, ghost here: int, ghost end: int)
    returns (more: bool, p': int, out: string, ghost at: int, ghost z: int)
    requires buf.Length == 1024 && 0 <= p <= m <= 1023 && buf[m] == NUL && Selects(re, hits)
    requires Holds(buf, input, start, p, m) && here == start + p && end == start + m
    modifies buf
    ensures p <= p' <= m && at == start + p' && buf[m] == NUL && Holds(buf, input, start, p', m)
    ensures !more ==> at == here && out == before && StopsAt(input, at, end, z)
    ensures more ==> here < at && GoodLine(input, here) && LineEnd(input, here) == at - 1
    ensures more ==> out == before + Printed(hits, input[here..at - 1])
  {
    p', out, at, z := p, before, here, start;
    var q := Strchr(buf, p, '\n', m);
    more := q != -1;
    if !more {
      ghost var e :| p <= e <= m && buf[e] == NUL && forall k | p <= k < e :: buf[k] != '\n';
      z := start + e;
      NoLineInBuffer(buf, input, start, p, m, e);
    } else {
      LineInBuffer(buf, input, start, p, q, m);
      out := PrintLine(re, buf, p, q, out, hits, input[here..start + q]);
      p', at := q + 1, start + q + 1;
    }
  }

  /** One line: it ends at q. */
  method PrintLine(re: string, buf: array<char>, p: int, q: int, before: string, ghost hits: iset<string>,
                   ghost text: string)
    returns (out: string)
    requires 0 <= p <= q < buf.Length && buf[q] == '\n' && Selects(re, hits)
    requires |text| == q - p && forall k | 0 <= k < q - p :: buf[p + k] == text[k]
    modifies buf
    ensures out == before + Printed(hits, text)
    ensures forall k | 0 <= k < buf.Length && k != q :: buf[k] == old(buf[k])
  {
    out := before;
    buf[q] := NUL;
    assert buf[p..q] == text;
    var found := Match(re, buf[p..q]);
    if found {
      buf[q] := '\n';
      assert buf[p..q + 1] == text + "\n";
      out := out + buf[p..q + 1];
    }
  }

  /** n bytes of the input from pos on arrive in the buffer at m, and a NUL after them. */
  method Read(buf: array<char>, m: int, input: string, pos: int, n: int)
    requires buf.Length == 1024 && 0 <= m <= pos && 0 <= n && m + n <= 1023 && pos + n <= |input|
    requires Holds(buf, input, pos - m, 0, m)
    modifies buf
    ensures Holds(buf, input, pos - m, 0, m + n) && buf[m + n] == NUL
  {
    forall k | 0 <= k < n {
      buf[m + k] := input[pos + k];
    }
    buf[m + n] := NUL;
  }

  /** What grep does with each successful read, which delivered n bytes. */
  method Step(re: string, buf: array<char>, m: int, before: string, input: string, pos: int, n: int,
              ghost hits: iset<string>, ghost start: int, ghost t: Trace)
    returns (m': int, out: string, ghost at: int, ghost z: int, ghost t': Trace)
    requires buf.Length == 1024 && 0 <= m && 0 < n && m + n <= 1023 && pos + n <= |input| && start == pos - m
    requires Selects(re, hits)
    requires Holds(buf, input, start, 0, m) && Ran(hits, input, t, start, before)
    modifies buf
    ensures 0 <= m' <= m + n && at == pos + n - m' && StopsAt(input, at, pos + n, z)
    ensures Holds(buf, input, at, 0, m') && Ran(hits, input, t', at, out)
  {
    Read(buf, m, input, pos, n);
    var p;
    p, out, at, z, t' := FilterBuffer(re, buf, m + n, before, hits, input, start, pos + n, t);
    m' := m + n - p;
    Memmove(buf, p, m');
    assert Holds(buf, input, at, 0, m');
  }

  /** grep: read delivers any positive number of the bytes that remain, as many as fit. */
  method FilterInput(re: string, input: string, ghost hits: iset<string>) returns (out: string)
    requires Selects(re, hits)
    ensures out == Select(hits, GoodLines(input, 0))
  {
    var buf := new char[1024];
    var pos, m := 0, 0;
    out := "";
    ghost var at, z, t := 0, 0, Trace([0], []);
    while 1024 - m - 1 > 0 && |input| - pos > 0
      invariant 0 <= m <= 1023 && m <= pos <= |input| && at == pos - m
      invariant StopsAt(input, at, pos, z) && Holds(buf, input, at, 0, m) && Ran(hits, input, t, at, out)
      decreases |input| - pos
    {
      var n :| 0 < n <= 1024 - m - 1 && n <= |input| - pos;
      m, out, at, z, t := Step(re, buf, m, out, input, pos, n, hits, at, t);
      pos := pos + n;
    }
    Stuck(input, at, pos, z);
    RanAll(hits, input, t, at, out, 0);
    assert t.lines[0..] == t.lines;
  }

  method Grep(re: string, input: string) returns (out: string)
    ensures out == Select(Hits(re), GoodLines(input, 0))
  {
    out := FilterInput(re, input, Hits(re));
  }
}
