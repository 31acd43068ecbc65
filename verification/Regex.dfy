/** The regular expressions of user/grep.c: what a pattern denotes, and the matcher that
    decides it. Strings are C strings without their terminator. */
module Regex {

  datatype Item = One(c: char) | Star(c: char)

  /** A pattern: its items in order, and whether it ends with the anchor $. */
  datatype Pattern = Pattern(items: seq<Item>, toEnd: bool)

  function Parse(re: string): Pattern {
    if re == "" then Pattern([], false)
    else if |re| > 1 && re[1] == '*' then var p := Parse(re[2..]); Pattern([Star(re[0])] + p.items, p.toEnd)
    else if re == "$" then Pattern([], true)
    else var p := Parse(re[1..]); Pattern([One(re[0])] + p.items, p.toEnd)
  }

  /** How a pattern is written. */
  function Written(items: seq<Item>, toEnd: bool): string {
    if items == [] then (if toEnd then "$" else "")
    else (match items[0] case One(c) => [c] case Star(c) => [c, '*']) + Written(items[1..], toEnd)
  }

  /** What the notation cannot say: a star itself after a plain item, a dollar sign at the end. */
  predicate Sayable(items: seq<Item>, toEnd: bool) {
    items == [] || (Sayable(items[1..], toEnd) && (items[0].One? ==>
        if |items| > 1 then items[1].c != '*' else items[0].c == '$' ==> toEnd))
  }

  /** Reading a pattern and writing it down gives the same characters, ... */
  lemma {:induction false} WriteParsed(re: string)
    ensures Written(Parse(re).items, Parse(re).toEnd) == re && Sayable(Parse(re).items, Parse(re).toEnd)
    decreases |re|
  {
    if |re| > 1 && re[1] == '*' {
      var p := Parse(re[2..]);
      WriteParsed(re[2..]);
      var all := [Star(re[0])] + p.items;
      assert all[1..] == p.items && re == [re[0], '*'] + re[2..];
    } else if re != "" && re != "$" {
      var p := Parse(re[1..]);
      WriteParsed(re[1..]);
      var all := [One(re[0])] + p.items;
      assert all[1..] == p.items && re == [re[0]] + re[1..];
      FirstChar(p.items, p.toEnd);
    }
  }

  lemma FirstChar(items: seq<Item>, toEnd: bool)
    ensures items != [] ==> |Written(items, toEnd)| > 0 && Written(items, toEnd)[0] == items[0].c
    ensures items == [] ==> Written(items, toEnd) == if toEnd then "$" else ""
  {
  }

  /** ... and writing a pattern down and reading it gives the same pattern, if and only if the
      notation can say it. */
  lemma ParseWrittenIff(items: seq<Item>, toEnd: bool)
    ensures Parse(Written(items, toEnd)) == Pattern(items, toEnd) <==> Sayable(items, toEnd)
  {
    WriteParsed(Written(items, toEnd));
    if Sayable(items, toEnd) {
      ParseWritten(items, toEnd);
    }
  }

  lemma {:induction false} ParseWritten(items: seq<Item>, toEnd: bool)
    requires Sayable(items, toEnd)
    ensures Parse(Written(items, toEnd)) == Pattern(items, toEnd)
    decreases |items|
  {
    if items == [] {
      assert toEnd ==> Written(items, toEnd) == "$";
    } else {
      var rest, re := Written(items[1..], toEnd), Written(items, toEnd);
      ParseWritten(items[1..], toEnd);
      FirstChar(items[1..], toEnd);
      assert items == [items[0]] + items[1..];
      if items[0].Star? {
        assert re[0] == items[0].c && re[1] == '*' && re[2..] == rest;
      } else {
        assert re[0] == items[0].c && re[1..] == rest;
        assert |re| > 1 ==> re[1] == rest[0] != '*';
        assert re != "$";
      }
    }
  }

  /** A full stop accepts every character, any other character itself. */
  predicate Accepts(c: char, x: char) { c == '.' || c == x }

  predicate Fits(item: Item, piece: string) {
    match item
    case One(c) => |piece| == 1 && Accepts(c, piece[0])
    case Star(c) => forall k | 0 <= k < |piece| :: Accepts(c, piece[k])
  }

  function Concat(pieces: seq<string>): string {
    if pieces == [] then "" else pieces[0] + Concat(pieces[1..])
  }

  ghost predicate Spelled(items: seq<Item>, s: string, pieces: seq<string>) {
    |pieces| == |items| && Concat(pieces) == s && forall k | 0 <= k < |items| :: Fits(items[k], pieces[k])
  }

  /** s is a concatenation of pieces that fit the items one by one. */
  ghost predicate InLanguage(items: seq<Item>, s: string) { exists pieces :: Spelled(items, s, pieces) }

  /** The pattern denotes text[i..j] of text. */
  ghost predicate Occurs(p: Pattern, text: string, i: int, j: int) {
    0 <= i <= j <= |text| && InLanguage(p.items, text[i..j]) && (p.toEnd ==> j == |text|)
  }

  /** The meaning of a whole pattern: some substring is in its language, where ^ requires
      the substring to start the text and $ requires it to end it. */
  ghost predicate Found(re: string, text: string) {
    if re != "" && re[0] == '^' then exists j :: Occurs(Parse(re[1..]), text, 0, j)
    else exists i, j :: Occurs(Parse(re), text, i, j)
  }

  /** An occurrence that starts at i. */
  ghost predicate Here(p: Pattern, text: string, i: int) { exists j :: Occurs(p, text, i, j) }

  // ---------------------------------------------------------------- occurrences, item by item

  lemma EmptyHere(p: Pattern, text: string, i: int)
    requires p.items == [] && 0 <= i <= |text|
    ensures Here(p, text, i) <==> (p.toEnd ==> i == |text|)
  {
    assert Spelled([], text[i..i], []);
    if Here(p, text, i) {
      var j :| Occurs(p, text, i, j);
      var pieces :| Spelled([], text[i..j], pieces);
      assert |text[i..j]| == 0;
    } else if p.toEnd ==> i == |text| {
      assert Occurs(p, text, i, i);
    }
  }

  /** A string that starts with an item: a fitting piece, then the rest. */
  lemma ConsLanguage(item: Item, rest: seq<Item>, s: string, k: int)
    requires 0 <= k <= |s| && Fits(item, s[..k]) && InLanguage(rest, s[k..])
    ensures InLanguage([item] + rest, s)
  {
    var pieces :| Spelled(rest, s[k..], pieces);
    var all := [s[..k]] + pieces;
    assert all[1..] == pieces && s[..k] + s[k..] == s;
    assert Spelled([item] + rest, s, all);
  }

  lemma UnconsLanguage(item: Item, rest: seq<Item>, s: string) returns (k: int)
    requires InLanguage([item] + rest, s)
    ensures 0 <= k <= |s| && Fits(item, s[..k]) && InLanguage(rest, s[k..])
  {
    var items := [item] + rest;
    var pieces :| Spelled(items, s, pieces);
    k := |pieces[0]|;
    assert s == pieces[0] + Concat(pieces[1..]);
    assert s[..k] == pieces[0] && s[k..] == Concat(pieces[1..]);
    assert Fits(items[0], pieces[0]);
    forall m | 0 <= m < |rest|
      ensures Fits(rest[m], pieces[1..][m])
    {
      assert items[m + 1] == rest[m] && Fits(items[m + 1], pieces[m + 1]);
    }
    assert Spelled(rest, s[k..], pieces[1..]);
  }

  /** An occurrence at i is a piece for the first item and an occurrence of the rest after it. */
  lemma ConsHere(item: Item, rest: Pattern, text: string, i: int)
    requires 0 <= i <= |text|
    ensures Here(Pattern([item] + rest.items, rest.toEnd), text, i)
       <==> exists k :: i <= k <= |text| && Fits(item, text[i..k]) && Here(rest, text, k)
  {
    var p := Pattern([item] + rest.items, rest.toEnd);
    if Here(p, text, i) {
      var j :| Occurs(p, text, i, j);
      var n := UnconsLanguage(item, rest.items, text[i..j]);
      SplitAt(text, i, i + n, j);
      assert Occurs(rest, text, i + n, j);
    }
    if k :| i <= k <= |text| && Fits(item, text[i..k]) && Here(rest, text, k) {
      var j :| Occurs(rest, text, k, j);
      SplitAt(text, i, k, j);
      ConsLanguage(item, rest.items, text[i..j], k - i);
      assert Occurs(p, text, i, j);
    }
  }

  lemma SplitAt(text: string, i: int, k: int, j: int)
    requires 0 <= i <= k <= j <= |text|
    ensures text[i..j][..k - i] == text[i..k] && text[i..j][k - i..] == text[k..j]
  {
  }

  lemma OneHere(c: char, rest: Pattern, text: string, i: int)
    requires 0 <= i <= |text|
    ensures Here(Pattern([One(c)] + rest.items, rest.toEnd), text, i) <==>
        i < |text| && Accepts(c, text[i]) && Here(rest, text, i + 1)
  {
    ConsHere(One(c), rest, text, i);
    if i < |text| && Accepts(c, text[i]) {
      assert Fits(One(c), text[i..i + 1]);
    }
  }

  // ---------------------------------------------------------------- the matcher

  method MatchHere(re: string, text: string, i: nat) returns (r: bool)
    requires i <= |text|
    ensures r <==> Here(Parse(re), text, i)
    decreases |re|, 0
  {
    if re == "" {
      EmptyHere(Parse(re), text, i);
      return true;
    }
    if |re| > 1 && re[1] == '*' {
      r := MatchStar(re[0], re[2..], text, i);
      return;
    }
    if re == "$" {
      EmptyHere(Parse(re), text, i);
      return i == |text|;
    }
    OneHere(re[0], Parse(re[1..]), text, i);
    if i < |text| && (re[0] == '.' || re[0] == text[i]) {
      r := MatchHere(re[1..], text, i + 1);
      return;
    }
    return false;
  }

  method MatchStar(c: char, re: string, text: string, i: nat) returns (r: bool)
    requires i <= |text|
    ensures r <==> Here(Pattern([Star(c)] + Parse(re).items, Parse(re).toEnd), text, i)
    decreases |re|, 1
  {
    ConsHere(Star(c), Parse(re), text, i);
    var t := i;
    while true
      invariant i <= t <= |text| && Fits(Star(c), text[i..t])
      invariant forall k | i <= k < t :: !Here(Parse(re), text, k)
      decreases |text| - t
    {
      var here := MatchHere(re, text, t);
      if here {
        return true;
      }
      if t == |text| || !(text[t] == c || c == '.') {
        if t < |text| {
          assert forall k | t < k <= |text| :: text[i..k][t - i] == text[t];
        }
        return false;
      }
      assert text[i..t + 1] == text[i..t] + [text[t]];
      t := t + 1;
    }
  }

  method Match(re: string, text: string) returns (r: bool)
    ensures r <==> Found(re, text)
  {
    if re != "" && re[0] == '^' {
      r := MatchHere(re[1..], text, 0);
      return;
    }
    var t := 0;
    while true
      invariant 0 <= t <= |text|
      invariant forall k | 0 <= k < t :: !Here(Parse(re), text, k)
      decreases |text| - t
    {
      var here := MatchHere(re, text, t);
      if here {
        return true;
      }
      if t == |text| {
        assert forall a, b :: Occurs(Parse(re), text, a, b) ==> Here(Parse(re), text, a);
        return false;
      }
      t := t + 1;
    }
  }
}
