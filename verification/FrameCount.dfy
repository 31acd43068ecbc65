/** How many frames mapping pages takes: a frame for each new page, and the page tables that
    are missing on the way to them. */
module FrameCount {
  import opened PageTable

  ghost predicate NeededBy(w: set<int>, n: int) { exists v :: v in w && (Mid(v) == n || Low(v) == n) }

  /** The tables that are missing for a set of pages. */
  ghost function MissingFor(tbl: seq<int>, w: set<int>): set<int> {
    set n | 0 <= n < |tbl| && tbl[n] == 0 && NeededBy(w, n)
  }

  /** The frames it takes to map a set of new pages. */
  ghost function FramesFor(tbl: seq<int>, w: set<int>): nat { |w| + |MissingFor(tbl, w)| }

  /** Tables that exist in tbl' and not in tbl are needed by pages in w. */
  ghost predicate NewFor(tbl: seq<int>, tbl': seq<int>, w: set<int>) {
    |tbl'| == |tbl| && forall n {:trigger NewForAt(tbl, tbl', w, n)} :: NewForAt(tbl, tbl', w, n)
  }

  ghost predicate NewForAt(tbl: seq<int>, tbl': seq<int>, w: set<int>, n: int) {
    0 <= n < |tbl| && n < |tbl'| && tbl[n] == 0 && tbl'[n] != 0 ==> NeededBy(w, n)
  }

  lemma NothingNew(tbl: seq<int>, w: set<int>)
    ensures NewFor(tbl, tbl, w)
  {
  }

  lemma NewTableFor(tbl: seq<int>, t1: seq<int>, v: int, c: int, f: int)
    requires NewFor(tbl, t1, {v}) && 0 <= c < |tbl| && (c == Mid(v) || c == Low(v))
    ensures NewFor(tbl, t1[c := f], {v})
  {
    var t2 := t1[c := f];
    forall n
      ensures NewForAt(tbl, t2, {v}, n)
    {
      assert NewForAt(tbl, t1, {v}, n);
      assert v in {v};
    }
  }

  lemma NewForMore(tbl: seq<int>, t1: seq<int>, t2: seq<int>, w: set<int>, u: set<int>, all: set<int>)
    requires NewFor(tbl, t1, w) && NewFor(t1, t2, u) && w <= all && u <= all
    ensures NewFor(tbl, t2, all)
  {
    forall n
      ensures NewForAt(tbl, t2, all, n)
    {
      assert NewForAt(tbl, t1, w, n) && NewForAt(t1, t2, u, n);
      NeededMore(w, all, n);
      NeededMore(u, all, n);
    }
  }

  lemma NeededMore(w: set<int>, u: set<int>, n: int)
    requires w <= u
    ensures NeededBy(w, n) ==> NeededBy(u, n)
  {
    if NeededBy(w, n) {
      var v :| v in w && (Mid(v) == n || Low(v) == n);
      assert v in u;
    }
  }

  // ---------------------------------------------------------------- counting frames

  lemma NoElements(s: set<int>)
    requires forall x :: x !in s
    ensures s == {}
  {
    var none: set<int> := {};
    assert forall x :: x in s <==> x in none;
    assert s == none;
  }

  lemma Element(s: set<int>) returns (x: int)
    requires s != {}
    ensures x in s
  {
    if forall y :: y !in s {
      NoElements(s);
      assert false;
    }
    x :| x in s;
  }

  ghost function FreeSet(use: seq<Use>): set<int> { set f | 0 <= f < |use| && use[f] == Free }

  /** The free list is as long as there are free frames. */
  lemma FreeListSize(use: seq<Use>, free: seq<int>)
    requires FreeOk(use, free)
    ensures |free| == |FreeSet(use)|
  {
    ListSize(free, FreeSet(use));
  }

  lemma {:induction false} ListSize(list: seq<int>, s: set<int>)
    requires forall i, j | 0 <= i < j < |list| :: list[i] != list[j]
    requires (forall i | 0 <= i < |list| :: list[i] in s) && forall x | x in s :: x in list
    ensures |list| == |s|
    decreases |list|
  {
    if list == [] {
      NoElements(s);
    } else {
      var x, rest := list[0], list[1..];
      assert list == [x] + rest;
      forall y | y in s - {x}
        ensures y in rest
      {
      }
      ListSize(rest, s - {x});
    }
  }

  /** Frames with different labels are as many as their labels. */
  lemma {:induction false} LabelCount(fs: set<int>, tag: seq<int>, ls: set<int>)
    requires forall f | f in fs :: 0 <= f < |tag| && tag[f] in ls
    requires forall f, g | f in fs && g in fs && tag[f] == tag[g] :: f == g
    requires forall l | l in ls :: exists f :: f in fs && tag[f] == l
    ensures |fs| == |ls|
    decreases fs
  {
    if fs == {} {
      NoElements(ls);
    } else {
      var f := Element(fs);
      forall l | l in ls - {tag[f]}
        ensures exists g :: g in fs - {f} && tag[g] == l
      {
        var g :| g in fs && tag[g] == l;
        assert g in fs - {f};
      }
      LabelCount(fs - {f}, tag, ls - {tag[f]});
    }
  }

  ghost function NewTables(tbl: seq<int>, tbl': seq<int>): set<int> {
    set n | 0 <= n < |tbl| && n < |tbl'| && tbl[n] == 0 && tbl'[n] != 0
  }

  /** The frames that became tables of p. */
  ghost function TableFrames(p: int, use: seq<Use>, use': seq<Use>): set<int> {
    set f | 0 <= f < |use| && f < |use'| && use[f] == Free && IsTable(use'[f], p)
  }

  ghost function LeafFrames(p: int, use: seq<Use>, use': seq<Use>): set<int> {
    set f | 0 <= f < |use| && f < |use'| && use[f] == Free && IsLeaf(use'[f], p)
  }

  function Label(u: Use): int { if u.Table? then u.n else if u.Leaf? then u.v else 0 }

  function Labels(use: seq<Use>): seq<int> { seq(|use|, f requires 0 <= f < |use| => Label(use[f])) }

  /** Frames keep their use or go from free to tables and pages of p. */
  ghost predicate OnlyTaken(p: int, use: seq<Use>, use': seq<Use>) {
    |use'| == |use| && forall f | 0 <= f < |use| ::
      use'[f] == use[f] || (use[f] == Free && (IsTable(use'[f], p) || IsLeaf(use'[f], p)))
  }

  lemma NewTableCount(mem: seq<Page>, use: seq<Use>, tbl: seq<int>, mem': seq<Page>, use': seq<Use>, tbl': seq<int>,
                      p: int)
    requires TablesOk(mem, use, p, tbl) && TablesOk(mem', use', p, tbl') && OnlyTaken(p, use, use')
    ensures |TableFrames(p, use, use')| == |NewTables(tbl, tbl')|
    ensures forall n | 0 <= n < NODES && tbl[n] != 0 :: tbl'[n] != 0
  {
    var fs, tag, ls := TableFrames(p, use, use'), Labels(use'), NewTables(tbl, tbl');
    forall n | 0 <= n < NODES && tbl[n] != 0
      ensures tbl'[n] == tbl[n]
    {
      assert use'[tbl[n]] == Table(p, n);
    }
    forall f | f in fs
      ensures tag[f] in ls
    {
      var n := use'[f].n;
      assert tbl'[n] == f && f != 0;
    }
    forall n | n in ls
      ensures exists f :: f in fs && tag[f] == n
    {
      var f := tbl'[n];
      assert use'[f] == Table(p, n) && use[f] != Table(p, n);
      assert f in fs;
    }
    LabelCount(fs, tag, ls);
  }

  /** Pages that are mapped in the new state and not in the old one. */
  ghost function NewPages(mem: seq<Page>, tbl: seq<int>, mem': seq<Page>, tbl': seq<int>): set<int> {
    set v {:trigger Look(mem', tbl', v)} | 0 <= v < USERPAGES
      && !IsValid(Look(mem, tbl, v)) && IsValid(Look(mem', tbl', v))
  }

  lemma NewPageCount(mem: seq<Page>, use: seq<Use>, tbl: seq<int>, mem': seq<Page>, use': seq<Use>, tbl': seq<int>,
                     p: int)
    requires LeavesOk(mem, use, p, tbl) && LeavesOk(mem', use', p, tbl') && OnlyTaken(p, use, use')
    ensures |LeafFrames(p, use, use')| == |NewPages(mem, tbl, mem', tbl')|
  {
    var fs, tag, ls := LeafFrames(p, use, use'), Labels(use'), NewPages(mem, tbl, mem', tbl');
    forall v | 0 <= v < USERPAGES && IsValid(Look(mem, tbl, v))
      ensures FrameOf(Look(mem', tbl', v)) == FrameOf(Look(mem, tbl, v))
    {
      assert use'[FrameOf(Look(mem, tbl, v))] == Leaf(p, v);
    }
    forall f | f in fs
      ensures tag[f] in ls
    {
      var v := use'[f].v;
      assert IsValid(Look(mem', tbl', v)) && FrameOf(Look(mem', tbl', v)) == f;
    }
    forall v | v in ls
      ensures exists f :: f in fs && tag[f] == v
    {
      var f := FrameOf(Look(mem', tbl', v));
      assert use'[f] == Leaf(p, v) && use[f] != Leaf(p, v);
      assert f in fs;
    }
    LabelCount(fs, tag, ls);
  }

  /** Where the frames went: into new pages and new tables. */
  lemma FramesGone(mem: seq<Page>, use: seq<Use>, free: seq<int>, tbl: seq<int>, mem': seq<Page>, use': seq<Use>,
                   free': seq<int>, tbl': seq<int>, p: int)
    requires PtOk(mem, use, p, tbl) && PtOk(mem', use', p, tbl') && OnlyTaken(p, use, use')
    requires FreeOk(use, free) && FreeOk(use', free')
    ensures |free| == |free'| + |NewPages(mem, tbl, mem', tbl')| + |NewTables(tbl, tbl')|
    ensures forall n | 0 <= n < NODES && tbl[n] != 0 :: tbl'[n] != 0
  {
    FreeListSize(use, free);
    FreeListSize(use', free');
    NewTableCount(mem, use, tbl, mem', use', tbl', p);
    NewPageCount(mem, use, tbl, mem', use', tbl', p);
    FreeSplit(p, use, use');
  }

  lemma FreeSplit(p: int, use: seq<Use>, use': seq<Use>)
    requires OnlyTaken(p, use, use')
    ensures |FreeSet(use)| == |FreeSet(use')| + |LeafFrames(p, use, use')| + |TableFrames(p, use, use')|
  {
    var a, b, c := FreeSet(use'), LeafFrames(p, use, use'), TableFrames(p, use, use');
    forall f
      ensures f in FreeSet(use) <==> f in a || f in b || f in c
    {
    }
    ThreeParts(FreeSet(use), a, b, c);
  }

  lemma ThreeParts(s: set<int>, a: set<int>, b: set<int>, c: set<int>)
    requires a !! b && a !! c && b !! c && forall x :: x in s <==> x in a || x in b || x in c
    ensures |s| == |a| + |b| + |c|
  {
    var t := a + b + c;
    assert forall x :: x in s <==> x in t;
    assert s == t;
    assert (a + b) !! c;
  }

  // ---------------------------------------------------------------- enough frames, or too few

  /** From (mem, use, free, tbl) to the primed state the pages w were mapped to new frames. */
  ghost predicate Took(mem: seq<Page>, use: seq<Use>, free: seq<int>, tbl: seq<int>, mem': seq<Page>, use': seq<Use>,
                       free': seq<int>, tbl': seq<int>, p: int, w: set<int>) {
    && PtOk(mem, use, p, tbl) && PtOk(mem', use', p, tbl') && OnlyTaken(p, use, use')
    && FreeOk(use, free) && FreeOk(use', free') && NewPages(mem, tbl, mem', tbl') == w
  }

  lemma CardLess(s: set<int>, t: set<int>)
    requires s <= t
    ensures |s| <= |t| && (forall x | x in t && x !in s :: |s| < |t|)
  {
    assert t == s + (t - s);
    forall x | x in t && x !in s
      ensures |s| < |t|
    {
      assert x in t - s;
    }
  }

  /** If a frame or a table for page v is missing as well, the frames did not suffice. */
  lemma TooFew(mem: seq<Page>, use: seq<Use>, free: seq<int>, tbl: seq<int>, mem': seq<Page>, use': seq<Use>,
               free': seq<int>, tbl': seq<int>, p: int, w: set<int>, v: int)
    requires Took(mem, use, free, tbl, mem', use', free', tbl', p, w) && NewFor(tbl, tbl', w + {v})
    requires v !in w && 0 <= v < USERPAGES && 0 <= Low(v) < NODES
    requires |free'| <= 1 && (|free'| == 1 ==> tbl'[Low(v)] == 0)
    ensures |free| < FramesFor(tbl, w + {v})
  {
    FramesGone(mem, use, free, tbl, mem', use', free', tbl', p);
    var made, need := NewTables(tbl, tbl'), MissingFor(tbl, w + {v});
    forall n | n in made
      ensures n in need
    {
      assert NewForAt(tbl, tbl', w + {v}, n);
    }
    CardLess(made, need);
    assert v in w + {v} && NeededBy(w + {v}, Low(v));
    assert |free'| == 1 ==> Low(v) in need && Low(v) !in made;
  }

  /** A mapped page has its tables. */
  lemma TablesExist(mem: seq<Page>, tbl: seq<int>, v: int)
    requires Tree(mem, tbl) && 0 <= v < SPAN && IsValid(Look(mem, tbl, v))
    ensures 0 < Mid(v) < NODES && 0 < Low(v) < NODES && tbl[Mid(v)] != 0 && tbl[Low(v)] != 0
  {
    Path(v);
  }

  /** If nothing is missing, exactly the needed frames are gone. */
  lemma JustEnough(mem: seq<Page>, use: seq<Use>, free: seq<int>, tbl: seq<int>, mem': seq<Page>, use': seq<Use>,
                   free': seq<int>, tbl': seq<int>, p: int, w: set<int>)
    requires Took(mem, use, free, tbl, mem', use', free', tbl', p, w) && NewFor(tbl, tbl', w)
    ensures |free'| + FramesFor(tbl, w) == |free|
  {
    FramesGone(mem, use, free, tbl, mem', use', free', tbl', p);
    var made, need := NewTables(tbl, tbl'), MissingFor(tbl, w);
    forall n
      ensures n in made <==> n in need
    {
      assert NewForAt(tbl, tbl', w, n);
      if n in need {
        var v :| v in w && (Mid(v) == n || Low(v) == n);
        TablesExist(mem', tbl', v);
      }
    }
    assert made == need;
  }

  /** Fewer pages need no more frames. */
  lemma FramesMonotone(tbl: seq<int>, w: set<int>, u: set<int>)
    requires w <= u
    ensures FramesFor(tbl, w) <= FramesFor(tbl, u)
  {
    forall n | n in MissingFor(tbl, w)
      ensures n in MissingFor(tbl, u)
    {
      NeededMore(w, u, n);
    }
    CardLess(w, u);
    CardLess(MissingFor(tbl, w), MissingFor(tbl, u));
  }

  ghost predicate IsRange(w: set<int>, lo: int, hi: int) { forall v :: v in w <==> lo <= v < hi }

  /** Pages lo .. hi - 1. */
  ghost function PageSet(lo: int, hi: int): set<int> { set v | lo <= v < hi && Within(v, lo, hi) }

  predicate Within(v: int, lo: int, hi: int) { lo <= v < hi }

  lemma PageSetIs(lo: int, hi: int)
    ensures IsRange(PageSet(lo, hi), lo, hi)
  {
    forall v
      ensures v in PageSet(lo, hi) <==> lo <= v < hi
    {
      assert Within(v, lo, hi) <==> lo <= v < hi;
    }
  }

  lemma {:induction false} PageSetSize(lo: int, hi: int)
    requires lo <= hi
    ensures |PageSet(lo, hi)| == hi - lo
    decreases hi - lo
  {
    PageSetIs(lo, hi);
    if lo < hi {
      PageSetSize(lo, hi - 1);
      OnePageMore(lo, hi - 1);
    } else {
      NoElements(PageSet(lo, hi));
    }
  }

  /** The pages below hi that are mapped. */
  ghost function ValidPages(mem: seq<Page>, tbl: seq<int>, hi: int): set<int> {
    set v {:trigger Look(mem, tbl, v)} | 0 <= v < hi && IsValid(Look(mem, tbl, v))
  }

  lemma OnePageMore(lo: int, hi: int)
    requires lo <= hi
    ensures PageSet(lo, hi + 1) == PageSet(lo, hi) + {hi} && hi !in PageSet(lo, hi)
  {
    PageSetIs(lo, hi);
    PageSetIs(lo, hi + 1);
    forall v
      ensures v in PageSet(lo, hi + 1) <==> v in PageSet(lo, hi) + {hi}
    {
    }
  }

  lemma RangeNewFor(tbl: seq<int>, t1: seq<int>, t2: seq<int>, lo: int, hi: int)
    requires lo <= hi && NewFor(tbl, t1, PageSet(lo, hi)) && NewFor(t1, t2, {hi})
    ensures NewFor(tbl, t2, PageSet(lo, hi + 1))
  {
    OnePageMore(lo, hi);
    NewForMore(tbl, t1, t2, PageSet(lo, hi), {hi}, PageSet(lo, hi + 1));
  }

  lemma RangeMonotone(tbl: seq<int>, lo: int, mid: int, hi: int)
    requires lo <= mid <= hi
    ensures FramesFor(tbl, PageSet(lo, mid)) <= FramesFor(tbl, PageSet(lo, hi))
  {
    PageSetIs(lo, mid);
    PageSetIs(lo, hi);
    forall v | v in PageSet(lo, mid)
      ensures v in PageSet(lo, hi)
    {
    }
    FramesMonotone(tbl, PageSet(lo, mid), PageSet(lo, hi));
  }

  lemma OneRange(w: set<int>, v: int)
    requires IsRange(w, v, v + 1)
    ensures w == {v}
  {
    forall u
      ensures u in w <==> u in {v}
    {
    }
  }
}
