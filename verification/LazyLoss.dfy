/** Runs in which evictions by kernel/lazy.c destroy what a process had: the program is two
    pages of data at offset 4096 of its file, and memory gets short once or twice. */
module LazyLoss {
  import opened LazyLoad
  import opened LazyProcess

  function TwoPages(): Segment { Segment(true, 0, 8192, 8192, 4096, false) }

  /** What kexec records about it; the stack is pages 2 and 3. */
  function TwoPagesLayout(): Layout {
    Layout(seq(512, e => if e < 2 then 4096 + 4096 * e else 0), seq(512, e => if e < 2 then 4096 else 0),
           NOWHERE, 0, 0, 8192, 8192)
  }

  function NewRecs(): seq<Rec> { seq(512, _ => FRESH) }

  function TwoPagesRecs(): seq<Rec> { seq(512, e => if e < 2 then FRESH.(page := e) else FRESH) }

  /** The pages of such a program are 0 and 1. */
  lemma TwoPagesApart(segs: seq<Segment>, s: Segment)
    requires segs == [s] && s.vaddr == 0 && s.memsz == 8192
    ensures PagesApart(segs) && forall p | InSegment(s, p) :: p == 0 || p == 1
  {
    forall p | InSegment(s, p)
      ensures p == 0 || p == 1
    {
    }
    CompactApart(segs, 0);
  }

  lemma TwoPagesRecorded(l: Layout, s: Segment, p: int)
    requires l == TwoPagesLayout() && s == TwoPages() && (p == 0 || p == 1)
    ensures Sized(l) && RecordedPage(l, s, p)
  {
  }

  lemma TwoPagesProgram(segs: seq<Segment>, s: Segment, l: Layout)
    requires segs == [s] && s == TwoPages() && l == TwoPagesLayout()
    ensures Program(segs, l)
  {
    TwoPagesApart(segs, s);
    OneDataEnd(segs, s);
    assert segs[..1] == segs && Accepted(s) && Bounded(l, s) && l.dataEnd == DataEnd(segs);
    forall i, p | 0 <= i < 1 && InSegment(segs[i], p)
      ensures RecordedPage(l, segs[i], p)
    {
      TwoPagesRecorded(l, s, p);
    }
  }

  lemma OneDataEnd(segs: seq<Segment>, s: Segment)
    requires segs == [s] && s.load && !s.exec && s.vaddr == 0 && 0 < s.memsz
    ensures DataEnd(segs) == s.memsz
  {
    assert segs[..0] == [] && DataEnd(segs[..0]) == 0;
  }

  lemma TwoPagesExec(segs: seq<Segment>)
    requires segs == [TwoPages()]
    ensures ExecRecs(segs, NewRecs(), TwoPagesRecs())
  {
    forall e | 0 <= e < 512 && (forall i | 0 <= i < |segs| :: !UsesEntry(segs[i], e))
      ensures TwoPagesRecs()[e] == NewRecs()[e]
    {
      assert !UsesEntry(segs[0], e);
      if e < 2 {
        assert InSegment(segs[0], e) && e % 512 == e;
      }
    }
  }

  lemma TwoPagesFound(f: File, segs: seq<Segment>)
    requires segs == [TwoPages()] && |f| > 4096
    ensures ProgramPageAt(f, segs, 0, 0) && EagerPage(f, segs[0], 0)[0] == f[4096]
  {
    OneDataFound(f, segs, TwoPages());
  }

  lemma OneDataFound(f: File, segs: seq<Segment>, s: Segment)
    requires segs == [s] && s.load && !s.exec && s.vaddr == 0 && 0 < s.memsz && 0 < s.filesz && 0 < s.off < |f|
    ensures ProgramPageAt(f, segs, 0, 0) && EagerPage(f, s, 0)[0] == f[s.off]
  {
    StartsWith(f, s, f[s.off]);
    OneDataEnd(segs, s);
  }

  function Begin(stack: seq<int>): Proc { Started(TwoPagesLayout(), stack, TwoPagesRecs(), 0, map[]) }

  /** The classification of the pages. */
  lemma TwoPagesKinds()
    ensures var l := TwoPagesLayout();
      && Sized(l) && StackPage(l) == 3 && Classify(l, 0) == Exec && Classify(l, 4096) == Exec
      && Classify(l, 8192) == Stack && Classify(l, 12288) == Stack
  {
  }

  /** Both pages have been loaded, for reading. */
  ghost predicate BothLoaded(f: File, stack: seq<int>, q: Proc) {
    && q.layout == TwoPagesLayout() && q.file && q.num == 0 && q.next == 3 && q.swap == map[] && q.stored == {3}
    && q.mem == map[3 := stack, 0 := LazyPage(q.layout, f, 0), 1 := LazyPage(q.layout, f, 1)]
    && |q.recs| == 512 && q.recs[0] == Rec(0, Resident, false, -1, 1) && q.recs[1] == Rec(1, Resident, false, -1, 2)
    && q.recs[3] == Rec(0, Resident, false, -1, 0) && forall e | 0 <= e < 512 && e != 0 && e != 1 && e != 3 ::
         q.recs[e] == FRESH
  }

  lemma LoadBoth(f: File, stack: seq<int>, q1: Proc, q2: Proc)
    requires Fits(Begin(stack)) && q1 == Do(f, Begin(stack), Fault(0, false, -1, 0))
    requires Fits(q1) && q2 == Do(f, q1, Fault(1, false, -1, 0))
    ensures BothLoaded(f, stack, q2)
  {
    TwoPagesKinds();
  }

  /** The stack's record is the oldest and says page 0: page 0 is saved under it, and every
      page is unmapped. */
  ghost predicate AllEvicted(q: Proc, page0: seq<int>, x: seq<int>) {
    && q.layout == TwoPagesLayout() && q.file && q.num == 0 && q.next == 4 && q.swap == map[0 := page0]
    && q.mem == map[2 := x] && |q.recs| == 512
    && q.recs[0] == Rec(0, Resident, false, -1, 1) && q.recs[1] == Rec(1, Resident, false, -1, 2)
    && q.recs[2] == Rec(2, Resident, false, -1, 3) && q.recs[3] == Rec(0, Swapped, false, 0, 0)
    && forall e | 4 <= e < 512 :: q.recs[e] == FRESH
  }

  lemma EvictAll(f: File, q: Proc, q': Proc)
    requires Fits(q) && q.layout == TwoPagesLayout() && q.file && q.num == 0 && q.next == 3 && q.swap == map[]
    requires q.mem.Keys == {0, 1, 3}
    requires q.recs[0] == Rec(0, Resident, false, -1, 1) && q.recs[1] == Rec(1, Resident, false, -1, 2)
    requires q.recs[3] == Rec(0, Resident, false, -1, 0)
    requires forall e | 0 <= e < 512 && e != 0 && e != 1 && e != 3 :: q.recs[e] == FRESH
    requires q' == Do(f, q, Fault(2, false, 3, 0))
    ensures AllEvicted(q', q.mem[0], LazyPage(q.layout, f, 2)) && q'.stored == q.stored
  {
    TwoPagesKinds();
    assert Oldest(q, 3) && FreeSlot(q, 0);
    var q1 := EvictOut(q, 3, 0);
    assert q1.mem == map[];
  }

  /** A store that is lost, and a stack that turns into page 0: from kexec, both pages are
      loaded, a 9 is stored into page 1, and the next fault finds no memory. */
  lemma EvictLosesStore(f: File, stack: seq<int>) returns (q1: Proc, q2: Proc, q: Proc, q': Proc)
    requires |f| == 12288 && f[8192] == 0
    ensures Goes(f, Begin(stack), Fault(0, false, -1, 0), q1) && Goes(f, q1, Fault(1, false, -1, 0), q2)
    ensures Goes(f, q2, Store(1, 0, 9), q) && Goes(f, q, Fault(2, false, 3, 0), q') && Fits(q')
    ensures |Seen(f, q, 1)| == |Seen(f, q', 1)| == 4096 && Seen(f, q, 1)[0] == 9 && Seen(f, q', 1)[0] == 0
    ensures Seen(f, q, 3) == stack && Seen(f, q', 3) == Seen(f, q, 0)
  {
    TwoPagesKinds();
    q1 := Do(f, Begin(stack), Fault(0, false, -1, 0));
    q2 := Do(f, q1, Fault(1, false, -1, 0));
    LoadBoth(f, stack, q1, q2);
    q := Do(f, q2, Store(1, 0, 9));
    q' := Do(f, q, Fault(2, false, 3, 0));
    EvictAll(f, q, q');
  }

  lemma EvictAgain(f: File, q3: Proc, page0: seq<int>) returns (q4: Proc, q5: Proc)
    requires Fits(q3) && AllEvicted(q3, page0, LazyPage(q3.layout, f, 2))
    ensures Goes(f, q3, FiveFaults()[3], q4) && Goes(f, q4, FiveFaults()[4], q5) && Fits(q5)
    ensures q4.stored == q3.stored && q5.stored == q3.stored
    ensures 3 in q5.mem && q5.mem[3] == page0 && 0 in q5.mem && q5.mem[0] == ZeroPage()
  {
    TwoPagesKinds();
    q4 := Do(f, q3, Fault(3, false, 0, 1));
    assert Oldest(q3, 0) && FreeSlot(q3, 1);
    assert q4.mem.Keys == {3} && q4.recs[0] == Rec(0, Swapped, false, 1, 1);
    q5 := Do(f, q4, Fault(0, false, -1, 0));
  }

  ghost predicate Goes(f: File, q: Proc, a: Act, q': Proc) { Fits(q) && q' == Do(f, q, a) }

  /** The states of one process, as a run. */
  lemma RunOfOne(f: File, segs: seq<Segment>, l: Layout, stack: seq<int>, recs0: seq<Rec>, recs: seq<Rec>,
                 qs: seq<Proc>, acts: seq<Act>, ss: seq<seq<Proc>>, es: seq<Event>)
    requires Program(segs, l) && 0 <= l.sz && ExecRecs(segs, recs0, recs) && |qs| == |acts| + 1
    requires qs[0] == Started(l, stack, recs, 0, map[])
    requires forall k | 0 <= k < |acts| :: Goes(f, qs[k], acts[k], qs[k + 1])
    requires |ss| == |qs| && forall k | 0 <= k < |ss| :: ss[k] == [qs[k]]
    requires |es| == |acts| && forall k | 0 <= k < |es| :: es[k] == At(0, acts[k])
    ensures RunFromExec(f, segs, l, ss, es)
  {
    assert ss[0] == [Started(l, stack, recs, 0, map[])];
    forall k | 0 <= k < |es|
      ensures Shaped(ss[k]) && ss[k + 1] == Step(f, ss[k], es[k])
    {
      assert ss[k] == [qs[k]] && ss[k + 1] == [qs[k + 1]];
    }
  }

  /** Five faults; the victims are the oldest resident records. */
  function FiveFaults(): seq<Act> {
    [Fault(0, false, -1, 0), Fault(1, false, -1, 0), Fault(2, false, 3, 0), Fault(3, false, 0, 1),
     Fault(0, false, -1, 0)]
  }

  lemma FiveStates(f: File, stack: seq<int>) returns (qs: seq<Proc>)
    ensures |qs| == 6 && qs[0] == Begin(stack)
    ensures forall k | 0 <= k < 5 :: Goes(f, qs[k], FiveFaults()[k], qs[k + 1])
    ensures qs[5].stored == {3} && 3 in qs[5].mem && qs[5].mem[3] == LazyPage(TwoPagesLayout(), f, 0)
    ensures 0 in qs[5].mem && qs[5].mem[0] == ZeroPage()
  {
    var q1, q2, q3 := ThreeStates(f, stack);
    var q4, q5 := EvictAgain(f, q3, LazyPage(TwoPagesLayout(), f, 0));
    qs := [Begin(stack), q1, q2, q3, q4, q5];
    Chained(f, qs, FiveFaults());
  }

  lemma Chained(f: File, qs: seq<Proc>, acts: seq<Act>)
    requires |qs| == 6 && |acts| == 5
    requires Goes(f, qs[0], acts[0], qs[1]) && Goes(f, qs[1], acts[1], qs[2]) && Goes(f, qs[2], acts[2], qs[3])
    requires Goes(f, qs[3], acts[3], qs[4]) && Goes(f, qs[4], acts[4], qs[5])
    ensures forall k | 0 <= k < 5 :: Goes(f, qs[k], acts[k], qs[k + 1])
  {
  }

  lemma ThreeStates(f: File, stack: seq<int>) returns (q1: Proc, q2: Proc, q3: Proc)
    ensures Goes(f, Begin(stack), FiveFaults()[0], q1) && Goes(f, q1, FiveFaults()[1], q2)
    ensures Goes(f, q2, FiveFaults()[2], q3) && Fits(q3) && q3.stored == {3}
    ensures AllEvicted(q3, LazyPage(TwoPagesLayout(), f, 0), LazyPage(TwoPagesLayout(), f, 2))
  {
    TwoPagesKinds();
    q1 := Do(f, Begin(stack), Fault(0, false, -1, 0));
    q2 := Do(f, q1, Fault(1, false, -1, 0));
    LoadBoth(f, stack, q1, q2);
    q3 := Do(f, q2, Fault(2, false, 3, 0));
    EvictAll(f, q2, q3);
  }

  /** A page that nobody has stored to and that is not what an eager loader would have left:
      page 0 is evicted twice, first under the stack's record and then, no longer mapped,
      under its own, so that it is read back from a slot that was never written. The stack
      page gets its bytes. */
  lemma UnstoredPageLost(f: File, stack: seq<int>, segs: seq<Segment>)
    returns (ss: seq<seq<Proc>>, es: seq<Event>)
    requires segs == [TwoPages()] && |f| > 4096 && f[4096] == 7
    ensures RunFromExec(f, segs, TwoPagesLayout(), ss, es) && ProgramPageAt(f, segs, 0, 0)
    ensures |ss[|es|]| == 1 && 0 in ss[|es|][0].mem && 3 in ss[|es|][0].mem && 0 !in ss[|es|][0].stored
    ensures EagerPage(f, segs[0], 0)[0] == 7 && ss[|es|][0].mem[0] == ZeroPage()
    ensures ss[|es|][0].mem[3] == EagerPage(f, segs[0], 0)
  {
    TwoPagesProgram(segs, TwoPages(), TwoPagesLayout());
    TwoPagesExec(segs);
    TwoPagesFound(f, segs);
    var qs := FiveStates(f, stack);
    LoadIsEager(f, segs, TwoPagesLayout(), qs[0], 0, 0);
    ss, es := seq(6, k requires 0 <= k < 6 => [qs[k]]), seq(5, k requires 0 <= k < 5 => At(0, FiveFaults()[k]));
    RunOfOne(f, segs, TwoPagesLayout(), stack, NewRecs(), TwoPagesRecs(), qs, FiveFaults(), ss, es);
  }
}
