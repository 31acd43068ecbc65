/** Processes that are loaded on demand: faults, stores, evictions and forks in any order.
    Where the contents of a page come from is decided by kernel/lazy.c and its page records. */
module LazyProcess {
  import opened LazyLoad

  datatype State = Unmapped | Resident | Swapped

  /** One of the 512 page records; `page` need not be the page that uses it, `age` is its seq. */
  datatype Rec = Rec(page: int, state: State, dirty: bool, slot: int, age: int)

  /** A process. `num` is num_pages, `next` next_fifo_seq, `swap` the contents of the swap
      file by slot; `touched` are the mapped pages that were written to or read back from
      swap, `stored` all pages that were ever written to. */
  datatype Proc = Proc(layout: Layout, file: bool, num: int, sz: int, recs: seq<Rec>, next: int,
                       mem: map<int, seq<int>>, swap: map<int, seq<int>>, touched: set<int>, stored: set<int>)

  /** What happens within a process: a fault, which evicts the page of record `victim` to
      `slot` first if memory is short (victim is negative if it is not), or a store. */
  datatype Act = Fault(p: int, write: bool, victim: int, slot: int) | Store(p: int, k: int, v: int)

  function LazyPage(l: Layout, f: File, p: int): seq<int>
    requires Sized(l)
  {
    seq(4096, k => LazyByte(l, f, p, k))
  }

  function ZeroPage(): seq<int> { seq(4096, _ => 0) }

  predicate InText(l: Layout, p: int) { l.textStart <= 4096 * p < l.textEnd }

  predicate Fits(q: Proc) { Sized(q.layout) && |q.recs| == 512 && 0 <= q.num <= 512 }

  /** What a fault loads, ... */
  function LoadPage(f: File, q: Proc, p: int): seq<int>
    requires Fits(q)
  {
    if q.file then LazyPage(q.layout, f, p) else ZeroPage()
  }

  /** ... or reads back. */
  function SwapPage(q: Proc, slot: int): seq<int> { if slot in q.swap then q.swap[slot] else ZeroPage() }

  predicate ToSwap(q: Proc, r: Rec) { r.dirty || !InText(q.layout, r.page) }

  /** lazy_evict_page with victim record i: uvmunmap is told to remove 4096 pages where one is
      meant. */
  function EvictOut(q: Proc, i: int, slot: int): Proc
    requires Fits(q) && 0 <= i < 512
  {
    var r := q.recs[i];
    var mem := map x | x in q.mem && !(r.page <= x < r.page + 4096) :: q.mem[x];
    if ToSwap(q, r) then
      q.(mem := mem, swap := if r.page in q.mem then q.swap[slot := q.mem[r.page]] else q.swap,
         recs := q.recs[i := r.(state := Swapped, slot := slot)])
    else q.(mem := mem, recs := q.recs[i := r.(state := Unmapped, slot := -1)])
  }

  /** FIFO: the first resident record with the least sequence number. */
  predicate Oldest(q: Proc, i: int)
    requires Fits(q) && 0 <= i < 512
  {
    q.recs[i].state == Resident && forall j | 0 <= j < 512 && q.recs[j].state == Resident ::
      q.recs[i].age < q.recs[j].age || (q.recs[i].age == q.recs[j].age && i <= j)
  }

  /** What alloc_swap_slot promises. */
  predicate FreeSlot(q: Proc, slot: int) {
    forall e | 0 <= e < |q.recs| && q.recs[e].state == Swapped :: q.recs[e].slot != slot
  }

  /** Making room: nothing to do, an eviction, or no success. */
  predicate HasRoom(q: Proc, victim: int, slot: int)
    requires Fits(q)
  {
    victim < 0 || (victim < 512 && Oldest(q, victim) && FreeSlot(q, slot))
  }

  function MakeRoom(q: Proc, victim: int, slot: int): Proc
    requires Fits(q) && HasRoom(q, victim, slot)
  {
    if victim < 0 then q else EvictOut(q, victim, slot)
  }

  /** lazy_handle_fault on a page that is not mapped: the record is looked at before room is
      made, and swapping in does not set its address. */
  function FaultIn(f: File, q: Proc, p: int, write: bool, victim: int, slot: int): Proc
    requires Fits(q) && HasRoom(q, victim, slot)
  {
    var e, q1 := p % 512, MakeRoom(q, victim, slot);
    if q.recs[e].state == Swapped then
      q1.(mem := q1.mem[p := SwapPage(q1, q1.recs[e].slot)], touched := q1.touched + {p},
          recs := q1.recs[e := q1.recs[e].(state := Resident, slot := -1, age := q1.next)], next := q1.next + 1)
    else if Classify(q.layout, 4096 * p) == Invalid then q
    else
      q1.(mem := q1.mem[p := LoadPage(f, q1, p)], touched := q1.touched - {p},
          recs := q1.recs[e := Rec(p, Resident, write, -1, q1.next)], next := q1.next + 1)
  }

  /** Text pages are mapped without write permission. */
  function Do(f: File, q: Proc, a: Act): Proc
    requires Fits(q)
  {
    match a
    case Fault(p, write, victim, slot) =>
      if p < 0 || p in q.mem || !HasRoom(q, victim, slot) then q else FaultIn(f, q, p, write, victim, slot)
    case Store(p, k, v) =>
      if p in q.mem && 0 <= k < |q.mem[p]| && !InText(q.layout, p)
      then q.(mem := q.mem[p := q.mem[p][k := v]], touched := q.touched + {p}, stored := q.stored + {p})
      else q
  }

  /** The record of a new process. */
  const FRESH: Rec := Rec(0, Unmapped, false, -1, 0)

  /** kfork: uvmcopy copies the mapped pages below sz; of the page records the first num are
      copied over the child's fresh ones. */
  function Kfork(q: Proc): Proc
    requires Fits(q)
  {
    q.(recs := q.recs[..q.num] + seq(512 - q.num, _ => FRESH),
       mem := map x | x in q.mem && 4096 * x < q.sz :: q.mem[x], swap := map[])
  }

  /** What kexec makes of the records: those of the program's pages get their addresses. */
  ghost predicate ExecRecs(segs: seq<Segment>, recs: seq<Rec>, recs': seq<Rec>) {
    && |recs| == |recs'| == 512
    && (forall i, p {:trigger InSegment(segs[i], p)} | 0 <= i < |segs| && InSegment(segs[i], p) ::
          recs'[p % 512] == recs[p % 512].(page := p, state := Unmapped))
    && (forall e | 0 <= e < 512 && (forall i | 0 <= i < |segs| :: !UsesEntry(segs[i], e)) :: recs'[e] == recs[e])
  }

  function StackPage(l: Layout): int { StackTop(l) / 4096 - 1 }

  /** A process right after kexec has left it with these records: one stack page is mapped,
      and its record keeps whatever address it had. */
  function Started(l: Layout, stack: seq<int>, recs: seq<Rec>, next: int, swap: map<int, seq<int>>): Proc
    requires |recs| == 512
  {
    var p := StackPage(l);
    var e := p % 512;
    Proc(l, true, 0, StackTop(l), recs[e := recs[e].(state := Resident, dirty := false, age := next)], next + 1,
         map[p := stack], swap, {p}, {p})
  }

  datatype Event = At(i: int, a: Act) | Fork(i: int)

  predicate Shaped(qs: seq<Proc>) { forall i | 0 <= i < |qs| :: Fits(qs[i]) }

  function Step(f: File, qs: seq<Proc>, e: Event): seq<Proc>
    requires Shaped(qs)
  {
    if !(0 <= e.i < |qs|) then qs
    else if e.At? then qs[e.i := Do(f, qs[e.i], e.a)]
    else qs + [Kfork(qs[e.i])]
  }

  // ---------------------------------------------------------------- the invariant

  /** The bytes of page p of segment s are found, or are all zero anyway. */
  ghost predicate Loads(f: File, segs: seq<Segment>, s: Segment, p: int) {
    Found(segs, s, p) || forall k | 0 <= k < 4096 :: EagerByte(f, s, p, k) == 0
  }

  ghost predicate PageOk(f: File, segs: seq<Segment>, p: int, page: seq<int>) {
    forall i {:trigger InSegment(segs[i], p)} | 0 <= i < |segs| && InSegment(segs[i], p)
        && Loads(f, segs, segs[i], p) ::
      page == EagerPage(f, segs[i], p)
  }

  /** The process runs the program, and each mapped page that was not touched is as an eager
      loader would have left it. */
  ghost predicate ProcOk(f: File, segs: seq<Segment>, l: Layout, q: Proc) {
    && q.layout == l && Fits(q) && q.file && q.num == 0 && l.sz <= q.sz
    && (forall p | p in q.mem && p !in q.touched :: 0 <= p && PageOk(f, segs, p, q.mem[p]))
  }

  ghost predicate Program(segs: seq<Segment>, l: Layout) {
    Scanned(segs, |segs|, l) && PagesApart(segs) && forall i | 0 <= i < |segs| :: Unsigned(segs[i])
  }

  lemma LoadedPageOk(f: File, segs: seq<Segment>, l: Layout, p: int)
    requires Program(segs, l) && 0 <= p
    ensures PageOk(f, segs, p, LazyPage(l, f, p))
  {
    forall i | 0 <= i < |segs| && InSegment(segs[i], p) && Loads(f, segs, segs[i], p)
      ensures LazyPage(l, f, p) == EagerPage(f, segs[i], p)
    {
      LazyEqualsEagerIff(segs, l, f, i, p);
    }
  }

  lemma RoomKeepsOk(f: File, segs: seq<Segment>, l: Layout, q: Proc, victim: int, slot: int)
    requires ProcOk(f, segs, l, q) && HasRoom(q, victim, slot)
    ensures ProcOk(f, segs, l, MakeRoom(q, victim, slot))
  {
  }

  lemma ActKeepsOk(f: File, segs: seq<Segment>, l: Layout, q: Proc, a: Act)
    requires Program(segs, l) && ProcOk(f, segs, l, q)
    ensures ProcOk(f, segs, l, Do(f, q, a))
  {
    if a.Fault? && a.p >= 0 && a.p !in q.mem && HasRoom(q, a.victim, a.slot) {
      RoomKeepsOk(f, segs, l, q, a.victim, a.slot);
      LoadedPageOk(f, segs, l, a.p);
    }
  }

  lemma ForkKeepsOk(f: File, segs: seq<Segment>, l: Layout, q: Proc)
    requires ProcOk(f, segs, l, q)
    ensures ProcOk(f, segs, l, Kfork(q))
  {
  }

  lemma StartedOk(f: File, segs: seq<Segment>, l: Layout, stack: seq<int>, recs: seq<Rec>, next: int,
                  swap: map<int, seq<int>>)
    requires Program(segs, l) && 0 <= l.sz && |recs| == 512
    ensures ProcOk(f, segs, l, Started(l, stack, recs, next, swap))
  {
  }

  // ---------------------------------------------------------------- every run

  ghost predicate AllOk(f: File, segs: seq<Segment>, l: Layout, qs: seq<Proc>) {
    forall i | 0 <= i < |qs| :: ProcOk(f, segs, l, qs[i])
  }

  ghost predicate Run(f: File, segs: seq<Segment>, l: Layout, ss: seq<seq<Proc>>, es: seq<Event>) {
    && |ss| == |es| + 1 && Program(segs, l) && AllOk(f, segs, l, ss[0])
    && (forall k | 0 <= k < |es| :: Shaped(ss[k]) && ss[k + 1] == Step(f, ss[k], es[k]))
  }

  lemma StepKeepsOk(f: File, segs: seq<Segment>, l: Layout, qs: seq<Proc>, e: Event)
    requires Program(segs, l) && AllOk(f, segs, l, qs)
    ensures AllOk(f, segs, l, Step(f, qs, e))
  {
    if 0 <= e.i < |qs| {
      if e.At? {
        ActKeepsOk(f, segs, l, qs[e.i], e.a);
      } else {
        ForkKeepsOk(f, segs, l, qs[e.i]);
      }
    }
  }

  lemma {:induction false} RunKeepsOk(f: File, segs: seq<Segment>, l: Layout, ss: seq<seq<Proc>>, es: seq<Event>,
                                      k: int)
    requires Run(f, segs, l, ss, es) && 0 <= k < |ss|
    ensures AllOk(f, segs, l, ss[k])
  {
    if k > 0 {
      RunKeepsOk(f, segs, l, ss, es, k - 1);
      StepKeepsOk(f, segs, l, ss[k - 1], es[k - 1]);
    }
  }

  /** Whatever faults, stores, evictions and forks have happened, in any order: a program page
      that a process, parent or child, has mapped and neither written nor read back from swap
      holds exactly the bytes of the file and then zeros. */
  lemma UntouchedPagesEager(f: File, segs: seq<Segment>, l: Layout, ss: seq<seq<Proc>>, es: seq<Event>, k: int, j: int,
                            i: int, p: int)
    requires Run(f, segs, l, ss, es) && 0 <= k < |ss| && 0 <= j < |ss[k]| && 0 <= i < |segs|
    requires p in ss[k][j].mem && p !in ss[k][j].touched && InSegment(segs[i], p) && Loads(f, segs, segs[i], p)
    ensures ss[k][j].mem[p] == EagerPage(f, segs[i], p)
  {
    RunKeepsOk(f, segs, l, ss, es, k);
    assert ProcOk(f, segs, l, ss[k][j]);
    assert PageOk(f, segs, p, ss[k][j].mem[p]);
  }

  // ---------------------------------------------------------------- what a process sees

  /** What page x holds for the process, mapped or not. */
  function Seen(f: File, q: Proc, x: int): seq<int>
    requires Fits(q)
  {
    if x in q.mem then q.mem[x]
    else if q.recs[x % 512].state == Swapped then SwapPage(q, q.recs[x % 512].slot)
    else LoadPage(f, q, x)
  }

  /** The fault handler would accept a fault on page x. */
  predicate Reachable(q: Proc, x: int)
    requires Fits(q)
  {
    0 <= x && (x in q.mem || q.recs[x % 512].state == Swapped || Classify(q.layout, 4096 * x) != Invalid)
  }

  /** With memory at hand a fault maps what is seen, and no page with another record, mapped
      or not, changes. */
  lemma FaultShows(f: File, q: Proc, p: int, write: bool, x: int)
    requires Fits(q) && Reachable(q, p)
    ensures var q' := Do(f, q, Fault(p, write, -1, 0));
      && Fits(q') && p in q'.mem && q'.mem[p] == Seen(f, q, p)
      && (x in q.mem || x % 512 != p % 512 ==> Seen(f, q', x) == Seen(f, q, x))
  {
  }

  /** What page x will be for the process if the eviction of record i unmaps it. */
  function Replaced(f: File, q: Proc, i: int, slot: int, x: int): seq<int>
    requires Fits(q) && 0 <= i < 512
  {
    var r := q.recs[i];
    if x % 512 == i then
      if !ToSwap(q, r) then LoadPage(f, q, x)
      else if r.page in q.mem then q.mem[r.page] else SwapPage(q, slot)
    else if q.recs[x % 512].state == Swapped then SwapPage(q, q.recs[x % 512].slot)
    else LoadPage(f, q, x)
  }

  /** The eviction of record i takes from the process what it had in page x: x is one of the
      4096 pages that are unmapped, or not mapped but a user of the record, and will be
      something else. */
  predicate Loses(f: File, q: Proc, i: int, slot: int, x: int)
    requires Fits(q) && 0 <= i < 512
  {
    if x in q.mem then q.recs[i].page <= x < q.recs[i].page + 4096 && Replaced(f, q, i, slot, x) != q.mem[x]
    else x % 512 == i && Replaced(f, q, i, slot, x) != LoadPage(f, q, x)
  }

  /** An eviction leaves what the process has in page x as it was, if and only if it does not
      lose it. */
  lemma EvictKeepsIff(f: File, q: Proc, i: int, slot: int, x: int)
    requires Fits(q) && FreeSlot(q, slot) && 0 <= i < 512 && q.recs[i].state == Resident
    ensures Seen(f, EvictOut(q, i, slot), x) == Seen(f, q, x) <==> !Loses(f, q, i, slot, x)
  {
    var q' := EvictOut(q, i, slot);
    assert Fits(q') && LoadPage(f, q', x) == LoadPage(f, q, x);
    if x !in q'.mem && x % 512 != i {
      assert q'.recs[x % 512] == q.recs[x % 512];
    }
  }

  // ---------------------------------------------------------------- pages that are never stored to

  /** Page p of segment s, unless it was stored to, is seen as an eager loader would have left
      it. */
  ghost predicate SeenOk(f: File, s: Segment, q: Proc, p: int) {
    Fits(q) && (p !in q.stored ==> Seen(f, q, p) == EagerPage(f, s, p))
  }

  predicate Evicts(q: Proc, a: Act)
    requires Fits(q)
  {
    && a.Fault? && 0 <= a.p && a.p !in q.mem && 0 <= a.victim && HasRoom(q, a.victim, a.slot)
    && (q.recs[a.p % 512].state == Swapped || Classify(q.layout, 4096 * a.p) != Invalid)
  }

  /** The act loses nothing of page p: no eviction, or one that does not take the page away,
      or one for a page with the same record, which resets it. */
  predicate Safe(f: File, q: Proc, a: Act, p: int)
    requires Fits(q)
  {
    Evicts(q, a) ==> a.p % 512 == p % 512 || !Loses(f, q, a.victim, a.slot, p)
  }

  /** Page p is in a segment and its bytes are found. */
  ghost predicate ProgramPageAt(f: File, segs: seq<Segment>, i: int, p: int) {
    0 <= i < |segs| && InSegment(segs[i], p) && 0 <= p && Loads(f, segs, segs[i], p)
  }

  lemma LoadIsEager(f: File, segs: seq<Segment>, l: Layout, q: Proc, i: int, p: int)
    requires Program(segs, l) && Fits(q) && q.layout == l && q.file && ProgramPageAt(f, segs, i, p)
    ensures LoadPage(f, q, p) == EagerPage(f, segs[i], p)
  {
    LoadedPageOk(f, segs, l, p);
    assert InSegment(segs[i], p);
  }

  /** Exactly the unsafe acts take the eager contents of a program page away; a store to
      another page never does. */
  lemma ActKeepsSeenIff(f: File, segs: seq<Segment>, l: Layout, q: Proc, a: Act, i: int, p: int)
    requires Program(segs, l) && ProcOk(f, segs, l, q) && ProgramPageAt(f, segs, i, p)
    requires Seen(f, q, p) == EagerPage(f, segs[i], p) && (a.Store? ==> a.p != p)
    ensures Fits(Do(f, q, a))
    ensures Seen(f, Do(f, q, a), p) == EagerPage(f, segs[i], p) <==> Safe(f, q, a, p)
  {
    LoadIsEager(f, segs, l, q, i, p);
    if a.Fault? && 0 <= a.p && a.p !in q.mem && HasRoom(q, a.victim, a.slot) {
      FaultKeepsSeenIff(f, q, a, p);
    }
  }

  /** A fault on a page with another record changes what is seen in p by its eviction only, ... */
  lemma FaultElsewhere(f: File, q: Proc, x: int, write: bool, victim: int, slot: int, p: int)
    requires Fits(q) && HasRoom(q, victim, slot) && x !in q.mem && x % 512 != p % 512
    requires q.recs[x % 512].state == Swapped || Classify(q.layout, 4096 * x) != Invalid
    ensures var q' := FaultIn(f, q, x, write, victim, slot);
      Fits(q') && Seen(f, q', p) == Seen(f, MakeRoom(q, victim, slot), p)
  {
  }

  /** ... and one on a page with the same record leaves it as it was loaded. */
  lemma FaultOnRecord(f: File, q: Proc, x: int, write: bool, victim: int, slot: int, p: int)
    requires Fits(q) && HasRoom(q, victim, slot) && x !in q.mem && x % 512 == p % 512
    requires Seen(f, q, p) == LoadPage(f, q, p)
    ensures var q' := FaultIn(f, q, x, write, victim, slot); Fits(q') && Seen(f, q', p) == LoadPage(f, q, p)
  {
    var q1 := MakeRoom(q, victim, slot);
    assert LoadPage(f, q1, p) == LoadPage(f, q, p);
    if q.recs[x % 512].state == Swapped {
      assert q1.recs[x % 512] == q.recs[x % 512];
    }
  }

  lemma FaultKeepsSeenIff(f: File, q: Proc, a: Act, p: int)
    requires Fits(q) && Seen(f, q, p) == LoadPage(f, q, p)
    requires a.Fault? && 0 <= a.p && a.p !in q.mem && HasRoom(q, a.victim, a.slot)
    ensures Fits(Do(f, q, a)) && (Seen(f, Do(f, q, a), p) == LoadPage(f, q, p) <==> Safe(f, q, a, p))
  {
    if q.recs[a.p % 512].state == Swapped || Classify(q.layout, 4096 * a.p) != Invalid {
      if a.p % 512 == p % 512 {
        FaultOnRecord(f, q, a.p, a.write, a.victim, a.slot, p);
      } else {
        FaultElsewhere(f, q, a.p, a.write, a.victim, a.slot, p);
        if a.victim >= 0 {
          EvictKeepsIff(f, q, a.victim, a.slot, p);
        }
      }
    }
  }

  /** A child sees what its parent saw, or what is loaded. */
  lemma ForkKeepsSeen(f: File, segs: seq<Segment>, l: Layout, q: Proc, i: int, p: int)
    requires Program(segs, l) && ProcOk(f, segs, l, q) && ProgramPageAt(f, segs, i, p)
    requires Seen(f, q, p) == EagerPage(f, segs[i], p)
    ensures Fits(Kfork(q)) && Seen(f, Kfork(q), p) == EagerPage(f, segs[i], p)
  {
    LoadIsEager(f, segs, l, q, i, p);
    assert Bounded(l, segs[i]);
    assert Kfork(q).recs[p % 512] == FRESH;
  }

  lemma StartedSeen(f: File, segs: seq<Segment>, l: Layout, stack: seq<int>, recs0: seq<Rec>, recs: seq<Rec>,
                    next: int, swap: map<int, seq<int>>, i: int, p: int)
    requires Program(segs, l) && ExecRecs(segs, recs0, recs) && ProgramPageAt(f, segs, i, p)
    ensures Seen(f, Started(l, stack, recs, next, swap), p) == EagerPage(f, segs[i], p)
  {
    var q := Started(l, stack, recs, next, swap);
    LoadIsEager(f, segs, l, q, i, p);
    assert Bounded(l, segs[i]);
    assert recs[p % 512].state == Unmapped;
  }

  /** No eviction takes page p away from a process that has not stored to it. */
  ghost predicate SafeRun(f: File, ss: seq<seq<Proc>>, es: seq<Event>, p: int) {
    |ss| == |es| + 1 && forall m | 0 <= m < |es| :: SafeEvent(f, ss[m], es[m], p)
  }

  ghost predicate SafeEvent(f: File, qs: seq<Proc>, e: Event, p: int) {
    e.At? && 0 <= e.i < |qs| && Fits(qs[e.i]) && p !in qs[e.i].stored ==> Safe(f, qs[e.i], e.a, p)
  }

  ghost predicate AllSeen(f: File, s: Segment, qs: seq<Proc>, p: int) {
    forall j | 0 <= j < |qs| :: SeenOk(f, s, qs[j], p)
  }

  lemma EventKeepsSeen(f: File, segs: seq<Segment>, l: Layout, qs: seq<Proc>, e: Event, i: int, p: int)
    requires Program(segs, l) && AllOk(f, segs, l, qs) && ProgramPageAt(f, segs, i, p)
    requires AllSeen(f, segs[i], qs, p) && SafeEvent(f, qs, e, p)
    ensures AllSeen(f, segs[i], Step(f, qs, e), p)
  {
    if 0 <= e.i < |qs| {
      var q := qs[e.i];
      assert ProcOk(f, segs, l, q) && SeenOk(f, segs[i], q, p);
      if e.At? {
        StoredGrows(f, q, e.a);
        if p !in Do(f, q, e.a).stored {
          ActKeepsSeen(f, segs, l, q, e.a, i, p);
        }
      } else if p !in q.stored {
        ForkKeepsSeen(f, segs, l, q, i, p);
      }
    }
  }

  lemma StoredGrows(f: File, q: Proc, a: Act)
    requires Fits(q)
    ensures Fits(Do(f, q, a)) && q.stored <= Do(f, q, a).stored
  {
  }

  lemma ActKeepsSeen(f: File, segs: seq<Segment>, l: Layout, q: Proc, a: Act, i: int, p: int)
    requires Program(segs, l) && ProcOk(f, segs, l, q) && ProgramPageAt(f, segs, i, p)
    requires Seen(f, q, p) == EagerPage(f, segs[i], p) && Safe(f, q, a, p) && p !in Do(f, q, a).stored
    ensures Fits(Do(f, q, a)) && Seen(f, Do(f, q, a), p) == EagerPage(f, segs[i], p)
  {
    if a.Store? && a.p == p {
      assert Do(f, q, a) == q;
    } else {
      ActKeepsSeenIff(f, segs, l, q, a, i, p);
    }
  }

  lemma {:induction false} SafeRunSeen(f: File, segs: seq<Segment>, l: Layout, ss: seq<seq<Proc>>, es: seq<Event>,
                                       i: int, p: int, k: int)
    requires Run(f, segs, l, ss, es) && ProgramPageAt(f, segs, i, p) && SafeRun(f, ss, es, p) && 0 <= k < |ss|
    requires AllSeen(f, segs[i], ss[0], p)
    ensures AllSeen(f, segs[i], ss[k], p)
  {
    if k > 0 {
      SafeRunSeen(f, segs, l, ss, es, i, p, k - 1);
      RunKeepsOk(f, segs, l, ss, es, k - 1);
      assert SafeEvent(f, ss[k - 1], es[k - 1], p);
      EventKeepsSeen(f, segs, l, ss[k - 1], es[k - 1], i, p);
    }
  }

  /** A run that starts with one process as kexec leaves it. */
  ghost predicate RunFromExec(f: File, segs: seq<Segment>, l: Layout, ss: seq<seq<Proc>>, es: seq<Event>) {
    && |ss| == |es| + 1 && Program(segs, l) && 0 <= l.sz
    && (exists stack: seq<int>, recs0: seq<Rec>, recs: seq<Rec>, next: int, swap: map<int, seq<int>> ::
          ExecRecs(segs, recs0, recs) && ss[0] == [Started(l, stack, recs, next, swap)])
    && (forall k | 0 <= k < |es| :: Shaped(ss[k]) && ss[k + 1] == Step(f, ss[k], es[k]))
  }

  lemma ExecStart(f: File, segs: seq<Segment>, l: Layout, ss: seq<seq<Proc>>, es: seq<Event>, i: int, p: int)
    requires RunFromExec(f, segs, l, ss, es) && ProgramPageAt(f, segs, i, p)
    ensures Run(f, segs, l, ss, es) && AllSeen(f, segs[i], ss[0], p)
  {
    var stack: seq<int>, recs0: seq<Rec>, recs: seq<Rec>, next: int, swap: map<int, seq<int>> :|
      ExecRecs(segs, recs0, recs) && ss[0] == [Started(l, stack, recs, next, swap)];
    StartedOk(f, segs, l, stack, recs, next, swap);
    StartedSeen(f, segs, l, stack, recs0, recs, next, swap, i, p);
  }

  /** From kexec on, through any faults, stores, evictions and forks: as long as no eviction
      takes page p of the program away, every process that has not stored to it sees exactly
      the bytes of the file, then zeros, whether it has the page mapped, swapped out or not
      yet loaded. */
  lemma UnstoredPagesEager(f: File, segs: seq<Segment>, l: Layout, ss: seq<seq<Proc>>, es: seq<Event>, i: int, p: int,
                           k: int, j: int)
    requires RunFromExec(f, segs, l, ss, es) && ProgramPageAt(f, segs, i, p) && SafeRun(f, ss, es, p)
    requires 0 <= k < |ss| && 0 <= j < |ss[k]| && p !in ss[k][j].stored
    ensures Fits(ss[k][j]) && Seen(f, ss[k][j], p) == EagerPage(f, segs[i], p)
  {
    ExecStart(f, segs, l, ss, es, i, p);
    SafeRunSeen(f, segs, l, ss, es, i, p, k);
    assert SeenOk(f, segs[i], ss[k][j], p);
  }

  /** In particular in every run in which memory never gets short. */
  lemma EnoughMemoryEager(f: File, segs: seq<Segment>, l: Layout, ss: seq<seq<Proc>>, es: seq<Event>, i: int, p: int,
                          k: int, j: int)
    requires RunFromExec(f, segs, l, ss, es) && ProgramPageAt(f, segs, i, p)
    requires forall m | 0 <= m < |es| && es[m].At? && es[m].a.Fault? :: es[m].a.victim < 0
    requires 0 <= k < |ss| && 0 <= j < |ss[k]| && p !in ss[k][j].stored
    ensures Fits(ss[k][j]) && Seen(f, ss[k][j], p) == EagerPage(f, segs[i], p)
  {
    forall m | 0 <= m < |es|
      ensures SafeEvent(f, ss[m], es[m], p)
    {
    }
    UnstoredPagesEager(f, segs, l, ss, es, i, p, k, j);
  }

  // ---------------------------------------------------------------- what a child sees

  /** A forked child that touches page p finds what the parent finds when it touches it, if
      and only if the page is mapped, or its record is not that of a page swapped out with
      contents other than the file's: no record is copied, so the child loads the page. */
  lemma ChildSeesParentIff(f: File, segs: seq<Segment>, l: Layout, q: Proc, i: int, p: int, write: bool)
    requires Program(segs, l) && ProcOk(f, segs, l, q)
    requires 0 <= i < |segs| && InSegment(segs[i], p) && 0 <= p && Loads(f, segs, segs[i], p)
    ensures var parent, child := Do(f, q, Fault(p, write, -1, 0)), Do(f, Kfork(q), Fault(p, write, -1, 0));
      && p in parent.mem && p in child.mem
      && (child.mem[p] == parent.mem[p] <==>
          p in q.mem || q.recs[p % 512].state != Swapped
          || SwapPage(q, q.recs[p % 512].slot) == EagerPage(f, segs[i], p))
  {
    assert Bounded(l, segs[i]);
    ProgramPage(segs, l, i, p);
    LoadedPageOk(f, segs, l, p);
    var c := Kfork(q);
    assert c.recs[p % 512] == FRESH;
    assert p in c.mem <==> p in q.mem;
    FaultShows(f, q, p, write, p);
    FaultShows(f, c, p, write, p);
  }

  /** The same for every page, program, heap or stack: a child has exactly the pages that are
      mapped below sz, with their contents; of any other page it sees what the parent sees if
      and only if that is what is loaded. */
  lemma ForkSeesIff(f: File, q: Proc, x: int)
    requires Fits(q) && q.num == 0
    ensures var c := Kfork(q);
      && Fits(c) && c.layout == q.layout && c.file == q.file && c.sz == q.sz && c.stored == q.stored
      && (x in c.mem <==> x in q.mem && 4096 * x < q.sz)
      && (x in c.mem ==> c.mem[x] == q.mem[x])
      && (Seen(f, c, x) == Seen(f, q, x) <==>
          (x in q.mem && 4096 * x < q.sz) || Seen(f, q, x) == LoadPage(f, q, x))
  {
    assert Kfork(q).recs[x % 512] == FRESH;
  }
}
