/** kernel/virtio_disk.c against a device (sections 2.6 and 5.2 of Virtio 1.1). Driver
    methods are the critical sections under vdisk_lock, split where the code sleeps; the
    device's methods are its own steps. Any sequence of calls is an interleaving. */
module Virtio {

  /** avail->idx, used->idx and used_idx are unsigned 16-bit counters. */
  function U16(x: int): int { x % 0x1_0000 }

  /** A request: transfer buffer b to or from disk block blockno. */
  datatype Req = Req(b: int, write: bool, blockno: int)

  /** Where the request whose chain starts at a descriptor has got to. */
  datatype Phase = Idle | Posted | Taken | Done | Seen

  /** The descriptor table, the driver's bookkeeping and the command headers. addr[d] is a
      header number, a buffer number or a status slot number, as the chain demands. */
  datatype Table = Table(free: seq<bool>, next: seq<int>, more: seq<bool>, addr: seq<int>,
                         opWrite: seq<bool>, opBlock: seq<int>, infoB: seq<int>, status: seq<int>)

  ghost predicate Shape(t: Table) {
    |t.free| == 8 && |t.next| == 8 && |t.more| == 8 && |t.addr| == 8 && |t.opWrite| == 8 && |t.opBlock| == 8
        && |t.infoB| == 8 && |t.status| == 8
  }

  predicate In(d: int) { 0 <= d < 8 }

  /** Descriptor h heads the three-descriptor chain of request r; owner says so too. */
  ghost predicate Chain(t: Table, owner: seq<int>, h: int, r: Req)
    requires Shape(t) && |owner| == 8 && In(h)
  {
    && In(t.next[h]) && In(t.next[t.next[h]])
    && h != t.next[h] && h != t.next[t.next[h]] && t.next[h] != t.next[t.next[h]]
    && t.more[h] && t.more[t.next[h]] && !t.more[t.next[t.next[h]]]
    && owner[h] == h && owner[t.next[h]] == h && owner[t.next[t.next[h]]] == h
    && t.addr[h] == h && t.addr[t.next[h]] == r.b && t.addr[t.next[t.next[h]]] == h
    && t.opWrite[h] == r.write && t.opBlock[h] == r.blockno && t.infoB[h] == r.b
  }

  /** Chains are disjoint, and a descriptor is free exactly if it is in no chain. */
  ghost predicate TableOk(t: Table, owner: seq<int>, phase: seq<Phase>, req: seq<Req>) {
    && Shape(t) && |owner| == 8 && |phase| == 8 && |req| == 8
    && (forall d | 0 <= d < 8 :: t.free[d] <==> owner[d] == -1)
    && (forall d | 0 <= d < 8 && owner[d] != -1 :: In(owner[d]) && phase[owner[d]] != Idle
          && (d == owner[d] || d == t.next[owner[d]] || (In(t.next[owner[d]]) && d == t.next[t.next[owner[d]]])))
    && (forall h | 0 <= h < 8 && phase[h] != Idle :: Chain(t, owner, h, req[h]))
    && (forall h | 0 <= h < 8 && phase[h] == Done :: t.status[h] == 0)
    && (forall g, h | 0 <= g < h < 8 && phase[g] != Idle && phase[h] != Idle :: req[g].b != req[h].b)
  }

  /** The entries from lo on of a history, in a ring of eight. */
  ghost predicate InRing(ring: seq<int>, hist: seq<int>, lo: int) {
    |ring| == 8 && 0 <= lo <= |hist| && forall k | lo <= k < |hist| :: ring[k % 8] == hist[k]
  }

  /** The entries from lo on are exactly the heads in phase x, each once. */
  ghost predicate Pending(hist: seq<int>, lo: int, phase: seq<Phase>, x: Phase) {
    && |phase| == 8 && 0 <= lo <= |hist|
    && (forall k | lo <= k < |hist| :: In(hist[k]) && phase[hist[k]] == x)
    && (forall k, m | lo <= k < m < |hist| :: hist[k] != hist[m])
    && (forall h | 0 <= h < 8 && phase[h] == x :: h in hist[lo..])
  }

  lemma DistinctFit(s: seq<int>, h: int)
    requires (forall k | 0 <= k < |s| :: In(s[k]) && s[k] != h) && (forall k, m | 0 <= k < m < |s| :: s[k] != s[m])
    requires In(h)
    ensures |s| < 8
  {
    var all := {0, 1, 2, 3, 4, 5, 6, 7};
    var vals := set k | 0 <= k < |s| :: s[k];
    SetSize(s, vals);
    assert h in all && h !in vals && vals <= all - {h};
    SubsetSize(vals, all - {h});
  }

  lemma {:induction false} SetSize(s: seq<int>, vals: set<int>)
    requires vals == (set k | 0 <= k < |s| :: s[k]) && forall k, m | 0 <= k < m < |s| :: s[k] != s[m]
    ensures |vals| == |s|
  {
    if s != [] {
      var t := s[..|s| - 1];
      var rest := set k | 0 <= k < |t| :: t[k];
      SetSize(t, rest);
      assert vals == rest + {s[|s| - 1]};
    }
  }

  lemma SubsetSize(a: set<int>, b: set<int>)
    requires a <= b
    ensures |a| <= |b|
  {
    assert b == a + (b - a);
  }

  lemma CounterStep(n: int)
    requires 0 <= n
    ensures U16(n) % 8 == n % 8 && U16(U16(n) + 1) == U16(n + 1)
  {
    var q, u := n / 0x1_0000, n % 0x1_0000;
    Mod8(0x2000 * q, u);
  }

  lemma Mod8(k: int, u: int)
    ensures (8 * k + u) % 8 == u % 8
  {
  }

  lemma PendingFits(hist: seq<int>, lo: int, h: int, phase: seq<Phase>, x: Phase)
    requires Pending(hist, lo, phase, x) && In(h) && phase[h] != x
    ensures |hist| - lo < 8
  {
    var s := hist[lo..];
    forall k | 0 <= k < |s|
      ensures In(s[k]) && s[k] != h
    {
      assert s[k] == hist[lo + k];
    }
    DistinctFit(s, h);
  }

  /** A new entry does not overwrite one that is still to be read, even after the 16-bit
      counter has wrapped. */
  lemma RingAppend(ring: seq<int>, hist: seq<int>, lo: int, idx: int, h: int, ring': seq<int>)
    requires InRing(ring, hist, lo) && |hist| - lo < 8 && idx == U16(|hist|) && ring' == ring[idx % 8 := h]
    ensures InRing(ring', hist + [h], lo)
  {
    CounterStep(|hist|);
    forall k | lo <= k < |hist|
      ensures ring'[k % 8] == hist[k]
    {
      SlotsDiffer(|hist|, k);
    }
  }

  lemma SlotsDiffer(n: int, k: int)
    requires 0 <= k < n < k + 8
    ensures k % 8 != n % 8
  {
  }

  lemma RingRead(ring: seq<int>, hist: seq<int>, lo: int, idx: int)
    requires InRing(ring, hist, lo) && lo < |hist| && idx == U16(lo)
    ensures ring[idx % 8] == hist[lo] && U16(idx + 1) == U16(lo + 1)
  {
    CounterStep(lo);
  }

  /** A head enters a phase at the end of its history, or leaves it at the front. */
  lemma PendingEnter(hist: seq<int>, lo: int, phase: seq<Phase>, x: Phase, h: int, phase': seq<Phase>)
    requires Pending(hist, lo, phase, x) && In(h) && phase[h] != x && phase' == phase[h := x]
    ensures Pending(hist + [h], lo, phase', x)
  {
    var hist' := hist + [h];
    assert hist'[lo..] == hist[lo..] + [h];
  }

  lemma PendingLeave(hist: seq<int>, lo: int, phase: seq<Phase>, x: Phase, y: Phase, phase': seq<Phase>)
    requires Pending(hist, lo, phase, x) && lo < |hist| && y != x && In(hist[lo]) && phase' == phase[hist[lo] := y]
    ensures Pending(hist, lo + 1, phase', x)
  {
    assert hist[lo..] == [hist[lo]] + hist[lo + 1..];
  }

  lemma PendingOther(hist: seq<int>, lo: int, phase: seq<Phase>, x: Phase, h: int, y: Phase, phase': seq<Phase>)
    requires Pending(hist, lo, phase, x) && In(h) && phase[h] != x && y != x && phase' == phase[h := y]
    ensures Pending(hist, lo, phase', x)
  {
  }

  lemma PendingFew(hist: seq<int>, lo: int, phase: seq<Phase>, x: Phase)
    requires Pending(hist, lo, phase, x)
    ensures |hist| - lo <= 8
  {
    if |hist| - lo > 0 {
      var s := hist[lo + 1..];
      assert forall k | 0 <= k < |s| :: s[k] == hist[lo + 1 + k];
      DistinctFit(s, hist[lo]);
    }
  }

  /** Both rings with their counters and histories. */
  datatype Rings = Rings(availRing: seq<int>, availIdx: int, usedRing: seq<int>, usedIdx: int, seenIdx: int)

  datatype History = History(posted: seq<int>, taken: int, completed: seq<int>, seen: int)

  ghost predicate RingsOk(r: Rings, y: History, phase: seq<Phase>) {
    && InRing(r.availRing, y.posted, y.taken) && Pending(y.posted, y.taken, phase, Posted)
    && r.availIdx == U16(|y.posted|)
    && InRing(r.usedRing, y.completed, y.seen) && Pending(y.completed, y.seen, phase, Done)
    && r.usedIdx == U16(|y.completed|) && r.seenIdx == U16(y.seen)
  }

  lemma PostOk(r: Rings, y: History, phase: seq<Phase>, h: int, r': Rings, y': History, phase': seq<Phase>)
    requires RingsOk(r, y, phase) && In(h) && phase[h] == Idle && phase' == phase[h := Posted]
    requires y' == y.(posted := y.posted + [h])
    requires r' == r.(availRing := r.availRing[r.availIdx % 8 := h], availIdx := U16(r.availIdx + 1))
    ensures RingsOk(r', y', phase')
  {
    PendingFits(y.posted, y.taken, h, phase, Posted);
    RingAppend(r.availRing, y.posted, y.taken, r.availIdx, h, r'.availRing);
    CounterStep(|y.posted|);
    PendingEnter(y.posted, y.taken, phase, Posted, h, phase');
    PendingOther(y.completed, y.seen, phase, Done, h, Posted, phase');
  }

  lemma TakeOk(r: Rings, y: History, phase: seq<Phase>, h: int, y': History, phase': seq<Phase>)
    requires RingsOk(r, y, phase) && y.taken < |y.posted| && h == y.posted[y.taken] && In(h)
    requires phase' == phase[h := Taken] && y' == y.(taken := y.taken + 1)
    ensures RingsOk(r, y', phase')
  {
    PendingLeave(y.posted, y.taken, phase, Posted, Taken, phase');
    PendingOther(y.completed, y.seen, phase, Done, h, Taken, phase');
  }

  lemma CompleteOk(r: Rings, y: History, phase: seq<Phase>, h: int, r': Rings, y': History, phase': seq<Phase>)
    requires RingsOk(r, y, phase) && In(h) && phase[h] == Taken && phase' == phase[h := Done]
    requires y' == y.(completed := y.completed + [h])
    requires r' == r.(usedRing := r.usedRing[r.usedIdx % 8 := h], usedIdx := U16(r.usedIdx + 1))
    ensures RingsOk(r', y', phase')
  {
    PendingFits(y.completed, y.seen, h, phase, Done);
    RingAppend(r.usedRing, y.completed, y.seen, r.usedIdx, h, r'.usedRing);
    CounterStep(|y.completed|);
    PendingEnter(y.completed, y.seen, phase, Done, h, phase');
    PendingOther(y.posted, y.taken, phase, Posted, h, Done, phase');
  }

  lemma SeeOk(r: Rings, y: History, phase: seq<Phase>, h: int, r': Rings, y': History, phase': seq<Phase>)
    requires RingsOk(r, y, phase) && y.seen < |y.completed| && h == y.completed[y.seen] && In(h)
    requires phase' == phase[h := Seen] && y' == y.(seen := y.seen + 1)
    requires r' == r.(seenIdx := U16(r.seenIdx + 1))
    ensures RingsOk(r', y', phase')
  {
    CounterStep(y.seen);
    PendingLeave(y.completed, y.seen, phase, Done, Seen, phase');
    PendingOther(y.posted, y.taken, phase, Posted, h, Seen, phase');
  }

  lemma IdleOk(r: Rings, y: History, phase: seq<Phase>, h: int, phase': seq<Phase>)
    requires RingsOk(r, y, phase) && In(h) && phase[h] == Seen && phase' == phase[h := Idle]
    ensures RingsOk(r, y, phase')
  {
    PendingOther(y.completed, y.seen, phase, Done, h, Idle, phase');
    PendingOther(y.posted, y.taken, phase, Posted, h, Idle, phase');
  }

  /** Requests name existing buffers and blocks, and b->disk is set until the completion has
      been seen. */
  ghost predicate RequestsOk(phase: seq<Phase>, req: seq<Req>, flag: set<int>, buffers: int, blocks: int) {
    && |phase| == 8 && |req| == 8
    && (forall h | 0 <= h < 8 && phase[h] != Idle :: 0 <= req[h].b < buffers && 0 <= req[h].blockno < blocks)
    && (forall h | 0 <= h < 8 && phase[h] != Idle :: req[h].b in flag <==> phase[h] != Seen)
  }

  lemma RequestAdded(phase: seq<Phase>, req: seq<Req>, flag: set<int>, buffers: int, blocks: int, h: int, r: Req,
                     phase': seq<Phase>, req': seq<Req>, flag': set<int>)
    requires RequestsOk(phase, req, flag, buffers, blocks) && In(h) && 0 <= r.b < buffers && 0 <= r.blockno < blocks
    requires forall g | 0 <= g < 8 && phase[g] != Idle :: req[g].b != r.b
    requires phase' == phase[h := Posted] && req' == req[h := r] && flag' == flag + {r.b}
    ensures RequestsOk(phase', req', flag', buffers, blocks)
  {
  }

  lemma RequestMoved(phase: seq<Phase>, req: seq<Req>, flag: set<int>, buffers: int, blocks: int, h: int,
                     phase': seq<Phase>, flag': set<int>)
    requires RequestsOk(phase, req, flag, buffers, blocks) && In(h) && phase[h] != Idle && |phase'| == 8
    requires phase' == phase[h := phase'[h]]
    requires forall g | 0 <= g < 8 && g != h && phase[g] != Idle :: req[g].b in flag' <==> req[g].b in flag
    requires phase'[h] != Idle ==> (req[h].b in flag' <==> phase'[h] != Seen)
    ensures RequestsOk(phase', req, flag', buffers, blocks)
  {
  }

  lemma UnlinkedFree(t: Table, owner: seq<int>, phase: seq<Phase>, req: seq<Req>, h: int, t': Table)
    requires TableOk(t, owner, phase, req) && In(h) && phase[h] != Idle && Chain(t, owner, h, req[h])
    requires t' == Unlinked(t, h, t.next[h], t.next[t.next[h]])
    ensures forall d | 0 <= d < 8 :: t'.free[d] <==> t.free[d] || owner[d] == h
  {
  }

  /** The table with chain a, b, c written for request r. */
  function Linked(t: Table, a: int, b: int, c: int, r: Req): Table
    requires Shape(t) && In(a) && In(b) && In(c)
  {
    t.(free := t.free[a := false][b := false][c := false],
       next := t.next[a := b][b := c][c := 0], more := t.more[a := true][b := true][c := false],
       addr := t.addr[a := a][b := r.b][c := a],
       opWrite := t.opWrite[a := r.write], opBlock := t.opBlock[a := r.blockno],
       infoB := t.infoB[a := r.b], status := t.status[a := 0xff])
  }

  lemma LinkOk(t: Table, owner: seq<int>, phase: seq<Phase>, req: seq<Req>, a: int, b: int, c: int, r: Req, t': Table,
               owner': seq<int>, phase': seq<Phase>, req': seq<Req>)
    requires TableOk(t, owner, phase, req) && In(a) && In(b) && In(c) && a != b && a != c && b != c && t.free[a]
    requires t.free[b] && t.free[c]
    requires t' == Linked(t, a, b, c, r) && owner' == owner[a := a][b := a][c := a] && phase' == phase[a := Posted]
    requires req' == req[a := r]
    requires forall h | 0 <= h < 8 && phase[h] != Idle :: req[h].b != r.b
    ensures TableOk(t', owner', phase', req') && phase[a] == Idle
  {
    forall h | 0 <= h < 8 && phase'[h] != Idle
      ensures Chain(t', owner', h, req'[h])
    {
      if h != a {
        assert Chain(t, owner, h, req[h]);
        ChainKept(t, owner, h, req[h], a, b, c, r, t', owner');
      }
    }
  }

  lemma ChainKept(t: Table, owner: seq<int>, h: int, q: Req, a: int, b: int, c: int, r: Req, t': Table,
                  owner': seq<int>)
    requires Shape(t) && |owner| == 8 && In(h) && Chain(t, owner, h, q) && In(a) && In(b) && In(c)
    requires owner[a] == -1 && owner[b] == -1 && owner[c] == -1 && t' == Linked(t, a, b, c, r)
    requires owner' == owner[a := a][b := a][c := a]
    ensures Chain(t', owner', h, q)
  {
  }

  /** The table with the chain that starts at a cleared. */
  function Unlinked(t: Table, a: int, b: int, c: int): Table
    requires Shape(t) && In(a) && In(b) && In(c)
  {
    t.(free := t.free[a := true][b := true][c := true], next := t.next[a := 0][b := 0][c := 0],
       more := t.more[a := false][b := false][c := false], addr := t.addr[a := 0][b := 0][c := 0],
           infoB := t.infoB[a := -1])
  }

  lemma UnlinkOk(t: Table, owner: seq<int>, phase: seq<Phase>, req: seq<Req>, a: int, b: int, c: int, t': Table,
                 owner': seq<int>, phase': seq<Phase>)
    requires TableOk(t, owner, phase, req) && In(a) && phase[a] != Idle && b == t.next[a] && In(b) && c == t.next[b]
    requires In(c)
    requires t' == Unlinked(t, a, b, c) && owner' == owner[a := -1][b := -1][c := -1] && phase' == phase[a := Idle]
    ensures TableOk(t', owner', phase', req)
  {
    assert Chain(t, owner, a, req[a]);
    forall h | 0 <= h < 8 && phase'[h] != Idle
      ensures Chain(t', owner', h, req[h])
    {
      assert Chain(t, owner, h, req[h]);
    }
  }

  /** The link fields of free descriptors do not matter. */
  lemma FreeFieldsIrrelevant(t: Table, owner: seq<int>, phase: seq<Phase>, req: seq<Req>, t': Table)
    requires TableOk(t, owner, phase, req) && Shape(t') && t' == t.(next := t'.next, more := t'.more, addr := t'.addr)
    requires forall d | 0 <= d < 8 && !t.free[d] ::
        t'.next[d] == t.next[d] && t'.more[d] == t.more[d] && t'.addr[d] == t.addr[d]
    ensures TableOk(t', owner, phase, req)
  {
    forall h | 0 <= h < 8 && phase[h] != Idle
      ensures Chain(t', owner, h, req[h])
    {
      assert Chain(t, owner, h, req[h]);
    }
  }

  ghost predicate DiskOk(t: Table, rings: Rings, flag: set<int>, buffers: int, blocks: int, owner: seq<int>,
                         phase: seq<Phase>, req: seq<Req>, past: History) {
    TableOk(t, owner, phase, req) && RingsOk(rings, past, phase) && RequestsOk(phase, req, flag, buffers, blocks)
  }

  lemma FinishOk(t: Table, rings: Rings, flag: set<int>, buffers: int, blocks: int, owner: seq<int>, phase: seq<Phase>,
                 req: seq<Req>, past: History, h: int, d1: int, d2: int, t': Table, owner': seq<int>,
                 phase': seq<Phase>)
    requires DiskOk(t, rings, flag, buffers, blocks, owner, phase, req, past) && In(h) && phase[h] != Idle
    requires req[h].b !in flag
    requires d1 == t.next[h] && In(d1) && d2 == t.next[d1] && In(d2)
    requires t' == Unlinked(t, h, d1, d2) && owner' == owner[h := -1][d1 := -1][d2 := -1] && phase' == phase[h := Idle]
    ensures DiskOk(t', rings, flag, buffers, blocks, owner', phase', req, past) && phase[h] == Seen
  {
    assert phase[h] == Seen;
    UnlinkOk(t, owner, phase, req, h, d1, d2, t', owner', phase');
    IdleOk(rings, past, phase, h, phase');
    RequestMoved(phase, req, flag, buffers, blocks, h, phase', flag);
  }

  lemma DoneOk(t: Table, rings: Rings, flag: set<int>, buffers: int, blocks: int, owner: seq<int>, phase: seq<Phase>,
               req: seq<Req>, past: History, h: int, t': Table, rings': Rings, phase': seq<Phase>, past': History)
    requires DiskOk(t, rings, flag, buffers, blocks, owner, phase, req, past) && In(h) && phase[h] == Taken
    requires t' == t.(status := t.status[h := 0]) && phase' == phase[h := Done]
    requires past' == past.(completed := past.completed + [h])
    requires rings' == rings.(usedRing := rings.usedRing[rings.usedIdx % 8 := h], usedIdx := U16(rings.usedIdx + 1))
    ensures DiskOk(t', rings', flag, buffers, blocks, owner, phase', req, past')
  {
    CompleteOk(rings, past, phase, h, rings', past', phase');
    PhaseOk(t, owner, phase, req, h, t', phase');
    RequestMoved(phase, req, flag, buffers, blocks, h, phase', flag);
  }

  lemma SubmitOk(t: Table, rings: Rings, flag: set<int>, buffers: int, blocks: int, owner: seq<int>, phase: seq<Phase>,
                 req: seq<Req>, past: History, r: Req, h: int, d1: int, d2: int, t': Table, rings': Rings,
                 flag': set<int>, owner': seq<int>, phase': seq<Phase>, req': seq<Req>, past': History)
    requires DiskOk(t, rings, flag, buffers, blocks, owner, phase, req, past) && 0 <= r.b < buffers
    requires 0 <= r.blockno < blocks
    requires forall g | 0 <= g < 8 && phase[g] != Idle :: req[g].b != r.b
    requires In(h) && In(d1) && In(d2) && h != d1 && h != d2 && d1 != d2 && t.free[h] && t.free[d1] && t.free[d2]
    requires t' == Linked(t, h, d1, d2, r) && owner' == owner[h := h][d1 := h][d2 := h] && phase' == phase[h := Posted]
    requires req' == req[h := r]
    requires flag' == flag + {r.b} && past' == past.(posted := past.posted + [h])
    requires rings' == rings.(availRing := rings.availRing[rings.availIdx % 8 := h],
                              availIdx := U16(rings.availIdx + 1))
    ensures DiskOk(t', rings', flag', buffers, blocks, owner', phase', req', past') && phase[h] == Idle
  {
    LinkOk(t, owner, phase, req, h, d1, d2, r, t', owner', phase', req');
    PostOk(rings, past, phase, h, rings', past', phase');
    RequestAdded(phase, req, flag, buffers, blocks, h, r, phase', req', flag');
  }

  lemma SeenOk(t: Table, rings: Rings, flag: set<int>, buffers: int, blocks: int, owner: seq<int>, phase: seq<Phase>,
               req: seq<Req>, past: History, h: int, rings': Rings, flag': set<int>, phase': seq<Phase>, past': History)
    requires DiskOk(t, rings, flag, buffers, blocks, owner, phase, req, past) && past.seen < |past.completed|
    requires h == past.completed[past.seen] && In(h)
    requires phase' == phase[h := Seen] && past' == past.(seen := past.seen + 1) && flag' == flag - {req[h].b}
    requires rings' == rings.(seenIdx := U16(rings.seenIdx + 1))
    ensures DiskOk(t, rings', flag', buffers, blocks, owner, phase', req, past')
  {
    SeeOk(rings, past, phase, h, rings', past', phase');
    PhaseOk(t, owner, phase, req, h, t, phase');
    RequestMoved(phase, req, flag, buffers, blocks, h, phase', flag');
  }

  /** Three descriptors are free. */
  ghost predicate ThreeFree(free: seq<bool>) {
    |free| == 8 && exists a, b, c :: 0 <= a < b < c < 8 && free[a] && free[b] && free[c]
  }

  lemma AnyThree(free: seq<bool>, a: int, b: int, c: int)
    requires |free| == 8 && In(a) && In(b) && In(c) && a != b && a != c && b != c && free[a] && free[b] && free[c]
    ensures ThreeFree(free)
  {
    var lo := if a < b && a < c then a else if b < c then b else c;
    var hi := if a > b && a > c then a else if b > c then b else c;
    var mid := a + b + c - lo - hi;
    assert 0 <= lo < mid < hi < 8 && free[lo] && free[mid] && free[hi];
  }

  /** The first of n, n + 1, n + 2 and n + 3 that is none of x, y and z. */
  function Skip(n: int, x: int, y: int, z: int): (m: int)
    ensures n <= m <= n + 3 && m != x && m != y && m != z
    ensures m > n ==> n == x || n == y || n == z
    ensures m > n + 1 ==> n + 1 == x || n + 1 == y || n + 1 == z
    ensures m > n + 2 ==> n + 2 == x || n + 2 == y || n + 2 == z
  {
    if n != x && n != y && n != z then n
    else if n + 1 != x && n + 1 != y && n + 1 != z then n + 1
    else if n + 2 != x && n + 2 != y && n + 2 != z then n + 2
    else n + 3
  }

  /** One chain leaves five descriptors, ... */
  lemma AllButThree(free: seq<bool>, x: int, y: int, z: int)
    requires |free| == 8 && forall d | 0 <= d < 8 && d != x && d != y && d != z :: free[d]
    ensures ThreeFree(free)
  {
    var a := Skip(0, x, y, z);
    var b := Skip(a + 1, x, y, z);
    var c := Skip(b + 1, x, y, z);
    assert 0 <= a < b < c <= 5;
    assert free[a] && free[b] && free[c];
  }

  lemma OneChainLeavesThree(t: Table, owner: seq<int>, phase: seq<Phase>, req: seq<Req>)
    requires TableOk(t, owner, phase, req)
    requires forall g, h | 0 <= g < h < 8 && phase[g] != Idle :: phase[h] == Idle
    ensures ThreeFree(t.free)
  {
    if exists g :: In(g) && phase[g] != Idle {
      var g :| In(g) && phase[g] != Idle;
      assert forall h | In(h) && h != g :: phase[h] == Idle;
      AllButThree(t.free, g, t.next[g], t.next[t.next[g]]);
    } else {
      AllButThree(t.free, 0, 0, 0);
    }
  }

  /** ... and two leave two. */
  lemma SixTaken(free: seq<bool>, s: set<int>)
    requires |free| == 8 && |s| == 6 && forall d | d in s :: In(d) && !free[d]
    ensures !ThreeFree(free)
  {
    if a, b, c :| 0 <= a < b < c < 8 && free[a] && free[b] && free[c] {
      var all := {0, 1, 2, 3, 4, 5, 6, 7};
      forall d | d in s + {a, b, c}
        ensures d in all
      {
        assert In(d);
      }
      Nine(s, a, b, c);
      Subset(s + {a, b, c}, all);
      assert false;
    }
  }

  lemma Nine(s: set<int>, a: int, b: int, c: int)
    requires |s| == 6 && a !in s && b !in s && c !in s && a < b < c
    ensures |s + {a, b, c}| == 9
  {
    assert s + {a, b, c} == s + {a} + {b} + {c};
  }

  lemma Subset(s: set<int>, u: set<int>)
    requires s <= u
    ensures |s| <= |u|
  {
    assert u == s + (u - s);
  }

  lemma TwoChainsFillUp(t: Table, owner: seq<int>, phase: seq<Phase>, req: seq<Req>, g: int, h: int)
    requires TableOk(t, owner, phase, req) && 0 <= g < h < 8 && phase[g] != Idle && phase[h] != Idle
    ensures !ThreeFree(t.free)
  {
    assert Chain(t, owner, g, req[g]) && Chain(t, owner, h, req[h]);
    SixTaken(t.free, {g, t.next[g], t.next[t.next[g]], h, t.next[h], t.next[t.next[h]]});
  }

  lemma LinkedFree(t: Table, owner: seq<int>, h: int, d1: int, d2: int, r: Req)
    requires Shape(t) && |owner| == 8 && In(h) && In(d1) && In(d2)
    requires forall d | 0 <= d < 8 :: t.free[d] <==> owner[d] == -1
    ensures forall d | 0 <= d < 8 ::
      Linked(t, h, d1, d2, r).free[d] <==> t.free[d] && owner[h := h][d1 := h][d2 := h][d] != h
  {
  }

  /** Three descriptors are free exactly if fewer than two requests are in flight. */
  lemma RoomIff(t: Table, owner: seq<int>, phase: seq<Phase>, req: seq<Req>)
    requires TableOk(t, owner, phase, req)
    ensures ThreeFree(t.free) <==> forall g, h | 0 <= g < h < 8 && phase[g] != Idle :: phase[h] == Idle
  {
    if g, h :| 0 <= g < h < 8 && phase[g] != Idle && phase[h] != Idle {
      TwoChainsFillUp(t, owner, phase, req, g, h);
    } else {
      OneChainLeavesThree(t, owner, phase, req);
    }
  }

  class Disk {
    var t: Table
    var rings: Rings                // usedRing and usedIdx are written by the device, the rest by the driver
    var flag: set<int>              // buffers with b->disk set
    var data: seq<int>              // contents of the buffers
    var store: seq<int>             // contents of the disk
    ghost var owner: seq<int>       // the head of the chain a descriptor is in, or -1
    ghost var phase: seq<Phase>
    ghost var req: seq<Req>
    ghost var past: History         // heads ever put into the rings, and how far they have been read

    ghost predicate Valid()
      reads this
    {
      DiskOk(t, rings, flag, |data|, |store|, owner, phase, req, past)
    }

    /** virtio_disk_init: all descriptors free, both rings empty. */
    constructor (buffers: seq<int>, blocks: seq<int>)
      ensures Valid() && data == buffers && store == blocks && (forall h | 0 <= h < 8 :: phase[h] == Idle && t.free[h])
    {
      var none := seq(8, _ => 0);
      t := Table(seq(8, _ => true), none, seq(8, _ => false), none, seq(8, _ => false), none, seq(8, _ => -1), none);
      rings := Rings(none, 0, none, 0, 0);
      flag, data, store := {}, buffers, blocks;
      owner, phase, req := seq(8, _ => -1), seq(8, _ => Idle), seq(8, _ => Req(0, false, 0));
      past := History([], 0, [], 0);
    }

    method AllocDesc() returns (i: int)
      requires Shape(t)
      modifies this`t
      ensures -1 <= i < 8 && (i == -1 <==> forall d | 0 <= d < 8 :: !old(t).free[d])
      ensures i == -1 ==> t == old(t)
      ensures i >= 0 ==> old(t).free[i] && t == old(t).(free := old(t).free[i := false])
    {
      i := 0;
      while i < 8
        invariant 0 <= i <= 8 && t == old(t) && forall d | 0 <= d < i :: !t.free[d]
      {
        if t.free[i] {
          t := t.(free := t.free[i := false]);
          return;
        }
        i := i + 1;
      }
      i := -1;
    }

    method FreeDesc(i: int)
      requires Shape(t) && 0 <= i < 8 && !t.free[i]
      modifies this`t
      ensures t == old(t).(addr := old(t).addr[i := 0], more := old(t).more[i := false], next := old(t).next[i := 0],
          free := old(t).free[i := true])
    {
      t := t.(addr := t.addr[i := 0], more := t.more[i := false], next := t.next[i := 0], free := t.free[i := true]);
    }

    /** Three descriptors, or none: on failure those already taken are returned. */
    method Alloc3() returns (ok: bool, idx: seq<int>)
      requires Shape(t)
      modifies this`t
      ensures Shape(t)
      ensures ok ==> |idx| == 3 && In(idx[0]) && In(idx[1]) && In(idx[2])
      ensures ok ==> idx[0] != idx[1] && idx[0] != idx[2] && idx[1] != idx[2]
      ensures ok ==> old(t).free[idx[0]] && old(t).free[idx[1]] && old(t).free[idx[2]]
      ensures ok ==> t == old(t).(free := old(t).free[idx[0] := false][idx[1] := false][idx[2] := false])
      ensures !ok ==> forall d | 0 <= d < 8 && !old(t).free[d] ::
          t.next[d] == old(t).next[d] && t.more[d] == old(t).more[d] && t.addr[d] == old(t).addr[d]
      ensures !ok ==> t == old(t).(next := t.next, more := t.more, addr := t.addr)
      ensures ok <==> ThreeFree(old(t).free)
    {
      var a := AllocDesc();
      if a < 0 {
        return false, [];
      }
      var b := AllocDesc();
      if b < 0 {
        FreeDesc(a);
        assert t.free == old(t).free;
        return false, [];
      }
      var c := AllocDesc();
      if c < 0 {
        FreeDesc(a);
        FreeDesc(b);
        assert t.free == old(t).free;
        return false, [];
      }
      AnyThree(old(t).free, a, b, c);
      return true, [a, b, c];
    }

    /** Writing the three descriptors, the command header and the bookkeeping. */
    method Format(h: int, d1: int, d2: int, b: int, write: bool, blockno: int)
      requires Shape(t) && In(h) && In(d1) && In(d2) && h != d1 && h != d2 && d1 != d2
      modifies this`t
      ensures t == Linked(old(t), h, d1, d2, Req(b, write, blockno)).(free := old(t).free)
    {
      t := t.(opWrite := t.opWrite[h := write], opBlock := t.opBlock[h := blockno]);
      t := t.(addr := t.addr[h := h], more := t.more[h := true], next := t.next[h := d1]);
      t := t.(addr := t.addr[d1 := b], more := t.more[d1 := true], next := t.next[d1 := d2]);
      t := t.(status := t.status[h := 0xff], addr := t.addr[d2 := h], more := t.more[d2 := false],
              next := t.next[d2 := 0]);
      t := t.(infoB := t.infoB[h := b]);
    }

    /** Three descriptors, formatted for the request. */
    method Prepare(b: int, write: bool, blockno: int) returns (ok: bool, idx: seq<int>)
      requires TableOk(t, owner, phase, req)
      modifies this`t
      ensures ok ==> |idx| == 3 && In(idx[0]) && In(idx[1]) && In(idx[2]) && idx[0] != idx[1] && idx[0] != idx[2]
      ensures ok ==> idx[1] != idx[2]
      ensures ok ==> old(t).free[idx[0]] && old(t).free[idx[1]] && old(t).free[idx[2]]
      ensures ok ==> t == Linked(old(t), idx[0], idx[1], idx[2], Req(b, write, blockno))
      ensures !ok ==> TableOk(t, owner, phase, req) && t.free == old(t).free
      ensures ok <==> ThreeFree(old(t).free)
    {
      ok, idx := Alloc3();
      if ok {
        Format(idx[0], idx[1], idx[2], b, write, blockno);
      } else {
        FreeFieldsIrrelevant(old(t), owner, phase, req, t);
      }
    }

    /** virtio_disk_rw up to the wait for completion, or to the wait for descriptors. */
    method Submit(b: int, write: bool, blockno: int) returns (ok: bool, h: int)
      requires Valid() && 0 <= b < |data| && 0 <= blockno < |store|
      requires forall h | 0 <= h < 8 && phase[h] != Idle :: req[h].b != b
      modifies this`t, this`rings, this`flag, this`owner, this`phase, this`req, this`past
      ensures Valid()
      ensures ok ==> In(h) && old(phase)[h] == Idle && phase == old(phase)[h := Posted]
      ensures ok ==> req == old(req)[h := Req(b, write, blockno)]
      ensures ok ==> flag == old(flag) + {b} && past == old(past).(posted := old(past).posted + [h])
      ensures !ok ==> phase == old(phase) && req == old(req) && flag == old(flag) && past == old(past)
      ensures ok <==> ThreeFree(old(t).free)
      ensures ok ==> forall d | 0 <= d < 8 :: t.free[d] <==> old(t).free[d] && owner[d] != h
      ensures !ok ==> t.free == old(t).free
    {
      var idx;
      ok, idx := Prepare(b, write, blockno);
      h := -1;
      if !ok {
        return;
      }
      h := idx[0];
      Post(b, h, idx[1], idx[2], Req(b, write, blockno), old(t));
    }

    /** Handing the chain to the device; t0 is the table before it was formatted. */
    method Post(b: int, h: int, ghost d1: int, ghost d2: int, ghost r: Req, ghost t0: Table)
      requires DiskOk(t0, rings, flag, |data|, |store|, owner, phase, req, past) && r.b == b && 0 <= b < |data|
      requires 0 <= r.blockno < |store|
      requires forall g | 0 <= g < 8 && phase[g] != Idle :: req[g].b != b
      requires In(h) && In(d1) && In(d2) && h != d1 && h != d2 && d1 != d2 && t0.free[h] && t0.free[d1] && t0.free[d2]
      requires t == Linked(t0, h, d1, d2, r)
      modifies this`rings, this`flag, this`owner, this`phase, this`req, this`past
      ensures Valid() && old(phase)[h] == Idle && phase == old(phase)[h := Posted] && req == old(req)[h := r]
      ensures flag == old(flag) + {b} && past == old(past).(posted := old(past).posted + [h])
      ensures forall d | 0 <= d < 8 :: t.free[d] <==> t0.free[d] && owner[d] != h
    {
      LinkedFree(t0, owner, h, d1, d2, r);
      var flag' := flag + {b};
      var rings' := rings.(availRing := rings.availRing[rings.availIdx % 8 := h]);
      rings' := rings'.(availIdx := U16(rings'.availIdx + 1));
      ghost var past' := past.(posted := past.posted + [h]);
      ghost var owner', phase', req' := owner[h := h][d1 := h][d2 := h], phase[h := Posted], req[h := r];
      SubmitOk(t0, rings, flag, |data|, |store|, owner, phase, req, past, r, h, d1, d2, t, rings', flag', owner',
               phase', req', past');
      flag, rings, past, owner, phase, req := flag', rings', past', owner', phase', req';
    }

    /** The device reads the next head from the avail ring; lastAvail is its own counter. */
    method DeviceTake(lastAvail: int) returns (h: int)
      requires Valid() && lastAvail == U16(past.taken) && lastAvail != rings.availIdx
      modifies this`phase, this`past
      ensures Valid() && old(past).taken < |past.posted| && h == past.posted[old(past).taken] && In(h)
      ensures past == old(past).(taken := old(past).taken + 1)
      ensures old(phase)[h] == Posted && phase == old(phase)[h := Taken]
    {
      RingRead(rings.availRing, past.posted, past.taken, lastAvail);
      h := rings.availRing[lastAvail % 8];
      ghost var phase', past' := phase[h := Taken], past.(taken := past.taken + 1);
      TakeOk(rings, past, phase, h, past', phase');
      PhaseOk(t, owner, phase, req, h, t, phase');
      phase, past := phase', past';
    }

    /** The device carries out a request it has taken, in any order, following the chain. */
    method DeviceComplete(h: int)
      requires Valid() && In(h) && phase[h] == Taken
      modifies this`t, this`rings, this`data, this`store, this`phase, this`past
      ensures Valid() && phase == old(phase)[h := Done] && past == old(past).(completed := old(past).completed + [h])
      ensures var r := req[h];
        if r.write then store == old(store)[r.blockno := old(data)[r.b]] && data == old(data)
        else data == old(data)[r.b := old(store)[r.blockno]] && store == old(store)
    {
      assert Chain(t, owner, h, req[h]);
      Perform(h, req[h]);
      Announce(h, old(t));
    }

    /** The device puts a finished request into the used ring; t0 is the table before. */
    method Announce(h: int, ghost t0: Table)
      requires DiskOk(t0, rings, flag, |data|, |store|, owner, phase, req, past) && In(h) && phase[h] == Taken
      requires t == t0.(status := t0.status[h := 0])
      modifies this`rings, this`phase, this`past
      ensures Valid() && phase == old(phase)[h := Done] && past == old(past).(completed := old(past).completed + [h])
    {
      var rings' := rings.(usedRing := rings.usedRing[rings.usedIdx % 8 := h]);
      rings' := rings'.(usedIdx := U16(rings'.usedIdx + 1));
      ghost var phase', past' := phase[h := Done], past.(completed := past.completed + [h]);
      DoneOk(t0, rings, flag, |data|, |store|, owner, phase, req, past, h, t, rings', phase', past');
      rings, phase, past := rings', phase', past';
    }

    /** What the device finds by following the chain. */
    method Perform(h: int, ghost r: Req)
      requires Shape(t) && |owner| == 8 && In(h) && Chain(t, owner, h, r) && 0 <= r.b < |data|
      requires 0 <= r.blockno < |store|
      modifies this`t, this`data, this`store
      ensures t == old(t).(status := old(t).status[h := 0])
      ensures if r.write then store == old(store)[r.blockno := old(data)[r.b]] && data == old(data)
              else data == old(data)[r.b := old(store)[r.blockno]] && store == old(store)
    {
      var d1 := t.next[h];
      var d2 := t.next[d1];
      var op, b, slot := t.addr[h], t.addr[d1], t.addr[d2];
      Transfer(t.opWrite[op], b, t.opBlock[op]);
      t := t.(status := t.status[slot := 0]);
    }

    method Transfer(write: bool, b: int, blockno: int)
      requires 0 <= b < |data| && 0 <= blockno < |store|
      modifies this`data, this`store
      ensures if write then store == old(store)[blockno := old(data)[b]] && data == old(data)
          else data == old(data)[b := old(store)[blockno]] && store == old(store)
    {
      if write {
        store := store[blockno := data[b]];
      } else {
        data := data[b := store[blockno]];
      }
    }

    /** One pass of virtio_disk_intr's loop. */
    method Interrupt() returns (more: bool, b: int, ghost h: int)
      requires Valid()
      modifies this`rings, this`flag, this`phase, this`past
      ensures Valid() && more == (old(past).seen < |past.completed|)
      ensures !more ==> phase == old(phase) && flag == old(flag) && past == old(past)
      ensures more ==> h == past.completed[old(past).seen] && In(h) && old(phase)[h] == Done && b == req[h].b
      ensures more ==> phase == old(phase)[h := Seen] && flag == old(flag) - {b}
      ensures more ==> past == old(past).(seen := old(past).seen + 1)
    {
      b, h := -1, -1;
      PendingFew(past.completed, past.seen, phase, Done);
      more := rings.seenIdx != rings.usedIdx;
      if !more {
        return;
      }
      RingRead(rings.usedRing, past.completed, past.seen, rings.seenIdx);
      var id := rings.usedRing[rings.seenIdx % 8];
      assert Chain(t, owner, id, req[id]) && t.status[id] == 0;
      b, h := t.infoB[id], id;
      See(id, b);
    }

    /** The completion of the request at id is noted. */
    method See(id: int, b: int)
      requires Valid() && past.seen < |past.completed| && id == past.completed[past.seen] && In(id) && b == req[id].b
      modifies this`rings, this`flag, this`phase, this`past
      ensures Valid() && phase == old(phase)[id := Seen] && flag == old(flag) - {b}
      ensures past == old(past).(seen := old(past).seen + 1)
    {
      flag := flag - {b};
      rings := rings.(seenIdx := U16(rings.seenIdx + 1));
      phase, past := phase[id := Seen], past.(seen := past.seen + 1);
      SeenOk(t, old(rings), old(flag), |data|, |store|, owner, old(phase), req, old(past), id, rings, flag, phase,
             past);
    }

    /** The end of virtio_disk_rw for the request at h, whose buffer's flag is clear. */
    method Finish(h: int)
      requires Valid() && In(h) && phase[h] != Idle && req[h].b !in flag
      modifies this`t, this`owner, this`phase
      ensures Valid() && old(phase)[h] == Seen && phase == old(phase)[h := Idle]
      ensures forall d | 0 <= d < 8 :: t.free[d] <==> old(t).free[d] || old(owner)[d] == h
    {
      assert Chain(t, owner, h, req[h]);
      ghost var d1, d2 := t.next[h], t.next[t.next[h]];
      Release(h);
      ghost var owner0, phase0 := owner, phase;
      owner, phase := owner[h := -1][d1 := -1][d2 := -1], phase[h := Idle];
      UnlinkedFree(old(t), owner0, phase0, req, h, t);
      FinishOk(old(t), rings, flag, |data|, |store|, owner0, phase0, req, past, h, d1, d2, t, owner, phase);
    }

    method Release(h: int)
      requires Shape(t) && In(h) && In(t.next[h]) && In(t.next[t.next[h]])
      requires h != t.next[h] && h != t.next[t.next[h]] && t.next[h] != t.next[t.next[h]]
      requires t.more[h] && t.more[t.next[h]] && !t.more[t.next[t.next[h]]]
      requires !t.free[h] && !t.free[t.next[h]] && !t.free[t.next[t.next[h]]]
      modifies this`t
      ensures t == Unlinked(old(t), h, old(t).next[h], old(t).next[old(t).next[h]])
    {
      t := t.(infoB := t.infoB[h := -1]);
      FreeChain(h);
    }

    method FreeChain(i: int)
      requires Shape(t) && In(i) && In(t.next[i]) && In(t.next[t.next[i]])
      requires i != t.next[i] && i != t.next[t.next[i]] && t.next[i] != t.next[t.next[i]]
      requires t.more[i] && t.more[t.next[i]] && !t.more[t.next[t.next[i]]]
      requires !t.free[i] && !t.free[t.next[i]] && !t.free[t.next[t.next[i]]]
      modifies this`t
      ensures t == Unlinked(old(t), i, old(t).next[i], old(t).next[old(t).next[i]]).(infoB := old(t).infoB)
    {
      var d := i;
      ghost var k, d1, d2 := 0, t.next[i], t.next[t.next[i]];
      while true
        invariant 0 <= k < 3 && Shape(t) && d == (if k == 0 then i else if k == 1 then d1 else d2)
        invariant t == (if k == 0 then old(t) else if k == 1 then Cleared(old(t), i)
                        else Cleared(Cleared(old(t), i), d1))
        decreases 3 - k
      {
        var flag, nxt := t.more[d], t.next[d];
        FreeDesc(d);
        if !flag {
          return;
        }
        d, k := nxt, k + 1;
      }
    }
  }

  /** free_desc */
  function Cleared(t: Table, d: int): Table
    requires Shape(t) && In(d)
  {
    t.(addr := t.addr[d := 0], more := t.more[d := false], next := t.next[d := 0], free := t.free[d := true])
  }

  /** A request moves on; when it is done its status has been written. */
  lemma PhaseOk(t: Table, owner: seq<int>, phase: seq<Phase>, req: seq<Req>, h: int, t': Table, phase': seq<Phase>)
    requires TableOk(t, owner, phase, req) && In(h) && phase[h] != Idle && |phase'| == 8
    requires phase' == phase[h := phase'[h]] && phase'[h] != Idle
    requires t' == t || t' == t.(status := t.status[h := 0])
    requires phase'[h] == Done ==> t'.status[h] == 0
    ensures TableOk(t', owner, phase', req)
  {
    forall g | 0 <= g < 8 && phase'[g] != Idle
      ensures Chain(t', owner, g, req[g])
    {
      assert Chain(t, owner, g, req[g]);
    }
  }
}
