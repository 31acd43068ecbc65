/** The logging layer (kernel/log.c) over the buffer cache (kernel/bio.c) over the disk,
    as a state machine whose steps are the critical sections and block writes of the
    source. Any number of processes interleave; a crash may fall between any two steps,
    also during recovery. */
module LogMachine {
  import opened LogFormat

  datatype Option<T> = None | Some(value: T)

  /** Program counter of commit() and of recover_from_log(). */
  datatype Phase =
    | Idle
    | Writing(k: nat)          // write_log has copied k blocks
    | Installing(k: nat)       // first write_head landed; install_trans(0) has done k blocks
    | Clearing                 // log.lh.n = 0, header not yet rewritten
    | Done                     // commit() returned, log.committing still 1
    | Boot                     // after a crash, before read_head
    | RInstalling(k: nat)      // install_trans(1) has done k blocks
    | RClearing                // log.lh.n = 0, header not yet rewritten

  /** The disk and the in-memory header: lh is log.lh.block[..log.lh.n]. The last four
      fields are bookkeeping of the model: the header that the header block on disk
      encodes, the contents a reader must see, the contents a crash must preserve, and
      the blocks whose buffer bpin() holds in the cache. */
  datatype Log = Log(start: nat, disk: Disk, lh: seq<nat>, phase: Phase,
                     hdr: seq<nat>, view: Disk, committed: Disk, pins: set<nat>) {

    predicate Recovering() { phase.Boot? || phase.RInstalling? || phase.RClearing? }

    predicate Committing() { phase.Writing? || phase.Installing? || phase.Clearing? || phase.Done? }

    predicate HomeBlock(b: nat) { Home(|disk|, start, b) }

    /** log_write of block b with contents data: absorbed if already in the log. */
    function Record(b: nat, data: Block): Log
      requires b < |view|
    {
      if b in lh then this.(view := view[b := data])
      else this.(view := view[b := data], lh := lh + [b], pins := pins + {b})
    }

    /** One iteration of write_log. */
    function LogOne(data: Block): Log
      requires phase.Writing? && start + 1 + phase.k < |disk| == |view|
    {
      var a := start + 1 + phase.k;
      this.(disk := disk[a := data], view := view[a := data], phase := Writing(phase.k + 1))
    }

    /** write_head of a non-empty transaction: the commit point. */
    function Commit(blk: Block): Log
      requires |blk| == WORDS && |lh| <= LOGBLOCKS && start < |disk| == |view|
    {
      var data := EncodeHeader(blk, lh);
      this.(disk := disk[start := data], hdr := lh, view := view[start := data],
            committed := view[start := data], phase := Installing(0))
    }

    /** One iteration of install_trans(0). */
    function InstallOne(data: Block): Log
      requires phase.Installing? && phase.k < |lh| && lh[phase.k] < |disk| == |view|
    {
      var a := lh[phase.k];
      this.(disk := disk[a := data], view := view[a := data], phase := Installing(phase.k + 1), pins := pins - {a})
    }

    /** One iteration of install_trans(1), which does not call bunpin. */
    function RecoverOne(data: Block): Log
      requires phase.RInstalling? && phase.k < |lh| && lh[phase.k] < |disk| == |view|
    {
      var a := lh[phase.k];
      this.(disk := disk[a := data], view := view[a := data], phase := RInstalling(phase.k + 1))
    }

    /** log.lh.n = 0 after install_trans. */
    function Drop(): Log {
      this.(lh := [], phase := if phase.RInstalling? then RClearing else Clearing)
    }

    /** write_head of the empty transaction. */
    function Clear(blk: Block): Log
      requires |blk| == WORDS && start < |disk| == |view|
    {
      var data := EncodeHeader(blk, []);
      this.(disk := disk[start := data], hdr := [], view := view[start := data],
            phase := if phase.RClearing? then Idle else Done)
    }

    /** Memory is lost. */
    function Reboot(): Log {
      this.(lh := [], phase := Boot, view := disk, pins := {})
    }

    /** read_head. */
    function LoadHead(blk: Block): Log
      requires |blk| == WORDS && blk[0] <= LOGBLOCKS
    {
      this.(lh := blk[1..1 + blk[0]], phase := RInstalling(0))
    }

    ghost predicate HeadOk() {
      HeaderOk(disk, start) && Header(disk, start) == hdr && Distinct(hdr)
    }

    ghost predicate Ok() {
      && Shape(start, disk, lh, hdr, view, committed)
      && PhaseOk(start, disk, lh, phase, hdr, view, committed, pins)
      && ViewOk(start, disk, hdr, view, committed, pins)
    }
  }

  // ---------------------------------------------------------------- the log invariant

  ghost predicate Shape(start: nat, disk: Disk, lh: seq<nat>, hdr: seq<nat>, view: Disk, committed: Disk) {
    && |disk| == |view| == |committed|
    && start + LOGBLOCKS < |disk|
    && |lh| <= LOGBLOCKS && |hdr| <= LOGBLOCKS
    && (forall i | 0 <= i < |lh| :: Home(|disk|, start, lh[i]))
    && (forall i | 0 <= i < |hdr| :: Home(|disk|, start, hdr[i]))
  }

  /** The pinned blocks are exactly lh[lo..], each logged once. */
  ghost predicate PinsFrom(lo: nat, lh: seq<nat>, pins: set<nat>) {
    && lo <= |lh|
    && Distinct(lh)
    && (forall b | b in pins :: b in lh[lo..])
    && (forall i | lo <= i < |lh| :: lh[i] in pins)
  }

  ghost predicate PhaseOk(start: nat, disk: Disk, lh: seq<nat>, phase: Phase, hdr: seq<nat>, view: Disk,
                          committed: Disk, pins: set<nat>)
    requires Shape(start, disk, lh, hdr, view, committed)
  {
    match phase
    case Idle => PinsFrom(0, lh, pins) && hdr == []
    case Writing(k) =>
      && 0 < |lh| && k <= |lh| && PinsFrom(0, lh, pins) && hdr == []
      && forall i | 0 <= i < k :: disk[start + 1 + i] == view[lh[i]]
    case Installing(k) => PinsFrom(k, lh, pins) && hdr == lh && SameHome(committed, view, start)
    case Clearing => lh == [] && pins == {} && SameHome(committed, disk, start)
    case Done => lh == [] && pins == {} && hdr == []
    case Boot => lh == [] && pins == {} && view == disk
    case RInstalling(k) =>
      && k <= |lh| && pins == {} && hdr == lh && view == disk
      && forall i | 0 <= i < k :: disk[lh[i]] == committed[lh[i]]
    case RClearing => lh == [] && pins == {} && view == disk && SameHome(committed, disk, start)
  }

  /** Only pinned blocks may differ between what readers see and the disk, and the disk
      always represents the committed contents. */
  ghost predicate ViewOk(start: nat, disk: Disk, hdr: seq<nat>, view: Disk, committed: Disk, pins: set<nat>)
    requires |disk| == |view| == |committed| && start + LOGBLOCKS < |disk|
    requires |hdr| <= LOGBLOCKS && forall i | 0 <= i < |hdr| :: Home(|disk|, start, hdr[i])
  {
    && (forall b: nat {:trigger InLog(start, b)} | InLog(start, b) :: disk[b] == view[b])
    && (forall b: nat {:trigger Home(|disk|, start, b)} | Home(|disk|, start, b) && b !in pins :: disk[b] == view[b])
    && Represents(disk, start, hdr, committed)
  }

  lemma PinOne(lh: seq<nat>, pins: set<nat>, b: nat)
    requires PinsFrom(0, lh, pins)
    ensures b in lh <==> b in pins
    ensures b !in lh ==> PinsFrom(0, lh + [b], pins + {b})
  {
    assert lh[0..] == lh;
  }

  lemma UnpinOne(lh: seq<nat>, k: nat, pins: set<nat>)
    requires PinsFrom(k, lh, pins) && k < |lh|
    ensures lh[k] in pins && PinsFrom(k + 1, lh, pins - {lh[k]})
  {
    assert lh[k..] == [lh[k]] + lh[k + 1..];
  }

  /** log_write. */
  lemma RecordOk(l: Log, b: nat, data: Block)
    requires l.Ok() && l.phase.Idle? && l.HomeBlock(b) && |l.lh| < LOGBLOCKS
    ensures l.Record(b, data).Ok() && l.Record(b, data).pins == l.pins + {b}
  {
    PinOne(l.lh, l.pins, b);
  }

  /** write_log: only the log area changes, and the header on disk is empty. */
  lemma LogOneOk(start: nat, disk: Disk, lh: seq<nat>, k: nat, view: Disk, committed: Disk, pins: set<nat>)
    requires Shape(start, disk, lh, [], view, committed)
    requires PhaseOk(start, disk, lh, Writing(k), [], view, committed, pins) && k < |lh|
    requires ViewOk(start, disk, [], view, committed, pins)
    ensures var a, data := start + 1 + k, view[lh[k]]; var disk', view' := disk[a := data], view[a := data];
      && PhaseOk(start, disk', lh, Writing(k + 1), [], view', committed, pins)
      && ViewOk(start, disk', [], view', committed, pins)
  {
  }

  /** write_head: the commit point. */
  lemma CommitOk(start: nat, disk: Disk, lh: seq<nat>, view: Disk, committed: Disk, pins: set<nat>, head: Block)
    requires Shape(start, disk, lh, [], view, committed)
    requires PhaseOk(start, disk, lh, Writing(|lh|), [], view, committed, pins)
    requires ViewOk(start, disk, [], view, committed, pins)
    ensures var disk', view' := disk[start := head], view[start := head];
      PhaseOk(start, disk', lh, Installing(0), lh, view', view', pins) && ViewOk(start, disk', lh, view', view', pins)
  {
    forall b
      ensures b in lh <==> b in pins
    {
      PinOne(lh, pins, b);
    }
  }

  /** install_trans(0) changes neither what a recovery would compute nor what readers see. */
  lemma InstallOneOk(start: nat, disk: Disk, lh: seq<nat>, k: nat, view: Disk, committed: Disk, pins: set<nat>,
                     disk': Disk, pins': set<nat>)
    requires Shape(start, disk, lh, lh, view, committed)
    requires PhaseOk(start, disk, lh, Installing(k), lh, view, committed, pins) && k < |lh|
    requires ViewOk(start, disk, lh, view, committed, pins)
    requires disk' == disk[lh[k] := disk[start + 1 + k]] && pins' == pins - {lh[k]}
    ensures lh[k] in pins && view[lh[k]] == disk[start + 1 + k]
    ensures Shape(start, disk', lh, lh, view, committed)
    ensures PhaseOk(start, disk', lh, Installing(k + 1), lh, view, committed, pins')
    ensures ViewOk(start, disk', lh, view, committed, pins')
  {
    UnpinOne(lh, k, pins);
    assert Home(|disk|, start, lh[k]);
  }

  /** install_trans(1). */
  lemma RecoverOneOk(start: nat, disk: Disk, lh: seq<nat>, k: nat, committed: Disk)
    requires Shape(start, disk, lh, lh, disk, committed)
    requires PhaseOk(start, disk, lh, RInstalling(k), lh, disk, committed, {}) && k < |lh|
    requires ViewOk(start, disk, lh, disk, committed, {})
    ensures var disk' := disk[lh[k] := disk[start + 1 + k]];
      && PhaseOk(start, disk', lh, RInstalling(k + 1), lh, disk', committed, {})
      && ViewOk(start, disk', lh, disk', committed, {})
  {
    assert disk[start + 1 + k] == committed[lh[k]];
  }

  lemma DropOk(l: Log)
    requires l.Ok() && (l.phase.Installing? || l.phase.RInstalling?) && l.phase.k == |l.lh|
    ensures l.Drop().Ok() && l.pins == {}
  {
    if l.phase.RInstalling? {
      InstalledAll(l.start, l.disk, l.lh, l.committed);
    }
  }

  lemma InstalledAll(start: nat, disk: Disk, lh: seq<nat>, committed: Disk)
    requires Shape(start, disk, lh, lh, disk, committed)
    requires PhaseOk(start, disk, lh, RInstalling(|lh|), lh, disk, committed, {})
    requires ViewOk(start, disk, lh, disk, committed, {})
    ensures SameHome(committed, disk, start)
  {
  }

  lemma ClearOk(l: Log, blk: Block)
    requires l.Ok() && (l.phase.Clearing? || l.phase.RClearing?) && |blk| == WORDS
    ensures l.Clear(blk).Ok()
  {
  }

  lemma LoadHeadOk(l: Log)
    requires l.Ok() && l.phase.Boot? && l.HeadOk()
    ensures l.LoadHead(l.disk[l.start]).Ok()
  {
    assert l.LoadHead(l.disk[l.start]).lh == l.hdr;
  }

  /** struct buf. `block` is None until the buffer is first assigned. `users` are the
      processes that counted themselves in refcnt, `locker` holds the sleep-lock and
      `dirty` says that data was changed and not yet passed to log_write. */
  datatype Buf = Buf(valid: bool, block: Option<nat>, refcnt: nat, data: Block,
                     users: multiset<nat>, locker: Option<nat>, dirty: bool)

  /** The cache after binit. */
  function FreshCache(): seq<Buf> {
    seq(NBUF, _ => Buf(false, None, 0, [], multiset{}, None, false))
  }

  /** `ops` are the processes between begin_op and end_op, `credits` how many new blocks
      each of them may still append. */
  datatype State = State(log: Log, bufs: seq<Buf>, outstanding: nat, committing: bool,
                         ops: set<nat>, credits: multiset<nat>)

  datatype Step =
    | BeginOp(t: nat)
    | EndOp(t: nat)
    | BgetHit(t: nat, i: nat, b: nat)
    | BgetMiss(t: nat, i: nat, b: nat)
    | LockBuf(t: nat, i: nat)
    | ReadDisk(t: nat, i: nat)
    | Modify(t: nat, i: nat, data: Block)
    | LogWrite(t: nat, i: nat)
    | UnlockBuf(t: nat, i: nat)
    | Unref(t: nat, i: nat)
    | WriteLogBlock(t: nat, i: nat, j: nat)
    | WriteHead(t: nat, i: nat)
    | InstallBlock(t: nat, i: nat, j: nat)
    | RecoverBlock(t: nat, i: nat, j: nat)
    | DropTransaction
    | ClearHead(t: nat, i: nat)
    | FinishCommit
    | Crash
    | ReadHead(t: nat, i: nat)

  /** Process t holds the sleep-lock of buffer i, which caches block b with valid data. */
  predicate Holds(s: State, t: nat, i: nat, b: nat) {
    i < |s.bufs| && s.bufs[i].locker == Some(t) && s.bufs[i].valid && s.bufs[i].block == Some(b)
  }

  predicate Cached(bufs: seq<Buf>, b: nat) {
    exists i :: 0 <= i < |bufs| && bufs[i].block == Some(b)
  }

  /** Guard of a step: what the code checks or waits for, together with what callers
      must respect (log_write before brelse, no dirty buffer at end_op, at most
      MAXOPBLOCKS appended blocks per operation). */
  predicate Enabled(s: State, e: Step) {
    var l := s.log;
    && |l.disk| == |l.view|
    && match e
       case BeginOp(t) =>
         && t !in s.ops && !s.committing && !l.Recovering()
         && |l.lh| + (s.outstanding + 1) * MAXOPBLOCKS <= LOGBLOCKS
       case EndOp(t) =>
         && t in s.ops && s.outstanding > 0 && !s.committing
         && forall i | 0 <= i < |s.bufs| :: s.bufs[i].locker == Some(t) ==> !s.bufs[i].dirty
       case BgetHit(t, i, b) =>
         i < |s.bufs| && s.bufs[i].block == Some(b)
       case BgetMiss(t, i, b) =>
         i < |s.bufs| && b < |l.disk| && !Cached(s.bufs, b) && s.bufs[i].refcnt == 0
       case LockBuf(t, i) =>
         i < |s.bufs| && t in s.bufs[i].users && s.bufs[i].locker == None
       case ReadDisk(t, i) =>
         && i < |s.bufs| && s.bufs[i].locker == Some(t) && !s.bufs[i].valid
         && s.bufs[i].block.Some? && s.bufs[i].block.value < |l.disk|
       case Modify(t, i, data) =>
         && i < |s.bufs| && t in s.ops && s.bufs[i].block.Some?
         && Holds(s, t, i, s.bufs[i].block.value) && l.HomeBlock(s.bufs[i].block.value)
       case LogWrite(t, i) =>
         && i < |s.bufs| && t in s.ops && s.bufs[i].block.Some?
         && Holds(s, t, i, s.bufs[i].block.value) && l.HomeBlock(s.bufs[i].block.value)
         && s.outstanding >= 1 && |l.lh| < LOGBLOCKS
         && (s.bufs[i].block.value in l.lh || s.credits[t] > 0)
       case UnlockBuf(t, i) =>
         i < |s.bufs| && s.bufs[i].locker == Some(t) && !s.bufs[i].dirty
       case Unref(t, i) =>
         i < |s.bufs| && t in s.bufs[i].users && s.bufs[i].locker != Some(t) && s.bufs[i].refcnt > 0
       case WriteLogBlock(t, i, j) =>
         && l.phase.Writing? && l.phase.k < |l.lh| && l.start + 1 + l.phase.k < |l.disk|
         && Holds(s, t, i, l.start + 1 + l.phase.k) && Holds(s, t, j, l.lh[l.phase.k])
       case WriteHead(t, i) =>
         && l.phase.Writing? && l.phase.k == |l.lh| <= LOGBLOCKS && l.start < |l.disk|
         && Holds(s, t, i, l.start) && |s.bufs[i].data| == WORDS
       case InstallBlock(t, i, j) =>
         && l.phase.Installing? && l.phase.k < |l.lh| && l.lh[l.phase.k] < |l.disk|
         && Holds(s, t, i, l.start + 1 + l.phase.k) && Holds(s, t, j, l.lh[l.phase.k]) && s.bufs[j].refcnt > 0
       case RecoverBlock(t, i, j) =>
         && l.phase.RInstalling? && l.phase.k < |l.lh| && l.lh[l.phase.k] < |l.disk|
         && Holds(s, t, i, l.start + 1 + l.phase.k) && Holds(s, t, j, l.lh[l.phase.k])
       case DropTransaction =>
         (l.phase.Installing? || l.phase.RInstalling?) && l.phase.k == |l.lh|
       case ClearHead(t, i) =>
         && (l.phase.Clearing? || l.phase.RClearing?) && l.start < |l.disk|
         && Holds(s, t, i, l.start) && |s.bufs[i].data| == WORDS
       case FinishCommit =>
         l.phase.Done?
       case Crash => true
       case ReadHead(t, i) =>
         l.phase.Boot? && Holds(s, t, i, l.start) && |s.bufs[i].data| == WORDS && s.bufs[i].data[0] <= LOGBLOCKS
  }

  /** The new value of the buffer touched by a cache step. */
  function BufStep(s: State, e: Step, u: Buf): Buf {
    match e
    case BgetHit(t, _, _) => u.(refcnt := u.refcnt + 1, users := u.users + multiset{t})
    case BgetMiss(t, _, b) => Buf(false, Some(b), 1, u.data, multiset{t}, None, false)
    case LockBuf(t, _) => u.(locker := Some(t))
    case ReadDisk(_, _) =>
      if u.block.Some? && u.block.value < |s.log.disk| then u.(data := s.log.disk[u.block.value], valid := true) else u
    case Modify(_, _, data) => u.(data := data, dirty := true)
    case UnlockBuf(_, _) => u.(locker := None)
    case Unref(t, _) => if u.refcnt > 0 then u.(refcnt := u.refcnt - 1, users := u.users - multiset{t}) else u
    case _ => u
  }

  predicate IsBufStep(e: Step) {
    e.BgetHit? || e.BgetMiss? || e.LockBuf? || e.ReadDisk? || e.Modify? || e.UnlockBuf? || e.Unref?
  }

  /** The state after step e; a step that is not enabled leaves the state unchanged. */
  function Apply(s: State, e: Step): (s': State) {
    if !Enabled(s, e) then s
    else if IsBufStep(e) then s.(bufs := s.bufs[e.i := BufStep(s, e, s.bufs[e.i])])
    else
      var l := s.log;
      match e
      case BeginOp(t) =>
        s.(outstanding := s.outstanding + 1, ops := s.ops + {t}, credits := s.credits[t := MAXOPBLOCKS])
      case EndOp(t) =>
        var s1 := s.(outstanding := s.outstanding - 1, ops := s.ops - {t}, credits := s.credits[t := 0]);
        if s1.outstanding > 0 then s1
        else s1.(committing := true, log := l.(phase := if |l.lh| > 0 then Writing(0) else Done))
      case LogWrite(t, i) =>
        var u := s.bufs[i];
        if u.block.value in l.lh then
          s.(log := l.Record(u.block.value, u.data), bufs := s.bufs[i := u.(dirty := false)])
        else
          s.(log := l.Record(u.block.value, u.data), credits := s.credits - multiset{t},
             bufs := s.bufs[i := u.(dirty := false, refcnt := u.refcnt + 1)])
      case WriteLogBlock(t, i, j) =>
        s.(log := l.LogOne(s.bufs[j].data), bufs := s.bufs[i := s.bufs[i].(data := s.bufs[j].data)])
      case WriteHead(t, i) =>
        s.(log := l.Commit(s.bufs[i].data), bufs := s.bufs[i := s.bufs[i].(data := EncodeHeader(s.bufs[i].data, l.lh))])
      case InstallBlock(t, i, j) =>
        s.(log := l.InstallOne(s.bufs[i].data),
           bufs := s.bufs[j := s.bufs[j].(data := s.bufs[i].data, refcnt := s.bufs[j].refcnt - 1)])
      case RecoverBlock(t, i, j) =>
        s.(log := l.RecoverOne(s.bufs[i].data), bufs := s.bufs[j := s.bufs[j].(data := s.bufs[i].data)])
      case DropTransaction =>
        s.(log := l.Drop())
      case ClearHead(t, i) =>
        s.(log := l.Clear(s.bufs[i].data), bufs := s.bufs[i := s.bufs[i].(data := EncodeHeader(s.bufs[i].data, []))])
      case FinishCommit =>
        s.(committing := false, log := l.(phase := Idle))
      case ReadHead(t, i) =>
        s.(log := l.LoadHead(s.bufs[i].data))
      case Crash =>
        State(l.Reboot(), FreshCache(), 0, false, {}, multiset{})
      case _ => s
  }

  // ---------------------------------------------------------------- invariant

  /** Operation counting and log space: what is logged plus what may still be logged fits. */
  ghost predicate OpsOk(s: State) {
    && s.outstanding == |s.ops|
    && s.committing == s.log.Committing()
    && (s.committing || s.log.Recovering() ==> s.ops == {})
    && (s.ops == {} && s.log.phase.Idle? ==> s.log.lh == [])
    && (forall t :: s.credits[t] <= MAXOPBLOCKS && (s.credits[t] > 0 ==> t in s.ops))
    && |s.log.lh| + |s.credits| <= LOGBLOCKS
  }

  /** One buffer: refcnt counts its users plus its pin; valid data is current. */
  ghost predicate BufOk(u: Buf, view: Disk, start: nat, pins: set<nat>, ops: set<nat>) {
    && u.refcnt == |u.users| + (if u.block.Some? && u.block.value in pins then 1 else 0)
    && (u.locker.Some? ==> u.locker.value in u.users)
    && (u.block.None? ==> !u.valid && u.users == multiset{})
    && (u.block.Some? ==> u.block.value < |view|)
    && (u.block.Some? && u.valid && !u.dirty ==> u.data == view[u.block.value])
    && (u.block.Some? && u.block.value in pins ==> u.valid)
    && (u.dirty ==> u.locker.Some? && u.locker.value in ops && u.valid)
    && (u.dirty ==> u.block.Some? && Home(|view|, start, u.block.value))
  }

  /** At most one buffer per block, and every pinned block has one. */
  ghost predicate CacheOk(bufs: seq<Buf>, view: Disk, start: nat, pins: set<nat>, ops: set<nat>) {
    && |bufs| == NBUF
    && (forall i | 0 <= i < |bufs| :: BufOk(bufs[i], view, start, pins, ops))
    && (forall i, j | 0 <= i < j < |bufs| :: bufs[i].block.Some? ==> bufs[i].block != bufs[j].block)
    && (forall b | b in pins :: Cached(bufs, b))
  }

  ghost predicate Inv(s: State) {
    && s.log.Ok() && s.log.HeadOk() && OpsOk(s)
    && CacheOk(s.bufs, s.log.view, s.log.start, s.log.pins, s.ops)
  }

  // ---------------------------------------------------------------- every step keeps it

  lemma BeginOpKeepsInv(s: State, t: nat)
    requires Inv(s) && Enabled(s, BeginOp(t))
    ensures Inv(Apply(s, BeginOp(t)))
  {
    CreditBound(s.credits, s.ops);
    assert s.credits[t] == 0;
  }

  /** Credits of at most MAXOPBLOCKS for each operation add up to at most MAXOPBLOCKS each. */
  lemma {:induction false} CreditBound(credits: multiset<nat>, ops: set<nat>)
    requires forall t :: credits[t] <= MAXOPBLOCKS && (credits[t] > 0 ==> t in ops)
    ensures |credits| <= MAXOPBLOCKS * |ops|
    decreases |ops|
  {
    if ops == {} {
      assert credits == multiset{};
    } else {
      var t :| t in ops;
      CreditBound(credits[t := 0], ops - {t});
      assert |ops - {t}| == |ops| - 1;
    }
  }

  lemma EndOpKeepsInv(s: State, t: nat)
    requires Inv(s) && Enabled(s, EndOp(t))
    ensures Inv(Apply(s, EndOp(t)))
  {
    assert |s.ops - {t}| == |s.ops| - 1;
  }

  lemma BufferStepKeepsCache(bufs: seq<Buf>, i: nat, u: Buf, view: Disk, start: nat, pins: set<nat>, ops: set<nat>)
    requires i < |bufs| && CacheOk(bufs, view, start, pins, ops)
    requires BufOk(u, view, start, pins, ops)
    requires u.block == bufs[i].block || (u.block.Some? && !Cached(bufs, u.block.value) && bufs[i].refcnt == 0)
    ensures CacheOk(bufs[i := u], view, start, pins, ops)
  {
    var bufs' := bufs[i := u];
    forall b | b in pins
      ensures Cached(bufs', b)
    {
      var j :| 0 <= j < |bufs| && bufs[j].block == Some(b);
      assert BufOk(bufs[j], view, start, pins, ops);
      assert bufs'[j].block == Some(b);
    }
  }

  lemma BufferStepOk(s: State, e: Step, u: Buf)
    requires Inv(s) && Enabled(s, e) && IsBufStep(e) && u == s.bufs[e.i]
    ensures BufOk(BufStep(s, e, u), s.log.view, s.log.start, s.log.pins, s.ops)
  {
    assert BufOk(u, s.log.view, s.log.start, s.log.pins, s.ops);
    if e.BgetMiss? {
      assert e.b !in s.log.pins;
    } else if e.ReadDisk? {
      assert InLog(s.log.start, u.block.value) || Home(|s.log.disk|, s.log.start, u.block.value);
    }
  }

  lemma BufferStepKeepsInv(s: State, e: Step)
    requires Inv(s) && Enabled(s, e) && IsBufStep(e)
    ensures Inv(Apply(s, e))
  {
    var u := s.bufs[e.i];
    BufferStepOk(s, e, u);
    BufferStepKeepsCache(s.bufs, e.i, BufStep(s, e, u), s.log.view, s.log.start, s.log.pins, s.ops);
  }

  /** A step that changes block b everywhere it appears: in its one buffer, in the view
      and in the set of pinned blocks. */
  lemma BlockUpdateKeepsCache(bufs: seq<Buf>, i: nat, u: Buf, b: nat, view: Disk, view': Disk, start: nat,
                              pins: set<nat>, pins': set<nat>, ops: set<nat>)
    requires i < |bufs| && CacheOk(bufs, view, start, pins, ops)
    requires u.block == bufs[i].block == Some(b)
    requires |view'| == |view| && forall a | 0 <= a < |view| && a != b :: view'[a] == view[a]
    requires forall a | a != b :: a in pins' <==> a in pins
    requires BufOk(u, view', start, pins', ops)
    ensures CacheOk(bufs[i := u], view', start, pins', ops)
  {
    var bufs' := bufs[i := u];
    forall j | 0 <= j < |bufs'|
      ensures BufOk(bufs'[j], view', start, pins', ops)
    {
      if j != i {
        assert BufOk(bufs[j], view, start, pins, ops);
        assert bufs[j].block != Some(b);
      }
    }
    forall a | a in pins'
      ensures Cached(bufs', a)
    {
      if a == b {
        assert bufs'[i].block == Some(a);
      } else {
        var j :| 0 <= j < |bufs| && bufs[j].block == Some(a);
        assert bufs'[j].block == Some(a);
      }
    }
  }

  lemma LogWriteKeepsInv(s: State, t: nat, i: nat)
    requires Inv(s) && Enabled(s, LogWrite(t, i))
    ensures Inv(Apply(s, LogWrite(t, i)))
  {
    var s' := Apply(s, LogWrite(t, i));
    var b := s.bufs[i].block.value;
    assert BufOk(s.bufs[i], s.log.view, s.log.start, s.log.pins, s.ops);
    RecordOk(s.log, b, s.bufs[i].data);
    BlockUpdateKeepsCache(s.bufs, i, s'.bufs[i], b, s.log.view, s'.log.view, s.log.start, s.log.pins, s'.log.pins,
                          s.ops);
  }

  lemma LogOneKeepsLog(l: Log, data: Block)
    requires l.Ok() && l.HeadOk() && l.phase.Writing? && l.phase.k < |l.lh| && data == l.view[l.lh[l.phase.k]]
    ensures l.LogOne(data).Ok() && l.LogOne(data).HeadOk()
  {
    LogOneOk(l.start, l.disk, l.lh, l.phase.k, l.view, l.committed, l.pins);
    HeaderUntouched(l.disk, l.start, l.start + 1 + l.phase.k, data);
  }

  lemma WriteLogKeepsInv(s: State, t: nat, i: nat, j: nat)
    requires Inv(s) && Enabled(s, WriteLogBlock(t, i, j))
    ensures Inv(Apply(s, WriteLogBlock(t, i, j)))
  {
    var s' := Apply(s, WriteLogBlock(t, i, j));
    assert BufOk(s.bufs[i], s.log.view, s.log.start, s.log.pins, s.ops);
    assert BufOk(s.bufs[j], s.log.view, s.log.start, s.log.pins, s.ops);
    LogOneKeepsLog(s.log, s.bufs[j].data);
    BlockUpdateKeepsCache(s.bufs, i, s'.bufs[i], s.bufs[i].block.value, s.log.view, s'.log.view, s.log.start,
                          s.log.pins, s'.log.pins, s.ops);
  }

  lemma WriteHeadKeepsInv(s: State, t: nat, i: nat)
    requires Inv(s) && Enabled(s, WriteHead(t, i))
    ensures Inv(Apply(s, WriteHead(t, i)))
  {
    var s' := Apply(s, WriteHead(t, i));
    assert BufOk(s.bufs[i], s.log.view, s.log.start, s.log.pins, s.ops);
    CommitOk(s.log.start, s.log.disk, s.log.lh, s.log.view, s.log.committed, s.log.pins,
             EncodeHeader(s.bufs[i].data, s.log.lh));
    EncodedHeaderOk(s.log.disk, s.log.start, s.log.lh, s.bufs[i].data);
    BlockUpdateKeepsCache(s.bufs, i, s'.bufs[i], s.log.start, s.log.view, s'.log.view, s.log.start,
                          s.log.pins, s'.log.pins, s.ops);
  }

  lemma InstallKeepsHead(l: Log, l': Log, data: Block)
    requires l.Ok() && l.HeadOk() && (l.phase.Installing? || l.phase.RInstalling?) && l.phase.k < |l.lh|
    requires l'.disk == l.disk[l.lh[l.phase.k] := data] && l'.start == l.start && l'.hdr == l.hdr
    ensures l'.HeadOk()
  {
    HeaderUntouched(l.disk, l.start, l.lh[l.phase.k], data);
  }

  /** Copying into the buffer of a pinned block and unpinning it; and of any other block. */
  lemma InstallKeepsCache(bufs: seq<Buf>, j: nat, a: nat, data: Block, view: Disk, start: nat, pins: set<nat>,
                          ops: set<nat>, bufs': seq<Buf>, view': Disk, pins': set<nat>)
    requires CacheOk(bufs, view, start, pins, ops) && j < |bufs| && bufs[j].block == Some(a) && a < |view|
    requires bufs[j].valid && bufs[j].refcnt > 0 && a in pins && view' == view[a := data] && pins' == pins - {a}
    requires bufs' == bufs[j := bufs[j].(data := data, refcnt := bufs[j].refcnt - 1)]
    ensures CacheOk(bufs', view', start, pins', ops)
  {
    assert BufOk(bufs[j], view, start, pins, ops);
    BlockUpdateKeepsCache(bufs, j, bufs[j].(data := data, refcnt := bufs[j].refcnt - 1), a, view, view', start, pins,
                          pins', ops);
  }

  lemma RecoverKeepsCache(bufs: seq<Buf>, j: nat, a: nat, data: Block, view: Disk, start: nat, pins: set<nat>,
                          ops: set<nat>, bufs': seq<Buf>, view': Disk)
    requires CacheOk(bufs, view, start, pins, ops) && j < |bufs| && bufs[j].block == Some(a) && a < |view|
    requires bufs[j].valid && a !in pins && view' == view[a := data] && bufs' == bufs[j := bufs[j].(data := data)]
    ensures CacheOk(bufs', view', start, pins, ops)
  {
    assert BufOk(bufs[j], view, start, pins, ops);
    BlockUpdateKeepsCache(bufs, j, bufs[j].(data := data), a, view, view', start, pins, pins, ops);
  }

  /** The buffer of log block k holds what is on disk. */
  lemma LogBufferCurrent(s: State, i: nat, k: nat)
    requires s.ops == {} && s.log.Ok() && CacheOk(s.bufs, s.log.view, s.log.start, s.log.pins, s.ops) && i < |s.bufs|
    requires k < LOGBLOCKS
    requires s.bufs[i].valid && s.bufs[i].block == Some(s.log.start + 1 + k)
    ensures s.bufs[i].data == s.log.disk[s.log.start + 1 + k]
  {
    assert BufOk(s.bufs[i], s.log.view, s.log.start, s.log.pins, s.ops);
    assert InLog(s.log.start, s.bufs[i].block.value);
  }

  lemma InstallKeepsLog(l: Log, data: Block, l': Log)
    requires l.Ok() && l.HeadOk() && l.phase.Installing? && l.phase.k < |l.lh|
    requires data == l.disk[l.start + 1 + l.phase.k]
    requires l' == l.InstallOne(data)
    ensures l'.Ok() && l'.HeadOk() && l.lh[l.phase.k] in l.pins
  {
    InstallOneOk(l.start, l.disk, l.lh, l.phase.k, l.view, l.committed, l.pins, l'.disk, l'.pins);
    assert l'.view == l.view;
    InstallKeepsHead(l, l', data);
  }

  /** The guards of InstallBlock and of RecoverBlock, apart from the phase. */
  predicate CopyReady(s: State, t: nat, i: nat, j: nat, k: nat) {
    && k < |s.log.lh| && s.log.lh[k] < |s.log.disk| == |s.log.view|
    && Holds(s, t, i, s.log.start + 1 + k) && Holds(s, t, j, s.log.lh[k])
  }

  lemma InstallEffect(s: State, t: nat, i: nat, j: nat, s': State)
    requires Enabled(s, InstallBlock(t, i, j)) && s' == Apply(s, InstallBlock(t, i, j))
    ensures s.log.phase.Installing? && CopyReady(s, t, i, j, s.log.phase.k) && s.bufs[j].refcnt > 0
    ensures s' == s.(log := s.log.InstallOne(s.bufs[i].data),
                     bufs := s.bufs[j := s.bufs[j].(data := s.bufs[i].data, refcnt := s.bufs[j].refcnt - 1)])
  {
  }

  lemma OpsKept(s: State, s': State)
    requires OpsOk(s) && s' == s.(log := s'.log, bufs := s'.bufs) && s'.log.lh == s.log.lh && !s'.log.phase.Idle?
    requires s'.log.Committing() == s.log.Committing() && s'.log.Recovering() == s.log.Recovering()
    ensures OpsOk(s')
  {
  }

  lemma CopyFacts(s: State, t: nat, i: nat, j: nat, k: nat)
    requires Inv(s) && CopyReady(s, t, i, j, k) && (s.log.phase == Installing(k) || s.log.phase == RInstalling(k))
    ensures s.ops == {} && s.bufs[i].data == s.log.disk[s.log.start + 1 + k]
  {
    LogBufferCurrent(s, i, k);
  }

  lemma InstallKeepsInv(s: State, j: nat, k: nat, data: Block, s': State)
    requires Inv(s) && s.log.phase == Installing(k) && k < |s.log.lh| && s.ops == {}
    requires data == s.log.disk[s.log.start + 1 + k]
    requires j < |s.bufs| && s.bufs[j].block == Some(s.log.lh[k]) && s.bufs[j].valid && s.bufs[j].refcnt > 0
    requires s' == s.(log := s.log.InstallOne(data),
                      bufs := s.bufs[j := s.bufs[j].(data := data, refcnt := s.bufs[j].refcnt - 1)])
    ensures Inv(s')
  {
    InstallKeepsLog(s.log, data, s'.log);
    InstallKeepsRest(s, j, k, data, s');
  }

  lemma InstallKeepsRest(s: State, j: nat, k: nat, data: Block, s': State)
    requires OpsOk(s) && CacheOk(s.bufs, s.log.view, s.log.start, s.log.pins, s.ops)
    requires s.log.phase == Installing(k) && k < |s.log.lh| && s.log.lh[k] in s.log.pins
    requires s.log.lh[k] < |s.log.disk| == |s.log.view|
    requires j < |s.bufs| && s.bufs[j].block == Some(s.log.lh[k]) && s.bufs[j].valid && s.bufs[j].refcnt > 0
    requires s' == s.(log := s.log.InstallOne(data),
                      bufs := s.bufs[j := s.bufs[j].(data := data, refcnt := s.bufs[j].refcnt - 1)])
    ensures OpsOk(s') && CacheOk(s'.bufs, s'.log.view, s'.log.start, s'.log.pins, s'.ops)
  {
    var l := s.log;
    OpsKept(s, s');
    InstallKeepsCache(s.bufs, j, l.lh[k], data, l.view, l.start, l.pins, s.ops, s'.bufs, s'.log.view, s'.log.pins);
  }

  lemma RecoverEffect(s: State, t: nat, i: nat, j: nat, s': State)
    requires Enabled(s, RecoverBlock(t, i, j)) && s' == Apply(s, RecoverBlock(t, i, j))
    ensures s.log.phase.RInstalling? && CopyReady(s, t, i, j, s.log.phase.k)
    ensures s' == s.(log := s.log.RecoverOne(s.bufs[i].data), bufs := s.bufs[j := s.bufs[j].(data := s.bufs[i].data)])
  {
  }

  lemma RecoverKeepsLog(l: Log, data: Block, l': Log)
    requires l.Ok() && l.HeadOk() && l.phase.RInstalling? && l.phase.k < |l.lh|
    requires data == l.disk[l.start + 1 + l.phase.k]
    requires l' == l.RecoverOne(data)
    ensures l'.Ok() && l'.HeadOk()
  {
    RecoverOneOk(l.start, l.disk, l.lh, l.phase.k, l.committed);
    InstallKeepsHead(l, l', data);
  }

  lemma RecoverKeepsInv(s: State, j: nat, k: nat, data: Block, s': State)
    requires Inv(s) && s.log.phase == RInstalling(k) && k < |s.log.lh| && s.ops == {}
    requires data == s.log.disk[s.log.start + 1 + k]
    requires j < |s.bufs| && s.bufs[j].block == Some(s.log.lh[k]) && s.bufs[j].valid
    requires s' == s.(log := s.log.RecoverOne(data), bufs := s.bufs[j := s.bufs[j].(data := data)])
    ensures Inv(s')
  {
    var l := s.log;
    RecoverKeepsLog(l, data, s'.log);
    OpsKept(s, s');
    RecoverKeepsCache(s.bufs, j, l.lh[k], data, l.view, l.start, l.pins, s.ops, s'.bufs, s'.log.view);
  }

  lemma InstallReadyKeepsInv(s: State, t: nat, i: nat, j: nat, k: nat, data: Block, s': State)
    requires Inv(s) && s.log.phase == Installing(k) && CopyReady(s, t, i, j, k) && s.bufs[j].refcnt > 0
    requires data == s.bufs[i].data
    requires s' == s.(log := s.log.InstallOne(data),
                      bufs := s.bufs[j := s.bufs[j].(data := data, refcnt := s.bufs[j].refcnt - 1)])
    ensures Inv(s')
  {
    CopyFacts(s, t, i, j, k);
    InstallKeepsInv(s, j, k, data, s');
  }

  lemma RecoverReadyKeepsInv(s: State, t: nat, i: nat, j: nat, k: nat, data: Block, s': State)
    requires Inv(s) && s.log.phase == RInstalling(k) && CopyReady(s, t, i, j, k) && data == s.bufs[i].data
    requires s' == s.(log := s.log.RecoverOne(data), bufs := s.bufs[j := s.bufs[j].(data := data)])
    ensures Inv(s')
  {
    CopyFacts(s, t, i, j, k);
    RecoverKeepsInv(s, j, k, data, s');
  }

  lemma CopyStepKeepsInv(s: State, e: Step)
    requires Inv(s) && Enabled(s, e) && (e.InstallBlock? || e.RecoverBlock?)
    ensures Inv(Apply(s, e))
  {
    var s' := Apply(s, e);
    if e.InstallBlock? {
      InstallEffect(s, e.t, e.i, e.j, s');
      InstallReadyKeepsInv(s, e.t, e.i, e.j, s.log.phase.k, s.bufs[e.i].data, s');
    } else {
      RecoverEffect(s, e.t, e.i, e.j, s');
      RecoverReadyKeepsInv(s, e.t, e.i, e.j, s.log.phase.k, s.bufs[e.i].data, s');
    }
  }

  lemma DropKeepsInv(s: State, e: Step)
    requires Inv(s) && Enabled(s, e) && (e.DropTransaction? || e.FinishCommit?)
    ensures Inv(Apply(s, e))
  {
    if e.DropTransaction? {
      DropOk(s.log);
    }
  }

  lemma ClearHeadKeepsInv(s: State, t: nat, i: nat)
    requires Inv(s) && Enabled(s, ClearHead(t, i))
    ensures Inv(Apply(s, ClearHead(t, i)))
  {
    var s' := Apply(s, ClearHead(t, i));
    assert BufOk(s.bufs[i], s.log.view, s.log.start, s.log.pins, s.ops);
    ClearOk(s.log, s.bufs[i].data);
    EncodedHeaderOk(s.log.disk, s.log.start, [], s.bufs[i].data);
    BlockUpdateKeepsCache(s.bufs, i, s'.bufs[i], s.log.start, s.log.view, s'.log.view, s.log.start,
                          s.log.pins, s'.log.pins, s.ops);
  }

  lemma CrashKeepsInv(s: State)
    requires Inv(s) && Enabled(s, Crash)
    ensures Inv(Apply(s, Crash))
  {
  }

  lemma ReadHeadKeepsInv(s: State, t: nat, i: nat)
    requires Inv(s) && Enabled(s, ReadHead(t, i))
    ensures Inv(Apply(s, ReadHead(t, i)))
  {
    assert BufOk(s.bufs[i], s.log.view, s.log.start, s.log.pins, s.ops);
    LoadHeadOk(s.log);
  }

  /** The block writes of commit() and of recovery. */
  predicate IsDiskStep(e: Step) {
    e.WriteLogBlock? || e.WriteHead? || e.InstallBlock? || e.RecoverBlock? || e.ClearHead?
  }

  lemma DiskStepKeepsInv(s: State, e: Step)
    requires Inv(s) && Enabled(s, e) && IsDiskStep(e)
    ensures Inv(Apply(s, e))
  {
    match e
    case WriteLogBlock(t, i, j) => WriteLogKeepsInv(s, t, i, j);
    case WriteHead(t, i) => WriteHeadKeepsInv(s, t, i);
    case InstallBlock(_, _, _) => CopyStepKeepsInv(s, e);
    case RecoverBlock(_, _, _) => CopyStepKeepsInv(s, e);
    case ClearHead(t, i) => ClearHeadKeepsInv(s, t, i);
  }

  lemma MemoryStepKeepsInv(s: State, e: Step)
    requires Inv(s) && Enabled(s, e) && !IsDiskStep(e) && !IsBufStep(e)
    ensures Inv(Apply(s, e))
  {
    match e
    case BeginOp(t) => BeginOpKeepsInv(s, t);
    case EndOp(t) => EndOpKeepsInv(s, t);
    case LogWrite(t, i) => LogWriteKeepsInv(s, t, i);
    case DropTransaction => DropKeepsInv(s, e);
    case FinishCommit => DropKeepsInv(s, e);
    case Crash => CrashKeepsInv(s);
    case ReadHead(t, i) => ReadHeadKeepsInv(s, t, i);
  }

  lemma StepKeepsInv(s: State, e: Step)
    requires Inv(s) && Enabled(s, e)
    ensures Inv(Apply(s, e))
  {
    if IsDiskStep(e) {
      DiskStepKeepsInv(s, e);
    } else if IsBufStep(e) {
      BufferStepKeepsInv(s, e);
    } else {
      MemoryStepKeepsInv(s, e);
    }
  }

  // ---------------------------------------------------------------- runs

  /** The machine switched on with the given disk. */
  function PowerOn(disk: Disk, start: nat): State
    requires HeaderOk(disk, start)
  {
    var h := Header(disk, start);
    State(Log(start, disk, [], Boot, h, disk, Recovered(disk, start), {}), FreshCache(), 0, false, {}, multiset{})
  }

  lemma PowerOnInv(disk: Disk, start: nat)
    requires HeaderOk(disk, start) && Distinct(Header(disk, start))
    ensures Inv(PowerOn(disk, start))
  {
    RecoveredIsRepresented(disk, start);
  }

  /** The states visited by performing the steps es from s. */
  function Trace(s: State, es: seq<Step>): (tr: seq<State>)
    ensures |tr| == |es| + 1 && tr[0] == s
    decreases |es|
  {
    if es == [] then [s] else [s] + Trace(Apply(s, es[0]), es[1..])
  }

  /** Induction over runs: a property kept by every allowed step holds in every state visited. */
  lemma {:induction false} RunInduction(p: State -> bool, allowed: Step -> bool, s: State, es: seq<Step>, i: nat)
    requires p(s) && i <= |es|
    requires forall e | e in es :: allowed(e)
    requires forall u, e :: p(u) && allowed(e) ==> p(Apply(u, e))
    ensures p(Trace(s, es)[i])
    decreases |es|
  {
    if i > 0 {
      assert es[0] in es && p(Apply(s, es[0]));
      RunInduction(p, allowed, Apply(s, es[0]), es[1..], i - 1);
    }
  }

  /** Every reachable state satisfies the invariant. */
  lemma ReachableInv(s: State, es: seq<Step>, i: nat)
    requires Inv(s) && i <= |es|
    ensures Inv(Trace(s, es)[i])
  {
    forall u, e | Inv(u)
      ensures Inv(Apply(u, e))
    {
      if Enabled(u, e) { StepKeepsInv(u, e); }
    }
    RunInduction(u => Inv(u), _ => true, s, es, i);
  }

  /** Consecutive states of a run are one step apart. */
  lemma {:induction false} TraceStep(s: State, es: seq<Step>, i: nat)
    requires i < |es|
    ensures Trace(s, es)[i + 1] == Apply(Trace(s, es)[i], es[i])
    decreases |es|
  {
    if i > 0 {
      TraceStep(Apply(s, es[0]), es[1..], i - 1);
    }
  }

  // ---------------------------------------------------------------- the transactional disk

  /** What file system code may rely on: `current` is what reads return, `durable` is what
      survives a crash, `active` are the operations in progress. */
  datatype TxDisk = TxDisk(durable: map<nat, Block>, current: map<nat, Block>, active: set<nat>, up: bool)

  datatype TxStep = Stutter | TxBegin(t: nat) | TxEnd(t: nat) | TxWrite(t: nat, b: nat,
      data: Block) | TxCommit | TxFail | TxUp

  ghost predicate TxEnabled(a: TxDisk, x: TxStep) {
    match x
    case TxBegin(t) => a.up && t !in a.active
    case TxEnd(t) => t in a.active
    case TxWrite(t, b, _) => t in a.active && b in a.current
    case TxCommit => a.up && a.active == {}
    case TxUp => !a.up && a.current == a.durable
    case _ => true
  }

  ghost function TxApply(a: TxDisk, x: TxStep): TxDisk {
    match x
    case Stutter => a
    case TxBegin(t) => a.(active := a.active + {t})
    case TxEnd(t) => a.(active := a.active - {t})
    case TxWrite(_, b, data) => a.(current := a.current[b := data])
    case TxCommit => a.(durable := a.current)
    case TxFail => TxDisk(a.durable, a.durable, {}, false)
    case TxUp => a.(up := true)
  }

  /** The transition of the transactional disk that a kernel step performs. */
  ghost function TxOf(s: State, e: Step): TxStep {
    if !Enabled(s, e) then Stutter else
    match e
    case BeginOp(t) => TxBegin(t)
    case EndOp(t) => TxEnd(t)
    case LogWrite(t, i) => TxWrite(t, s.bufs[i].block.value, s.bufs[i].data)
    case WriteHead(_, _) => TxCommit
    case ClearHead(_, _) => if s.log.phase.RClearing? then TxUp else Stutter
    case Crash => TxFail
    case _ => Stutter
  }

  ghost function HomeOf(d: Disk, start: nat): map<nat, Block> {
    map b: nat | 0 <= b < |d| && Home(|d|, start, b) :: d[b]
  }

  /** The abstract disk implemented by s: durable is what a complete recovery from the
      disk alone would produce. */
  ghost function Abs(s: State): TxDisk {
    var durable := if HeaderOk(s.log.disk, s.log.start) then HomeOf(Recovered(s.log.disk, s.log.start), s.log.start)
        else map[];
    TxDisk(durable, if s.log.Recovering() then durable else HomeOf(s.log.view, s.log.start), s.ops, !s.log.Recovering())
  }

  /** The contents kept for the proof are those a recovery computes from the disk. */
  lemma DurableIsCommitted(s: State)
    requires Inv(s)
    ensures Abs(s).durable == HomeOf(s.log.committed, s.log.start)
    ensures Abs(s) == AbsLog(s.log, s.ops)
  {
    var d := s.log.disk;
    RecoveredIsRepresented(d, s.log.start);
    RepresentsUnique(d, s.log.start, s.log.hdr, Recovered(d, s.log.start), s.log.committed);
  }

  /** Abs read off the bookkeeping fields instead of the disk. */
  ghost function AbsLog(l: Log, ops: set<nat>): TxDisk {
    var durable := HomeOf(l.committed, l.start);
    TxDisk(durable, if l.Recovering() then durable else HomeOf(l.view, l.start), ops, !l.Recovering())
  }

  lemma HomeOfUpdate(d: Disk, start: nat, b: nat, data: Block)
    requires b < |d|
    ensures InLog(start, b) ==> HomeOf(d[b := data], start) == HomeOf(d, start)
    ensures Home(|d|, start, b) ==> b in HomeOf(d, start) && HomeOf(d[b := data], start) == HomeOf(d, start)[b := data]
  {
  }

  lemma LogWriteRefines(l: Log, b: nat, data: Block, ops: set<nat>)
    requires l.Ok() && l.phase.Idle? && l.HomeBlock(b)
    ensures b in AbsLog(l, ops).current
    ensures var a := AbsLog(l, ops); AbsLog(l.Record(b, data), ops) == a.(current := a.current[b := data])
  {
    HomeOfUpdate(l.view, l.start, b, data);
  }

  lemma LogOneRefines(l: Log, data: Block, ops: set<nat>)
    requires l.Ok() && l.phase.Writing? && l.phase.k < |l.lh|
    ensures AbsLog(l.LogOne(data), ops) == AbsLog(l, ops)
  {
    HomeOfUpdate(l.view, l.start, l.start + 1 + l.phase.k, data);
  }

  lemma CommitRefines(l: Log, data: Block, ops: set<nat>)
    requires l.Ok() && l.phase.Writing? && |data| == WORDS
    ensures var a := AbsLog(l, ops); AbsLog(l.Commit(data), ops) == a.(durable := a.current)
  {
    HomeOfUpdate(l.view, l.start, l.start, EncodeHeader(data, l.lh));
  }

  lemma ClearStepRefines(l: Log, data: Block, ops: set<nat>)
    requires l.Ok() && (l.phase.Clearing? || l.phase.RClearing?) && |data| == WORDS
    ensures AbsLog(l.Clear(data), ops) == AbsLog(l, ops).(up := true)
  {
    HomeOfUpdate(l.view, l.start, l.start, EncodeHeader(data, []));
    assert l.phase.RClearing? ==> SameHome(l.committed, l.view, l.start);
  }

  lemma InstallRefines(l: Log, data: Block, ops: set<nat>, l': Log)
    requires l.Ok() && l.phase.Installing? && l.phase.k < |l.lh| && data == l.disk[l.start + 1 + l.phase.k]
    requires l' == l.InstallOne(data)
    ensures AbsLog(l', ops) == AbsLog(l, ops)
  {
    InstallOneOk(l.start, l.disk, l.lh, l.phase.k, l.view, l.committed, l.pins, l'.disk, l'.pins);
    assert l'.view == l.view;
  }

  /** A kernel step and its abstract transition agree, on the bookkeeping fields. */
  ghost predicate Agree(s: State, e: Step) {
    var a, s' := AbsLog(s.log, s.ops), Apply(s, e);
    TxEnabled(a, TxOf(s, e)) && AbsLog(s'.log, s'.ops) == TxApply(a, TxOf(s, e))
  }

  lemma OperationAgrees(s: State, e: Step)
    requires s.log.Ok() && OpsOk(s) && Enabled(s, e) && (e.BeginOp? || e.EndOp? || e.LogWrite?)
    ensures Agree(s, e)
  {
    match e
    case BeginOp(_) =>
    case EndOp(_) =>
    case LogWrite(t, i) => LogWriteAgrees(s, t, i);
  }

  lemma LogWriteEffect(s: State, t: nat, i: nat, s': State)
    requires Enabled(s, LogWrite(t, i)) && s' == Apply(s, LogWrite(t, i))
    ensures s.log.HomeBlock(s.bufs[i].block.value)
    ensures s'.log == s.log.Record(s.bufs[i].block.value, s.bufs[i].data) && s'.ops == s.ops
    ensures TxOf(s, LogWrite(t, i)) == TxWrite(t, s.bufs[i].block.value, s.bufs[i].data) && t in s.ops
  {
  }

  lemma LogWriteAgrees(s: State, t: nat, i: nat)
    requires s.log.Ok() && OpsOk(s) && Enabled(s, LogWrite(t, i))
    ensures Agree(s, LogWrite(t, i))
  {
    LogWriteEffect(s, t, i, Apply(s, LogWrite(t, i)));
    LogWriteRefines(s.log, s.bufs[i].block.value, s.bufs[i].data, s.ops);
  }

  lemma CommitAgrees(s: State, e: Step)
    requires s.log.Ok() && OpsOk(s) && Enabled(s, e) && (e.WriteLogBlock? || e.WriteHead? || e.ClearHead?)
    ensures Agree(s, e)
  {
    match e
    case WriteLogBlock(_, _, j) => LogOneRefines(s.log, s.bufs[j].data, s.ops);
    case WriteHead(_, i) => CommitRefines(s.log, s.bufs[i].data, s.ops);
    case ClearHead(_, i) => ClearStepRefines(s.log, s.bufs[i].data, s.ops);
  }

  lemma InstallReadyRefines(s: State, t: nat, i: nat, j: nat, k: nat, data: Block, l': Log)
    requires Inv(s) && s.log.phase == Installing(k) && CopyReady(s, t, i, j, k) && data == s.bufs[i].data
    requires l' == s.log.InstallOne(data)
    ensures AbsLog(l', s.ops) == AbsLog(s.log, s.ops)
  {
    LogBufferCurrent(s, i, k);
    InstallRefines(s.log, data, s.ops, l');
  }

  lemma InstallAgrees(s: State, t: nat, i: nat, j: nat)
    requires Inv(s) && Enabled(s, InstallBlock(t, i, j))
    ensures Agree(s, InstallBlock(t, i, j))
  {
    InstallEffect(s, t, i, j, Apply(s, InstallBlock(t, i, j)));
    InstallReadyRefines(s, t, i, j, s.log.phase.k, s.bufs[i].data, Apply(s, InstallBlock(t, i, j)).log);
    assert TxOf(s, InstallBlock(t, i, j)) == Stutter;
  }

  lemma QuietAgrees(s: State, e: Step)
    requires s.log.Ok() && Enabled(s, e)
    requires IsBufStep(e) || e.DropTransaction? || e.FinishCommit? || e.Crash? || e.ReadHead? || e.RecoverBlock?
    ensures Agree(s, e)
  {
    if IsBufStep(e) {
      assert Apply(s, e).log == s.log && Apply(s, e).ops == s.ops && TxOf(s, e) == Stutter;
    } else if e.Crash? {
      CrashAgrees(s);
    } else {
      RecoveryAgrees(s, e);
    }
  }

  lemma CrashAgrees(s: State)
    requires s.log.Ok() && Enabled(s, Crash)
    ensures Agree(s, Crash)
  {
  }

  lemma RecoveryAgrees(s: State, e: Step)
    requires s.log.Ok() && Enabled(s, e) && (e.DropTransaction? || e.FinishCommit? || e.ReadHead? || e.RecoverBlock?)
    ensures Agree(s, e)
  {
    match e
    case DropTransaction =>
    case FinishCommit =>
    case ReadHead(_, _) =>
    case RecoverBlock(_, _, _) =>
  }

  lemma StepAgrees(s: State, e: Step)
    requires Inv(s) && Enabled(s, e)
    ensures Agree(s, e)
  {
    if e.InstallBlock? {
      InstallAgrees(s, e.t, e.i, e.j);
    } else if e.BeginOp? || e.EndOp? || e.LogWrite? {
      OperationAgrees(s, e);
    } else if e.WriteLogBlock? || e.WriteHead? || e.ClearHead? {
      CommitAgrees(s, e);
    } else {
      QuietAgrees(s, e);
    }
  }

  /** Every step of the kernel is an atomic step of the transactional disk. */
  lemma StepRefines(s: State, e: Step)
    requires Inv(s)
    ensures Inv(Apply(s, e))
    ensures TxEnabled(Abs(s), TxOf(s, e))
    ensures Abs(Apply(s, e)) == TxApply(Abs(s), TxOf(s, e))
  {
    if Enabled(s, e) {
      StepKeepsInv(s, e);
      DurableIsCommitted(s);
      DurableIsCommitted(Apply(s, e));
      StepAgrees(s, e);
    }
  }

  // ---------------------------------------------------------------- main results

  /** Whole runs: from power-on, with any interleaving and any crashes, the kernel performs
      a run of the transactional disk. */
  lemma RunRefines(s: State, es: seq<Step>, i: nat)
    requires Inv(s) && i < |es|
    ensures var u, v := Trace(s, es)[i], Trace(s, es)[i + 1];
      && Inv(u) && Inv(v)
      && TxEnabled(Abs(u), TxOf(u, es[i]))
      && Abs(v) == TxApply(Abs(u), TxOf(u, es[i]))
  {
    ReachableInv(s, es, i);
    TraceStep(s, es, i);
    StepRefines(Trace(s, es)[i], es[i]);
  }

  /** No operation in progress, nothing written that is not durable, and the durable
      contents are c. */
  ghost predicate Clean(s: State, c: map<nat, Block>) {
    Inv(s) && Abs(s).active == {} && Abs(s).current == Abs(s).durable == c
  }

  lemma CleanStep(s: State, e: Step, c: map<nat, Block>)
    requires Clean(s, c) && !e.BeginOp?
    ensures Clean(Apply(s, e), c)
  {
    StepRefines(s, e);
    assert !TxOf(s, e).TxBegin?;
  }

  lemma CleanRun(s: State, es: seq<Step>, c: map<nat, Block>)
    requires Clean(s, c)
    requires forall e | e in es :: !e.BeginOp?
    ensures Clean(Trace(s, es)[|es|], c)
  {
    forall u, e: Step | Clean(u, c) && !e.BeginOp?
      ensures Clean(Apply(u, e), c)
    {
      CleanStep(u, e, c);
    }
    RunInduction(u => Clean(u, c), (e: Step) => !e.BeginOp?, s, es, |es|);
  }

  lemma CrashIsClean(s: State)
    requires Inv(s)
    ensures Clean(Apply(s, Crash), Abs(s).durable)
  {
    StepRefines(s, Crash);
  }

  /** Crash atomicity: crash in any reachable state, then let recovery run, itself crashing
      any number of times. Whatever the durable contents were at the first crash is what
      the disk still represents afterwards, and once recovery is done it is what reads
      return and what the home blocks hold. */
  lemma RecoveryRestoresDurable(s: State, es: seq<Step>)
    requires Inv(s)
    requires forall e | e in es :: !e.BeginOp?
    ensures var final := Trace(Apply(s, Crash), es)[|es|];
      && Clean(final, Abs(s).durable)
      && (final.log.phase.Idle? ==> HomeOf(final.log.disk, final.log.start) == Abs(s).durable)
  {
    CrashIsClean(s);
    CleanRun(Apply(s, Crash), es, Abs(s).durable);
    var final := Trace(Apply(s, Crash), es)[|es|];
    if final.log.phase.Idle? {
      QuiescentIsDurable(final);
    }
  }

  /** All-new from the header write on, all-old before it: no step but WriteHead changes
      the durable contents, and WriteHead makes all of the current contents durable. */
  lemma OnlyCommitIsDurable(s: State, e: Step)
    requires Inv(s) && Enabled(s, e)
    ensures e.WriteHead? ==> Abs(Apply(s, e)).durable == Abs(s).current && s.ops == {}
    ensures !e.WriteHead? ==> Abs(Apply(s, e)).durable == Abs(s).durable
  {
    StepRefines(s, e);
  }

  /** Durability: once the last operation's end_op has finished its commit, everything
      written is durable and is also installed at its home location. */
  lemma QuiescentIsDurable(s: State)
    requires Inv(s) && s.ops == {} && s.log.phase.Idle?
    ensures Abs(s).durable == Abs(s).current == HomeOf(s.log.disk, s.log.start)
    ensures Header(s.log.disk, s.log.start) == []
  {
    DurableIsCommitted(s);
    assert s.log.pins == {};
    assert SameHome(s.log.disk, s.log.committed, s.log.start);
    assert SameHome(s.log.disk, s.log.view, s.log.start);
  }

  /** Transparency: a process that holds a buffer it has not changed reads the latest
      logged contents of its block, whatever was evicted or committed in between. */
  lemma ReadSeesCurrent(s: State, t: nat, i: nat, b: nat)
    requires Inv(s) && !s.log.Recovering() && s.log.HomeBlock(b)
    requires Holds(s, t, i, b) && !s.bufs[i].dirty
    ensures b in Abs(s).current && s.bufs[i].data == Abs(s).current[b]
  {
    assert BufOk(s.bufs[i], s.log.view, s.log.start, s.log.pins, s.ops);
  }

  /** A logged block keeps its buffer until it is installed. */
  lemma LoggedBlockStaysCached(s: State, k: nat, t: nat, b: nat)
    requires Inv(s) && (s.log.phase.Idle? || s.log.phase.Writing?) && k < |s.log.lh|
    ensures exists i :: 0 <= i < |s.bufs| && s.bufs[i].block == Some(s.log.lh[k]) && s.bufs[i].valid
                        && s.bufs[i].refcnt == |s.bufs[i].users| + 1 && !Enabled(s, BgetMiss(t, i, b))
  {
    assert s.log.lh[k] in s.log.pins;
    var i :| 0 <= i < |s.bufs| && s.bufs[i].block == Some(s.log.lh[k]);
    assert BufOk(s.bufs[i], s.log.view, s.log.start, s.log.pins, s.ops);
  }

  /** Log space: an operation that still has credit never finds the log full, and a full
      log means that every operation in progress has used all its MAXOPBLOCKS. */
  lemma LogNeverOverflows(s: State, t: nat)
    requires Inv(s)
    ensures s.credits[t] > 0 ==> |s.log.lh| < LOGBLOCKS
    ensures |s.log.lh| >= LOGBLOCKS ==> forall u :: s.credits[u] == 0
  {
    if s.credits[t] > 0 {
      assert t in s.credits;
    }
    if |s.credits| == 0 {
      assert s.credits == multiset{};
    }
  }
}
