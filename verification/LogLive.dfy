/** Commits and recoveries finish: from which states the log of kernel/log.c can be brought to
    rest, with everything written on disk, although commit and recovery need buffers of a cache
    of kernel/bio.c that is as large as the log. */
module LogLive {
  import opened LogFormat
  import opened LogMachine

  // ---------------------------------------------------------------- continuations

  /** A step that neither begins nor changes anything, and is no crash. */
  predicate Finishing(e: Step) { !e.Crash? && !e.BeginOp? && !e.Modify? && !e.LogWrite? }

  /** Finishing steps that lead from s to s'. */
  ghost predicate Steps(s: State, es: seq<Step>, s': State)
    decreases |es|
  {
    if es == [] then s' == s else Finishing(es[0]) && Steps(Apply(s, es[0]), es[1..], s')
  }

  ghost predicate Leads(s: State, s': State) { exists es :: Steps(s, es, s') }

  lemma LeadsHere(s: State)
    ensures Leads(s, s)
  {
    assert Steps(s, [], s);
  }

  lemma LeadsBy(s: State, e: Step)
    requires Finishing(e)
    ensures Leads(s, Apply(s, e))
  {
    assert [e][1..] == [] && Steps(Apply(s, e), [], Apply(s, e));
    assert Steps(s, [e], Apply(s, e));
  }

  lemma {:induction false} StepsJoin(s: State, es: seq<Step>, s1: State, fs: seq<Step>, s': State)
    requires Steps(s, es, s1) && Steps(s1, fs, s')
    ensures Steps(s, es + fs, s')
    decreases |es|
  {
    if es == [] {
      assert es + fs == fs;
    } else {
      StepsJoin(Apply(s, es[0]), es[1..], s1, fs, s');
      assert (es + fs)[0] == es[0] && (es + fs)[1..] == es[1..] + fs;
    }
  }

  lemma LeadsOn(s: State, s1: State, s': State)
    requires Leads(s, s1) && Leads(s1, s')
    ensures Leads(s, s')
  {
    var es :| Steps(s, es, s1);
    var fs :| Steps(s1, fs, s');
    StepsJoin(s, es, s1, fs, s');
  }

  lemma {:induction false} StepsTrace(s: State, es: seq<Step>, s': State)
    requires Steps(s, es, s')
    ensures Trace(s, es)[|es|] == s' && forall e | e in es :: Finishing(e)
    decreases |es|
  {
    if es != [] {
      StepsTrace(Apply(s, es[0]), es[1..], s');
      assert es == [es[0]] + es[1..];
    }
  }

  lemma FinishingKeeps(s: State, e: Step)
    requires Inv(s) && Finishing(e)
    ensures Inv(Apply(s, e)) && Abs(Apply(s, e)).current == Abs(s).current
  {
    StepRefines(s, e);
  }

  /** On the way nothing new is written. */
  lemma {:induction false} StepsKeep(s: State, es: seq<Step>, s': State)
    requires Inv(s) && Steps(s, es, s')
    ensures Inv(s') && Abs(s').current == Abs(s).current
    decreases |es|
  {
    if es != [] {
      FinishingKeeps(s, es[0]);
      StepsKeep(Apply(s, es[0]), es[1..], s');
    }
  }

  // ---------------------------------------------------------------- pinned buffers

  predicate PinnedBuf(u: Buf, pins: set<nat>) { u.block.Some? && u.block.value in pins }

  function PinnedCount(bufs: seq<Buf>, pins: set<nat>, k: nat): nat
    requires k <= |bufs|
  {
    if k == 0 then 0 else PinnedCount(bufs, pins, k - 1) + if PinnedBuf(bufs[k - 1], pins) then 1 else 0
  }

  function PinnedBlocks(bufs: seq<Buf>, pins: set<nat>, k: nat): set<nat>
    requires k <= |bufs|
  {
    if k == 0 then {}
    else PinnedBlocks(bufs, pins, k - 1) + if PinnedBuf(bufs[k - 1], pins) then {bufs[k - 1].block.value} else {}
  }

  lemma {:induction false} InPinnedBlocks(bufs: seq<Buf>, pins: set<nat>, k: nat, b: nat)
    requires k <= |bufs|
    ensures b in PinnedBlocks(bufs, pins, k) <==> b in pins && exists i :: 0 <= i < k && bufs[i].block == Some(b)
  {
    if k > 0 {
      InPinnedBlocks(bufs, pins, k - 1, b);
    }
  }

  /** No two buffers hold the same block, so there are as many pinned buffers as blocks. */
  lemma {:induction false} PinnedSize(bufs: seq<Buf>, pins: set<nat>, k: nat)
    requires k <= |bufs|
    requires forall i, j | 0 <= i < j < |bufs| :: bufs[i].block.Some? ==> bufs[i].block != bufs[j].block
    ensures |PinnedBlocks(bufs, pins, k)| == PinnedCount(bufs, pins, k)
  {
    if k > 0 {
      PinnedSize(bufs, pins, k - 1);
      if PinnedBuf(bufs[k - 1], pins) {
        InPinnedBlocks(bufs, pins, k - 1, bufs[k - 1].block.value);
      }
    }
  }

  lemma {:induction false} AllPinnedIff(bufs: seq<Buf>, pins: set<nat>, k: nat)
    requires k <= |bufs|
    ensures PinnedCount(bufs, pins, k) <= k
    ensures PinnedCount(bufs, pins, k) == k <==> forall i | 0 <= i < k :: PinnedBuf(bufs[i], pins)
  {
    if k > 0 {
      AllPinnedIff(bufs, pins, k - 1);
    }
  }

  /** A buffer is left for other blocks if and only if fewer than NBUF blocks are pinned. */
  lemma RoomIff(s: State)
    requires Inv(s)
    ensures |s.log.pins| <= NBUF
    ensures |s.log.pins| == NBUF <==> forall i | 0 <= i < NBUF :: PinnedBuf(s.bufs[i], s.log.pins)
  {
    var bufs, pins := s.bufs, s.log.pins;
    forall b: nat
      ensures b in PinnedBlocks(bufs, pins, NBUF) <==> b in pins
    {
      InPinnedBlocks(bufs, pins, NBUF, b);
      if b in pins {
        assert Cached(bufs, b);
      }
    }
    assert PinnedBlocks(bufs, pins, NBUF) == pins;
    PinnedSize(bufs, pins, NBUF);
    AllPinnedIff(bufs, pins, NBUF);
  }

  // ---------------------------------------------------------------- one buffer

  ghost predicate Calm(s: State) { Inv(s) && forall i | 0 <= i < |s.bufs| :: !s.bufs[i].dirty }

  /** From s to s' only buffer i changes. */
  ghost predicate Only(s: State, s': State, i: nat) {
    Leads(s, s') && Calm(s) && Calm(s') && i < NBUF && s' == s.(bufs := s.bufs[i := s'.bufs[i]])
  }

  lemma OnlyOn(s: State, s1: State, s': State, i: nat)
    requires Only(s, s1, i) && Only(s1, s', i)
    ensures Only(s, s', i)
  {
    LeadsOn(s, s1, s');
    assert s'.bufs == s.bufs[i := s'.bufs[i]];
  }

  lemma OnlyHere(s: State, i: nat)
    requires Calm(s) && i < NBUF
    ensures Only(s, s, i)
  {
    LeadsHere(s);
    assert s.bufs == s.bufs[i := s.bufs[i]];
  }

  lemma BufDoes(s: State, e: Step, s': State)
    requires Calm(s) && Enabled(s, e) && IsBufStep(e) && !e.Modify? && s' == Apply(s, e)
    ensures Only(s, s', e.i) && s'.bufs[e.i] == BufStep(s, e, s.bufs[e.i])
  {
    BufferStepKeepsInv(s, e);
    LeadsBy(s, e);
  }

  lemma Unlock(s: State, i: nat) returns (s': State)
    requires Calm(s) && i < NBUF
    ensures Only(s, s', i) && s'.bufs[i] == s.bufs[i].(locker := None)
  {
    s' := s;
    OnlyHere(s, i);
    if s.bufs[i].locker.Some? {
      s' := Apply(s, UnlockBuf(s.bufs[i].locker.value, i));
      BufDoes(s, UnlockBuf(s.bufs[i].locker.value, i), s');
    }
  }

  /** Its users put buffer i back. */
  lemma {:induction false} PutBack(s: State, i: nat) returns (s': State)
    requires Calm(s) && i < NBUF && s.bufs[i].locker.None? && !PinnedBuf(s.bufs[i], s.log.pins)
    ensures Only(s, s', i) && s'.bufs[i].refcnt == 0 && s'.bufs[i].block == s.bufs[i].block
    decreases |s.bufs[i].users|
  {
    var u := s.bufs[i];
    assert BufOk(u, s.log.view, s.log.start, s.log.pins, s.ops);
    s' := s;
    OnlyHere(s, i);
    if u.refcnt > 0 {
      var t := Member(u.users);
      var s1 := Apply(s, Unref(t, i));
      BufDoes(s, Unref(t, i), s1);
      s' := PutBack(s1, i);
      OnlyOn(s, s1, s', i);
    }
  }

  lemma NoMember(m: multiset<nat>)
    requires forall x: nat :: x !in m
    ensures |m| == 0
  {
    assert m == multiset{};
  }

  lemma Member(m: multiset<nat>) returns (t: nat)
    requires |m| > 0
    ensures t in m
  {
    if forall x: nat :: x !in m {
      NoMember(m);
    }
    t :| t in m;
  }

  lemma Take(s: State, t: nat, i: nat, b: nat) returns (s': State)
    requires Calm(s) && i < NBUF && s.bufs[i].block == Some(b)
    ensures Only(s, s', i) && Holds(s', t, i, b)
  {
    var s1 := Unlock(s, i);
    var s2 := Apply(s1, BgetHit(t, i, b));
    BufDoes(s1, BgetHit(t, i, b), s2);
    OnlyOn(s, s1, s2, i);
    s' := Grab(s2, t, i, b);
    OnlyOn(s, s2, s', i);
  }

  lemma Grab(s: State, t: nat, i: nat, b: nat) returns (s': State)
    requires Calm(s) && i < NBUF && s.bufs[i].block == Some(b) && s.bufs[i].locker.None? && t in s.bufs[i].users
    ensures Only(s, s', i) && Holds(s', t, i, b)
  {
    var s1 := Apply(s, LockBuf(t, i));
    BufDoes(s, LockBuf(t, i), s1);
    s' := Fill(s1, t, i, b);
    OnlyOn(s, s1, s', i);
  }

  lemma Fill(s: State, t: nat, i: nat, b: nat) returns (s': State)
    requires Calm(s) && i < NBUF && s.bufs[i].block == Some(b) && s.bufs[i].locker == Some(t)
    ensures Only(s, s', i) && Holds(s', t, i, b)
  {
    s' := s;
    OnlyHere(s, i);
    if !s.bufs[i].valid {
      assert BufOk(s.bufs[i], s.log.view, s.log.start, s.log.pins, s.ops);
      s' := Apply(s, ReadDisk(t, i));
      BufDoes(s, ReadDisk(t, i), s');
    }
  }

  lemma Empty(s: State, i: nat) returns (s': State)
    requires Calm(s) && i < NBUF && !PinnedBuf(s.bufs[i], s.log.pins)
    ensures Only(s, s', i) && s'.bufs[i].refcnt == 0 && s'.bufs[i].block == s.bufs[i].block
  {
    var s1 := Unlock(s, i);
    s' := PutBack(s1, i);
    OnlyOn(s, s1, s', i);
  }

  /** bread of a block that is not cached, into buffer i. */
  lemma Recycle(s: State, t: nat, i: nat, b: nat) returns (s': State)
    requires Calm(s) && i < NBUF && !PinnedBuf(s.bufs[i], s.log.pins) && !Cached(s.bufs, b) && b < |s.log.disk|
    ensures Only(s, s', i) && Holds(s', t, i, b)
  {
    var s1 := Empty(s, i);
    assert forall j | 0 <= j < NBUF :: s1.bufs[j].block == s.bufs[j].block;
    var s2 := Apply(s1, BgetMiss(t, i, b));
    BufDoes(s1, BgetMiss(t, i, b), s2);
    OnlyOn(s, s1, s2, i);
    s' := Grab(s2, t, i, b);
    OnlyOn(s, s2, s', i);
  }

  /** From s to s' only buffers change, and not buffer j unless it holds block b. */
  ghost predicate Brought(s: State, s': State, b: nat, j: nat) {
    && Leads(s, s') && Calm(s) && Calm(s') && s' == s.(bufs := s'.bufs)
    && (j < NBUF && s.bufs[j].block != Some(b) ==> s'.bufs[j] == s.bufs[j])
  }

  /** Process t gets hold of block b, as long as some buffer other than j is not pinned. */
  lemma Bring(s: State, t: nat, b: nat, j: nat) returns (s': State, i: nat)
    requires Calm(s) && b < |s.log.disk|
    requires exists v: nat :: v < NBUF && v != j && !PinnedBuf(s.bufs[v], s.log.pins)
    ensures Brought(s, s', b, j) && Holds(s', t, i, b)
  {
    if Cached(s.bufs, b) {
      i :| 0 <= i < |s.bufs| && s.bufs[i].block == Some(b);
      s' := Take(s, t, i, b);
    } else {
      i :| i < NBUF && i != j && !PinnedBuf(s.bufs[i], s.log.pins);
      s' := Recycle(s, t, i, b);
    }
  }

  /** It gets hold of a home block and of a log block, the home block being pinned or nothing. */
  lemma BringTwo(s: State, t: nat, b: nat, a: nat) returns (s': State, i: nat, j: nat)
    requires Calm(s) && |s.log.pins| < NBUF && (b in s.log.pins || s.log.pins == {})
    requires b < |s.log.disk| && a < |s.log.disk| && a != b
    ensures Brought(s, s', a, NBUF) && Holds(s', t, i, a) && Holds(s', t, j, b)
  {
    RoomIff(s);
    var s1;
    s1, j := Bring(s, t, b, NBUF);
    RoomIff(s1);
    var v: nat :| v < NBUF && !PinnedBuf(s1.bufs[v], s1.log.pins);
    if b !in s.log.pins {
      v := if j == 0 then 1 else 0;
    }
    assert v < NBUF && v != j && !PinnedBuf(s1.bufs[v], s1.log.pins);
    s', i := Bring(s1, t, a, j);
    LeadsOn(s, s1, s');
  }

  lemma BringOne(s: State, t: nat, b: nat) returns (s': State, i: nat)
    requires Calm(s) && |s.log.pins| < NBUF && b < |s.log.disk|
    ensures Brought(s, s', b, NBUF) && Holds(s', t, i, b)
  {
    RoomIff(s);
    s', i := Bring(s, t, b, NBUF);
  }

  // ---------------------------------------------------------------- commit

  /** What commit() has left to do. */
  function Rank(p: Phase): nat {
    match p
    case Boot => 5
    case RInstalling(_) => 4
    case RClearing => 1
    case Writing(_) => 4
    case Installing(_) => 3
    case Clearing => 2
    case Done => 1
    case Idle => 0
  }

  function Blocks(l: Log): nat {
    match l.phase
    case Writing(k) => if k < |l.lh| then |l.lh| - k else 0
    case Installing(k) => if k < |l.lh| then |l.lh| - k else 0
    case RInstalling(k) => if k < |l.lh| then |l.lh| - k else 0
    case _ => 0
  }

  ghost predicate Nearer(s: State, s': State) { Leads(s, s') && Calm(s) && Calm(s') && Less(s, s') }

  ghost predicate Less(s: State, s': State) {
    && s'.ops == s.ops && s'.log.pins <= s.log.pins
    && (Rank(s'.log.phase) < Rank(s.log.phase)
        || (Rank(s'.log.phase) == Rank(s.log.phase) && Blocks(s'.log) < Blocks(s.log)))
  }

  /** A step that gets nearer, after some that only brought buffers. */
  lemma NearerBy(s: State, s1: State, b: nat, e: Step)
    requires Brought(s, s1, b, NBUF) && s1.ops == {} && Finishing(e) && Enabled(s1, e) && Less(s1, Apply(s1, e))
    ensures Nearer(s, Apply(s1, e))
  {
    DoneBy(s1, e);
    NoOpsCalm(Apply(s1, e));
    LeadsOn(s, s1, Apply(s1, e));
  }

  lemma DoneBy(s: State, e: Step)
    requires Calm(s) && s.ops == {} && Enabled(s, e) && Finishing(e)
    ensures Leads(s, Apply(s, e)) && Inv(Apply(s, e))
  {
    StepKeepsInv(s, e);
    LeadsBy(s, e);
  }

  /** Nobody is in an operation, so no buffer is dirty. */
  lemma NoOpsCalm(s: State)
    requires Inv(s) && s.ops == {}
    ensures Calm(s)
  {
    forall i | 0 <= i < |s.bufs|
      ensures !s.bufs[i].dirty
    {
      assert BufOk(s.bufs[i], s.log.view, s.log.start, s.log.pins, s.ops);
    }
  }

  /** A logged block and the place of its copy in the log are two blocks of the disk. */
  lemma Places(l: Log, k: nat)
    requires l.Ok() && k < |l.lh|
    ensures l.lh[k] < |l.disk| == |l.view| && l.start + 1 + k < |l.disk| && l.start + 1 + k != l.lh[k]
    ensures l.phase.Writing? || (l.phase.Installing? && l.phase.k <= k) ==> l.lh[k] in l.pins
  {
    assert Home(|l.disk|, l.start, l.lh[k]);
  }

  /** The committer holds a logged block and the place of its copy. */
  ghost predicate HoldsBoth(s: State, t: nat, i: nat, j: nat, k: nat) {
    && k < |s.log.lh| && s.log.lh[k] < |s.log.disk| == |s.log.view| && s.log.start + 1 + k < |s.log.disk|
    && Holds(s, t, i, s.log.start + 1 + k) && Holds(s, t, j, s.log.lh[k])
  }

  lemma BringBoth(s: State, t: nat, k: nat) returns (s': State, i: nat, j: nat)
    requires Calm(s) && |s.log.pins| < NBUF && k < |s.log.lh| && (s.log.lh[k] in s.log.pins || s.log.pins == {})
    ensures Brought(s, s', s.log.start + 1 + k, NBUF) && HoldsBoth(s', t, i, j, k)
    ensures s.log.lh[k] in s.log.pins ==> s'.bufs[j].refcnt > 0
  {
    Places(s.log, k);
    s', i, j := BringTwo(s, t, s.log.lh[k], s.log.start + 1 + k);
    if s.log.lh[k] in s.log.pins {
      PinnedInUse(s', j, s.log.lh[k]);
    }
  }

  lemma WriteLogNearer(s: State, t: nat) returns (s': State)
    requires Calm(s) && s.ops == {} && |s.log.pins| < NBUF && s.log.phase.Writing? && s.log.phase.k < |s.log.lh|
    ensures Nearer(s, s')
  {
    var k := s.log.phase.k;
    Places(s.log, k);
    var s1, i, j := BringBoth(s, t, k);
    s' := Apply(s1, WriteLogBlock(t, i, j));
    LogGrown(s1, t, i, j);
    NearerBy(s, s1, s.log.start + 1 + k, WriteLogBlock(t, i, j));
  }

  lemma LogGrown(s: State, t: nat, i: nat, j: nat)
    requires s.log.phase.Writing? && HoldsBoth(s, t, i, j, s.log.phase.k)
    ensures Enabled(s, WriteLogBlock(t, i, j)) && Less(s, Apply(s, WriteLogBlock(t, i, j)))
  {
  }

  lemma WriteHeadNearer(s: State, t: nat) returns (s': State)
    requires Calm(s) && s.ops == {} && |s.log.pins| < NBUF && s.log.phase.Writing? && s.log.phase.k == |s.log.lh|
    ensures Nearer(s, s')
  {
    var s1, i := BringOne(s, t, s.log.start);
    HeadBuffer(s1, t, i);
    s' := Apply(s1, WriteHead(t, i));
    NearerBy(s, s1, s.log.start, WriteHead(t, i));
  }

  /** The buffer of the header block holds it as it is on disk. */
  lemma HeadBuffer(s: State, t: nat, i: nat)
    requires Calm(s) && Holds(s, t, i, s.log.start)
    ensures s.bufs[i].data == s.log.disk[s.log.start] && |s.bufs[i].data| == WORDS && s.bufs[i].data[0] <= LOGBLOCKS
  {
    assert BufOk(s.bufs[i], s.log.view, s.log.start, s.log.pins, s.ops);
    assert InLog(s.log.start, s.log.start);
  }

  lemma InstallNearer(s: State, t: nat) returns (s': State)
    requires Calm(s) && s.ops == {} && |s.log.pins| < NBUF && s.log.phase.Installing? && s.log.phase.k < |s.log.lh|
    ensures Nearer(s, s')
  {
    var k := s.log.phase.k;
    Places(s.log, k);
    var s1, i, j := BringBoth(s, t, k);
    s' := Apply(s1, InstallBlock(t, i, j));
    Installed(s1, t, i, j);
    NearerBy(s, s1, s.log.start + 1 + k, InstallBlock(t, i, j));
  }

  lemma PinnedInUse(s: State, j: nat, b: nat)
    requires Inv(s) && j < |s.bufs| && s.bufs[j].block == Some(b) && b in s.log.pins
    ensures s.bufs[j].refcnt > 0
  {
    assert BufOk(s.bufs[j], s.log.view, s.log.start, s.log.pins, s.ops);
  }

  lemma Installed(s: State, t: nat, i: nat, j: nat)
    requires s.log.phase.Installing? && HoldsBoth(s, t, i, j, s.log.phase.k) && s.bufs[j].refcnt > 0
    ensures Enabled(s, InstallBlock(t, i, j)) && Less(s, Apply(s, InstallBlock(t, i, j)))
  {
    InstallEffect(s, t, i, j, Apply(s, InstallBlock(t, i, j)));
  }

  lemma RecoverNearer(s: State, t: nat) returns (s': State)
    requires Calm(s) && s.ops == {} && s.log.phase.RInstalling? && s.log.phase.k < |s.log.lh|
    ensures Nearer(s, s')
  {
    var k := s.log.phase.k;
    Places(s.log, k);
    var s1, i, j := BringBoth(s, t, k);
    s' := Apply(s1, RecoverBlock(t, i, j));
    Reinstalled(s1, t, i, j);
    NearerBy(s, s1, s.log.start + 1 + k, RecoverBlock(t, i, j));
  }

  lemma Reinstalled(s: State, t: nat, i: nat, j: nat)
    requires s.log.phase.RInstalling? && HoldsBoth(s, t, i, j, s.log.phase.k)
    ensures Enabled(s, RecoverBlock(t, i, j)) && Less(s, Apply(s, RecoverBlock(t, i, j)))
  {
    RecoverEffect(s, t, i, j, Apply(s, RecoverBlock(t, i, j)));
  }

  lemma ClearNearer(s: State, t: nat) returns (s': State)
    requires Calm(s) && s.ops == {} && (s.log.phase.Clearing? || s.log.phase.RClearing?)
    ensures Nearer(s, s')
  {
    var s1, i := BringOne(s, t, s.log.start);
    HeadBuffer(s1, t, i);
    s' := Apply(s1, ClearHead(t, i));
    NearerBy(s, s1, s.log.start, ClearHead(t, i));
  }

  lemma ReadHeadNearer(s: State, t: nat) returns (s': State)
    requires Calm(s) && s.ops == {} && s.log.phase.Boot?
    ensures Nearer(s, s')
  {
    var s1, i := BringOne(s, t, s.log.start);
    HeadBuffer(s1, t, i);
    s' := Apply(s1, ReadHead(t, i));
    NearerBy(s, s1, s.log.start, ReadHead(t, i));
  }

  lemma PlainNearer(s: State, e: Step)
    requires Calm(s) && s.ops == {} && Enabled(s, e) && (e == DropTransaction || e == FinishCommit)
    ensures Nearer(s, Apply(s, e))
  {
    DoneBy(s, e);
    NoOpsCalm(Apply(s, e));
  }

  lemma Nearly(s: State, t: nat) returns (s': State)
    requires Calm(s) && s.ops == {} && |s.log.pins| < NBUF && !s.log.phase.Idle?
    ensures Nearer(s, s')
  {
    var p := s.log.phase;
    if p.Writing? {
      if p.k < |s.log.lh| { s' := WriteLogNearer(s, t); } else { s' := WriteHeadNearer(s, t); }
    } else if p.Clearing? || p.RClearing? {
      s' := ClearNearer(s, t);
    } else if p.Boot? {
      s' := ReadHeadNearer(s, t);
    } else if p.Installing? && p.k < |s.log.lh| {
      s' := InstallNearer(s, t);
    } else if p.RInstalling? && p.k < |s.log.lh| {
      s' := RecoverNearer(s, t);
    } else {
      var e := if p.Done? then FinishCommit else DropTransaction;
      s' := Apply(s, e);
      PlainNearer(s, e);
    }
  }

  lemma Fewer(p: set<nat>, q: set<nat>)
    requires p <= q
    ensures |p| <= |q|
  {
    assert q == p + (q - p);
  }

  /** With no operation under way, commit or recovery runs to its end. */
  lemma {:induction false} Finishes(s: State, t: nat) returns (s': State)
    requires Inv(s) && s.ops == {} && |s.log.pins| < NBUF
    ensures Leads(s, s') && Settled(s')
    decreases Rank(s.log.phase), Blocks(s.log)
  {
    NoOpsCalm(s);
    if s.log.phase.Idle? {
      LeadsHere(s);
      return s;
    }
    var s1 := Nearly(s, t);
    Fewer(s1.log.pins, s.log.pins);
    s' := Finishes(s1, t);
    LeadsOn(s, s1, s');
  }

  /** No operation is under way and the log is idle: everything written is durable. */
  ghost predicate Settled(s: State) { Inv(s) && s.ops == {} && s.log.phase.Idle? }

  /** Operations that have logged what they changed can end. */
  lemma {:induction false} OpsEnd(s: State) returns (s': State)
    requires Calm(s)
    ensures Leads(s, s') && Inv(s') && s'.ops == {} && s'.log.pins == s.log.pins
    decreases |s.ops|
  {
    if s.ops == {} {
      LeadsHere(s);
      return s;
    }
    var t :| t in s.ops;
    var s1 := Apply(s, EndOp(t));
    StepKeepsInv(s, EndOp(t));
    LeadsBy(s, EndOp(t));
    assert |s.ops - {t}| < |s.ops|;
    s' := OpsEnd(s1);
    LeadsOn(s, s1, s');
  }

  // ---------------------------------------------------------------- every buffer pinned

  lemma PinsLogged(l: Log)
    requires l.Ok()
    ensures forall b | b in l.pins :: b in l.lh && l.HomeBlock(b)
    ensures l.Recovering() ==> l.pins == {}
  {
  }

  /** With NBUF blocks pinned the log is full ... */
  lemma FullUp(s: State)
    requires Inv(s) && |s.log.pins| == NBUF
    ensures |s.log.lh| == LOGBLOCKS && !s.log.Recovering() && !Settled(s)
  {
    PinsLogged(s.log);
    AsMany(s.log.lh, s.log.pins);
  }

  /** ... and no buffer is left for a block of the log. */
  lemma NoneForLog(s: State, t: nat, i: nat, a: nat)
    requires Inv(s) && |s.log.pins| == NBUF && InLog(s.log.start, a)
    ensures !Holds(s, t, i, a)
  {
    PinsLogged(s.log);
    RoomIff(s);
    if i < NBUF {
      assert PinnedBuf(s.bufs[i], s.log.pins);
    }
  }

  lemma {:induction false} AsMany(lh: seq<nat>, pins: set<nat>)
    requires forall b | b in pins :: b in lh
    ensures |pins| <= |lh|
  {
    if lh == [] {
      Fewer(pins, {});
    } else {
      AsMany(lh[1..], pins - {lh[0]});
      Fewer(pins, pins - {lh[0]} + {lh[0]});
    }
  }

  /** Before the commit point every logged block is pinned. */
  lemma PinsAreLogged(lh: seq<nat>, pins: set<nat>)
    requires PinsFrom(0, lh, pins)
    ensures |pins| == |lh|
  {
    assert lh[0..] == lh;
    SameSize(lh, pins);
  }

  lemma {:induction false} SameSize(lh: seq<nat>, pins: set<nat>)
    requires Distinct(lh) && forall b :: b in pins <==> b in lh
    ensures |pins| == |lh|
  {
    if lh == [] {
      Fewer(pins, {});
    } else {
      assert lh == [lh[0]] + lh[1..];
      SameSize(lh[1..], pins - {lh[0]});
    }
  }

  lemma StuckStep(s: State, e: Step)
    requires Inv(s) && |s.log.pins| == NBUF && !e.Crash?
    ensures Inv(Apply(s, e)) && Apply(s, e).log.pins == s.log.pins
    ensures Abs(Apply(s, e)).durable == Abs(s).durable
  {
    if Enabled(s, e) {
      FullRefuses(s, e);
      PinsStay(s, e);
      StepKeepsInv(s, e);
      OnlyCommitIsDurable(s, e);
    }
  }

  /** Then log_write is refused, and the committer cannot get hold of a block of the log. */
  lemma FullRefuses(s: State, e: Step)
    requires Inv(s) && |s.log.pins| == NBUF && Enabled(s, e)
    ensures !e.LogWrite? && !e.WriteHead? && !e.InstallBlock?
  {
    FullUp(s);
    if e.WriteHead? {
      NoneForLog(s, e.t, e.i, s.log.start);
    } else if e.InstallBlock? {
      NoneForLog(s, e.t, e.i, s.log.start + 1 + s.log.phase.k);
    }
  }

  lemma PinsStay(s: State, e: Step)
    requires !e.Crash? && !e.LogWrite? && !e.InstallBlock?
    ensures Apply(s, e).log.pins == s.log.pins
  {
  }

  /** Once every buffer is pinned nothing becomes durable any more, until the machine is
      switched off: no commit gets past its first bread. */
  lemma FullNeverCommits(s: State, es: seq<Step>)
    requires Inv(s) && |s.log.pins| == NBUF && forall e | e in es :: !e.Crash?
    ensures var s' := Trace(s, es)[|es|]; !Settled(s') && Abs(s').durable == Abs(s).durable
  {
    var pins, d := s.log.pins, Abs(s).durable;
    forall u, e: Step | Inv(u) && u.log.pins == pins && Abs(u).durable == d && !e.Crash?
      ensures Inv(Apply(u, e)) && Apply(u, e).log.pins == pins && Abs(Apply(u, e)).durable == d
    {
      StuckStep(u, e);
    }
    RunInduction(u => Inv(u) && u.log.pins == pins && Abs(u).durable == d, (e: Step) => !e.Crash?, s, es, |es|);
    FullUp(Trace(s, es)[|es|]);
  }

  // ---------------------------------------------------------------- main results

  /** The log comes to rest after steps es, with everything that was current in s durable. */
  ghost predicate Settles(s: State, es: seq<Step>) {
    var s' := Trace(s, es)[|es|];
    (forall e | e in es :: Finishing(e)) && Settled(s') && Abs(s').durable == Abs(s').current == Abs(s).current
  }

  lemma LeadsSettles(s: State, s': State)
    requires Inv(s) && Leads(s, s') && Settled(s')
    ensures exists es :: Settles(s, es)
  {
    var es :| Steps(s, es, s');
    StepsKeep(s, es, s');
    StepsTrace(s, es, s');
    QuiescentIsDurable(s');
    assert Settles(s, es);
  }

  /** Once every operation has logged what it changed, the operations can end and the commit
      can put all of it on disk, whoever holds buffers and wherever the commit is, if and only
      if fewer than NBUF blocks are pinned. */
  lemma SettlesIff(s: State)
    requires Calm(s) && !s.log.Recovering()
    ensures (exists es :: Settles(s, es)) <==> |s.log.pins| < NBUF
  {
    RoomIff(s);
    if |s.log.pins| < NBUF {
      var s1 := OpsEnd(s);
      var s' := Finishes(s1, 0);
      LeadsOn(s, s1, s');
      LeadsSettles(s, s');
    } else if es :| Settles(s, es) {
      FullNeverCommits(s, es);
    }
  }

  /** After a crash in any state recovery can finish, and then the disk holds what was durable. */
  lemma RecoveryFinishes(s: State)
    requires Inv(s)
    ensures exists es :: Settles(Apply(s, Crash), es) && var s' := Trace(Apply(s, Crash), es)[|es|];
      HomeOf(s'.log.disk, s'.log.start) == Abs(s).durable
  {
    var s0 := Apply(s, Crash);
    StepKeepsInv(s, Crash);
    var s' := Finishes(s0, 0);
    LeadsSettles(s0, s');
    var es :| Settles(s0, es);
    RecoveryRestoresDurable(s, es);
  }
}
