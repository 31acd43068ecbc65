/** The log filled to the brim: three operations log ten blocks each, and the third then logs
    again a block that the log already holds. log_write in kernel/log.c looks at the number of
    blocks before it looks for the block, so it panics. */
module LogFull {
  import opened LogFormat
  import opened LogMachine
  import LogLive

  /** A disk of 100 zero blocks; its log starts at block 1 and is empty. */
  ghost predicate Blank(d: Disk) {
    |d| == 100 && forall b | 0 <= b < 100 :: d[b] == seq(WORDS, _ => 0)
  }

  /** The process that logs the k-th block. */
  function Logger(k: nat): nat { k / 10 + 1 }

  function Credit(t: nat, k: nat): nat {
    if !(1 <= t <= 3) || k >= 10 * t then 0 else if 10 * t - k > 10 then 10 else 10 * t - k
  }

  function Pinned(d: Disk, k: nat): Buf
    requires 40 + k < |d|
  {
    Buf(true, Some(40 + k), 1, d[40 + k], multiset{}, None, false)
  }

  /** Blocks 40 .. 40 + k have been logged, from buffers 0 .. k; if `held`, the last of them
      is still locked by its process. */
  ghost predicate Logged(s: State, d: Disk, k: nat, held: bool) {
    && Blank(d) && k <= 30 && (held ==> k > 0)
    && s.log.start == 1 && s.log.disk == d && s.log.view == d && s.log.phase == Idle
    && |s.log.lh| == k && (forall i | 0 <= i < k :: s.log.lh[i] == 40 + i)
    && s.outstanding == 3 && !s.committing && s.ops == {1, 2, 3}
    && (forall t: nat :: s.credits[t] == Credit(t, k))
    && |s.bufs| == 30
    && (forall i | 0 <= i < k && !(held && i == k - 1) :: s.bufs[i] == Pinned(d, i))
    && (held ==> s.bufs[k - 1] == Pinned(d, k - 1).(refcnt := 2, users := multiset{Logger(k - 1)},
          locker := Some(Logger(k - 1))))
    && (forall i | k <= i < 30 :: s.bufs[i].refcnt == 0 && (s.bufs[i].block == None || s.bufs[i].block == Some(1)))
  }

  // ---------------------------------------------------------------- one more block

  /** bread of block 40 + k into buffer k. */
  lemma ReadNext(s: State, d: Disk, k: nat, s1: State, s2: State, s3: State)
    requires Logged(s, d, k, false) && k < 30
    requires s1 == Apply(s, BgetMiss(Logger(k), k, 40 + k)) && s2 == Apply(s1, LockBuf(Logger(k), k))
    requires s3 == Apply(s2, ReadDisk(Logger(k), k))
    ensures var u := Buf(true, Some(40 + k), 1, d[40 + k], multiset{Logger(k)}, Some(Logger(k)), false);
      s3 == s.(bufs := s.bufs[k := u])
  {
    var t := Logger(k);
    assert !Cached(s.bufs, 40 + k);
    assert Enabled(s, BgetMiss(t, k, 40 + k));
    assert s1.bufs[k] == Buf(false, Some(40 + k), 1, s.bufs[k].data, multiset{t}, None, false);
    assert Enabled(s1, LockBuf(t, k));
    assert s2.bufs[k] == s1.bufs[k].(locker := Some(t));
    assert Enabled(s2, ReadDisk(t, k));
    assert s3.bufs == s.bufs[k := s3.bufs[k]];
  }

  /** log_write of it. */
  lemma LogNext(s: State, d: Disk, k: nat, u: Buf, s3: State, s4: State)
    requires Logged(s, d, k, false) && k < 30
    requires u == Buf(true, Some(40 + k), 1, d[40 + k], multiset{Logger(k)}, Some(Logger(k)), false)
    requires s3 == s.(bufs := s.bufs[k := u]) && s4 == Apply(s3, LogWrite(Logger(k), k))
    ensures Logged(s4, d, k + 1, true)
  {
    LogNextState(s, d, k, u, s3, s4);
    NextCredits(s.credits, k, s4.credits);
    assert s4.bufs[k] == Pinned(d, k).(refcnt := 2, users := multiset{Logger(k)}, locker := Some(Logger(k)));
    assert forall i | 0 <= i < 30 && i != k :: s4.bufs[i] == s.bufs[i];
  }

  lemma NextCredits(credits: multiset<nat>, k: nat, credits': multiset<nat>)
    requires k < 30 && (forall t: nat :: credits[t] == Credit(t, k)) && credits' == credits - multiset{Logger(k)}
    ensures forall t: nat :: credits'[t] == Credit(t, k + 1)
  {
    forall t: nat
      ensures credits'[t] == Credit(t, k + 1)
    {
      NextCredit(credits, k, credits', t);
    }
  }

  lemma NextCredit(credits: multiset<nat>, k: nat, credits': multiset<nat>, t: nat)
    requires k < 30 && credits[t] == Credit(t, k) && credits' == credits - multiset{Logger(k)}
    ensures credits'[t] == Credit(t, k + 1)
  {
    assert t == Logger(k) <==> Credit(t, k) > 0 && Credit(t, k + 1) == Credit(t, k) - 1;
  }

  lemma LogNextState(s: State, d: Disk, k: nat, u: Buf, s3: State, s4: State)
    requires Logged(s, d, k, false) && k < 30
    requires u == Buf(true, Some(40 + k), 1, d[40 + k], multiset{Logger(k)}, Some(Logger(k)), false)
    requires s3 == s.(bufs := s.bufs[k := u]) && s4 == Apply(s3, LogWrite(Logger(k), k))
    ensures s4 == s.(log := s.log.(lh := s.log.lh + [40 + k], pins := s.log.pins + {40 + k}),
                     credits := s.credits - multiset{Logger(k)}, bufs := s.bufs[k := u.(refcnt := 2)])
    ensures s.credits[Logger(k)] > 0
  {
    var t := Logger(k);
    assert s3.bufs[k] == u && Holds(s3, t, k, 40 + k) && Home(100, 1, 40 + k);
    assert s.credits[t] == Credit(t, k) > 0;
    assert t in s3.ops && 40 + k !in s.log.lh;
    assert Enabled(s3, LogWrite(t, k));
    assert d[40 + k := d[40 + k]] == d;
    assert s3.bufs[k := u.(refcnt := 2)] == s.bufs[k := u.(refcnt := 2)];
  }

  lemma ReleaseLast(s: State, d: Disk, k: nat, s1: State, s2: State)
    requires Logged(s, d, k, true)
    requires s1 == Apply(s, UnlockBuf(Logger(k - 1), k - 1)) && s2 == Apply(s1, Unref(Logger(k - 1), k - 1))
    ensures Logged(s2, d, k, false)
  {
    ReleaseEffect(s, d, k, s1, s2);
    assert s2.bufs[k - 1] == Pinned(d, k - 1);
  }

  lemma ReleaseEffect(s: State, d: Disk, k: nat, s1: State, s2: State)
    requires Logged(s, d, k, true)
    requires s1 == Apply(s, UnlockBuf(Logger(k - 1), k - 1)) && s2 == Apply(s1, Unref(Logger(k - 1), k - 1))
    ensures s2 == s.(bufs := s.bufs[k - 1 := Pinned(d, k - 1)])
  {
    var t, i := Logger(k - 1), k - 1;
    assert Enabled(s, UnlockBuf(t, i));
    assert s1.bufs[i] == s.bufs[i].(locker := None) && Enabled(s1, Unref(t, i));
    assert multiset{t} - multiset{t} == multiset{};
    assert s2.bufs[i] == Pinned(d, i);
  }

  // ---------------------------------------------------------------- the run

  ghost predicate Reaches(s0: State, es: seq<Step>, s: State) { Trace(s0, es)[|es|] == s }

  lemma {:induction false} TracePrefix(s: State, es: seq<Step>, e: Step)
    ensures Trace(s, es + [e])[|es|] == Trace(s, es)[|es|]
    decreases |es|
  {
    if es != [] {
      assert (es + [e])[1..] == es[1..] + [e];
      TracePrefix(Apply(s, es[0]), es[1..], e);
    }
  }

  lemma GoOn(s0: State, es: seq<Step>, s: State, e: Step) returns (es': seq<Step>, s': State)
    requires Reaches(s0, es, s)
    ensures Reaches(s0, es', s') && s' == Apply(s, e)
  {
    es', s' := es + [e], Apply(s, e);
    TracePrefix(s0, es, e);
    TraceStep(s0, es', |es|);
  }

  lemma OneMore(s0: State, es: seq<Step>, s: State, d: Disk, k: nat) returns (es': seq<Step>, s': State)
    requires Reaches(s0, es, s) && Logged(s, d, k, false) && k < 30
    ensures Reaches(s0, es', s') && Logged(s', d, k + 1, true)
  {
    var t := Logger(k);
    var s1, s2, s3;
    es', s1 := GoOn(s0, es, s, BgetMiss(t, k, 40 + k));
    es', s2 := GoOn(s0, es', s1, LockBuf(t, k));
    es', s3 := GoOn(s0, es', s2, ReadDisk(t, k));
    es', s' := GoOn(s0, es', s3, LogWrite(t, k));
    ReadNext(s, d, k, s1, s2, s3);
    LogNext(s, d, k, s3.bufs[k], s3, s');
  }

  lemma {:induction false} Fill(s0: State, es: seq<Step>, s: State, d: Disk, k: nat) returns (es': seq<Step>, s': State)
    requires Reaches(s0, es, s) && Logged(s, d, k, false) && k < 30
    ensures Reaches(s0, es', s') && Logged(s', d, 30, true)
    decreases 30 - k
  {
    es', s' := OneMore(s0, es, s, d, k);
    if k < 29 {
      var s1;
      es', s1 := GoOn(s0, es', s', UnlockBuf(Logger(k), k));
      var s2;
      es', s2 := GoOn(s0, es', s1, Unref(Logger(k), k));
      ReleaseLast(s', d, k + 1, s1, s2);
      es', s' := Fill(s0, es', s2, d, k + 1);
    }
  }

  // ---------------------------------------------------------------- from power-on

  /** The machine after recovery, with t operations begun; buffer 0 still caches the header. */
  ghost predicate Booted(s: State, d: Disk, t: nat) {
    && Blank(d) && t <= 3
    && s.log.start == 1 && s.log.disk == d && s.log.view == d && s.log.phase == Idle && s.log.lh == []
    && s.outstanding == t && !s.committing && s.ops == Ops(t)
    && (forall x: nat :: s.credits[x] == if 1 <= x <= t then 10 else 0)
    && |s.bufs| == 30 && (forall i | 0 <= i < 30 ::
          s.bufs[i].refcnt == 0 && (s.bufs[i].block == None || s.bufs[i].block == Some(1)))
  }

  function Ops(t: nat): set<nat> { if t == 0 then {} else Ops(t - 1) + {t} }

  lemma {:induction false} OpsAre(t: nat)
    ensures forall x: nat :: x in Ops(t) <==> 1 <= x <= t
  {
    if t > 0 {
      OpsAre(t - 1);
    }
  }

  lemma BeginNext(s: State, d: Disk, t: nat, s': State)
    requires Booted(s, d, t) && t < 3 && s' == Apply(s, BeginOp(t + 1))
    ensures Booted(s', d, t + 1)
  {
    OpsAre(t);
    assert Enabled(s, BeginOp(t + 1));
  }

  lemma BootedIsLogged(s: State, d: Disk)
    requires Booted(s, d, 3)
    ensures Logged(s, d, 0, false)
  {
    OpsAre(3);
  }

  /** Recovery from an empty log, in buffer 0: bread of the header, read_head, nothing to
      install, write_head, brelse. */
  lemma RecoveryReads(d: Disk, s0: State, s1: State, s2: State, s3: State)
    requires Blank(d) && HeaderOk(d, 1) && s0 == PowerOn(d, 1)
    requires s1 == Apply(s0, BgetMiss(0, 0, 1)) && s2 == Apply(s1, LockBuf(0, 0)) && s3 == Apply(s2, ReadDisk(0, 0))
    ensures s3 == s0.(bufs := FreshCache()[0 := Buf(true, Some(1), 1, d[1], multiset{0}, Some(0), false)])
  {
    assert !Cached(s0.bufs, 1) && Enabled(s0, BgetMiss(0, 0, 1));
    assert s1.bufs[0] == Buf(false, Some(1), 1, [], multiset{0}, None, false);
    assert Enabled(s1, LockBuf(0, 0)) && s2.bufs[0] == s1.bufs[0].(locker := Some(0));
    assert Enabled(s2, ReadDisk(0, 0));
    assert s3.bufs == FreshCache()[0 := s3.bufs[0]];
  }

  lemma RecoveryClears(d: Disk, s0: State, s3: State, s4: State, s5: State, s6: State)
    requires Blank(d) && HeaderOk(d, 1) && s0 == PowerOn(d, 1)
    requires s3 == s0.(bufs := FreshCache()[0 := Buf(true, Some(1), 1, d[1], multiset{0}, Some(0), false)])
    requires s4 == Apply(s3, ReadHead(0, 0)) && s5 == Apply(s4, DropTransaction) && s6 == Apply(s5, ClearHead(0, 0))
    ensures s6 == s3.(log := s6.log) && s6.log.start == 1 && s6.log.disk == d && s6.log.view == d
    ensures s6.log.phase == Idle && s6.log.lh == []
  {
    var h := d[1];
    assert h[0] == 0 && |h| == WORDS;
    assert Holds(s3, 0, 0, 1) && Enabled(s3, ReadHead(0, 0));
    assert s4.log.lh == [] && s4.log.phase == RInstalling(0) && Enabled(s4, DropTransaction);
    assert s5.log.phase == RClearing && Enabled(s5, ClearHead(0, 0));
    assert EncodeHeader(h, []) == h;
    assert d[1 := h] == d && s3.bufs[0 := s3.bufs[0].(data := h)] == s3.bufs;
  }

  lemma RecoveryEnds(d: Disk, s0: State, s6: State, s7: State, s8: State)
    requires Blank(d) && HeaderOk(d, 1) && s0 == PowerOn(d, 1)
    requires s6.bufs == FreshCache()[0 := Buf(true, Some(1), 1, d[1], multiset{0}, Some(0), false)]
    requires s6 == s0.(bufs := s6.bufs, log := s6.log)
    requires s6.log.start == 1 && s6.log.disk == d && s6.log.view == d && s6.log.phase == Idle && s6.log.lh == []
    requires s7 == Apply(s6, UnlockBuf(0, 0)) && s8 == Apply(s7, Unref(0, 0))
    ensures Booted(s8, d, 0)
  {
    assert Enabled(s6, UnlockBuf(0, 0));
    assert s7.bufs[0] == s6.bufs[0].(locker := None) && Enabled(s7, Unref(0, 0));
  }

  lemma BootUp(d: Disk) returns (es: seq<Step>, s: State)
    requires Blank(d) && HeaderOk(d, 1)
    ensures Reaches(PowerOn(d, 1), es, s) && Booted(s, d, 0)
  {
    var s0 := PowerOn(d, 1);
    var s1, s2, s3, s4, s5, s6, s7;
    assert Reaches(s0, [], s0);
    es, s1 := GoOn(s0, [], s0, BgetMiss(0, 0, 1));
    es, s2 := GoOn(s0, es, s1, LockBuf(0, 0));
    es, s3 := GoOn(s0, es, s2, ReadDisk(0, 0));
    es, s4 := GoOn(s0, es, s3, ReadHead(0, 0));
    es, s5 := GoOn(s0, es, s4, DropTransaction);
    es, s6 := GoOn(s0, es, s5, ClearHead(0, 0));
    es, s7 := GoOn(s0, es, s6, UnlockBuf(0, 0));
    es, s := GoOn(s0, es, s7, Unref(0, 0));
    RecoveryReads(d, s0, s1, s2, s3);
    RecoveryClears(d, s0, s3, s4, s5, s6);
    RecoveryEnds(d, s0, s6, s7, s);
  }

  /** ... and three operations begin. */
  lemma BeginThree(d: Disk) returns (es: seq<Step>, s: State)
    requires Blank(d) && HeaderOk(d, 1)
    ensures Reaches(PowerOn(d, 1), es, s) && Booted(s, d, 3)
  {
    var s0 := PowerOn(d, 1);
    es, s := BootUp(d);
    es, s := BeginMore(s0, es, s, d, 0);
    es, s := BeginMore(s0, es, s, d, 1);
    es, s := BeginMore(s0, es, s, d, 2);
  }

  lemma BeginMore(s0: State, es: seq<Step>, s: State, d: Disk, t: nat) returns (es': seq<Step>, s': State)
    requires Reaches(s0, es, s) && Booted(s, d, t) && t < 3
    ensures Reaches(s0, es', s') && Booted(s', d, t + 1)
  {
    es', s' := GoOn(s0, es, s, BeginOp(t + 1));
    BeginNext(s, d, t, s');
  }

  lemma FullAndHeld(s: State, d: Disk)
    requires Logged(s, d, 30, true)
    ensures |s.log.lh| == LOGBLOCKS && 3 in s.ops && Holds(s, 3, 29, 69) && 69 in s.log.lh
    ensures !Enabled(s, LogWrite(3, 29))
  {
    assert s.log.lh[29] == 69 && Logger(29) == 3;
  }

  /** From power-on: the log is full, process 3 is within its operation and holds the buffer
      of block 69, which is in the log, and still cannot log it again. */
  lemma FullLogRefusesAbsorption(d: Disk) returns (es: seq<Step>, s: State)
    requires Blank(d) && HeaderOk(d, 1)
    ensures Reaches(PowerOn(d, 1), es, s) && |s.log.lh| == LOGBLOCKS
    ensures s.log.phase.Idle? && 3 in s.ops && Holds(s, 3, 29, 69) && 69 in s.log.lh && !Enabled(s, LogWrite(3, 29))
  {
    es, s := BeginThree(d);
    BootedIsLogged(s, d);
    es, s := Fill(PowerOn(d, 1), es, s, d, 0);
    FullAndHeld(s, d);
  }

  /** From power-on: a run within all limits that fills the log, after which, whatever happens
      short of a crash, no commit ever ends. */
  lemma FullLogNeverCommits(d: Disk) returns (es: seq<Step>, s: State)
    requires Blank(d) && HeaderOk(d, 1)
    ensures Reaches(PowerOn(d, 1), es, s) && Inv(s)
    ensures forall fs: seq<Step> | (forall e | e in fs :: !e.Crash?) :: !LogLive.Settled(Trace(s, fs)[|fs|])
  {
    es, s := FullLogRefusesAbsorption(d);
    PowerOnInv(d, 1);
    ReachableInv(PowerOn(d, 1), es, |es|);
    LogLive.PinsAreLogged(s.log.lh, s.log.pins);
    forall fs: seq<Step> | (forall e | e in fs :: !e.Crash?)
      ensures !LogLive.Settled(Trace(s, fs)[|fs|])
    {
      LogLive.FullNeverCommits(s, fs);
    }
  }
}
