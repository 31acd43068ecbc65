/** Zombies get reaped: what kwait returns in every run of kernel/proc.c, where the status it
    reports comes from, and that a parent that keeps calling kwait can always reap each of its
    zombies. */
module ExitLive {
  import opened ExitWait

  // ---------------------------------------------------------------- where the status comes from

  /** The status an exiting process carries, in its zombie or on the way there. */
  function Carried(s: Sys, c: int): int
    requires Shape(s) && 0 <= c < s.n && Exiting(s.pc[c])
  {
    match s.pc[c]
    case ExitLock(x) => x
    case Reparent(x, _) => x
    case ReparentWake(x, _, _) => x
    case WakeParent(x, _) => x
    case ExitOwn(x) => x
    case _ => s.xstate[c]
  }

  lemma StatusStep(s: Sys, a: Action, c: int)
    requires Inv(s) && Enabled(s, a) && 0 <= c < s.n && Shape(Apply(s, a)) && Exiting(Apply(s, a).pc[c])
    requires !(a.Exit? && a.p == c)
    ensures Exiting(s.pc[c]) && Carried(Apply(s, a), c) == Carried(s, c) && Apply(s, a).pid[c] == s.pid[c]
  {
    if !a.Go? {
      StatusElsewhere(s, a, c);
    } else if a.p == c {
      StatusSelf(s, c, a.copied);
    } else {
      StatusOther(s, a.p, a.copied, c);
    }
  }

  lemma StatusElsewhere(s: Sys, a: Action, c: int)
    requires Inv(s) && Enabled(s, a) && 0 <= c < s.n && !a.Go? && !(a.Exit? && a.p == c)
    ensures var s' := Apply(s, a); |s'.pc| == s.n && (Exiting(s'.pc[c]) ==>
      Exiting(s.pc[c]) && Shape(s') && Carried(s', c) == Carried(s, c) && s'.pid[c] == s.pid[c])
  {
    Know(s, c, c);
  }

  lemma StatusSelf(s: Sys, c: int, copied: bool)
    requires Inv(s) && 0 <= c < s.n && CanGo(s, c)
    ensures var s' := GoStep(s, c, copied); |s'.pc| == s.n && (Exiting(s'.pc[c]) ==>
      Exiting(s.pc[c]) && Shape(s') && Carried(s', c) == Carried(s, c) && s'.pid[c] == s.pid[c])
  {
    Know(s, c, c);
  }

  lemma StatusOther(s: Sys, p: int, copied: bool, c: int)
    requires Inv(s) && 0 <= c < s.n && 0 <= p < s.n && p != c && CanGo(s, p)
    ensures var s' := GoStep(s, p, copied); |s'.pc| == s.n && (Exiting(s'.pc[c]) ==>
      Exiting(s.pc[c]) && Shape(s') && Carried(s', c) == Carried(s, c) && s'.pid[c] == s.pid[c])
  {
    OtherPc(s, p, copied, c, GoStep(s, p, copied));
  }

  /** A step of p leaves another process where it is, starts it or frees it. */
  lemma OtherPc(s: Sys, p: int, copied: bool, c: int, s': Sys)
    requires Shape(s) && 0 <= c < s.n && 0 <= p < s.n && p != c && s' == GoStep(s, p, copied)
    ensures LeftOrMoved(s, s', c)
  {
    if s.pc[p].WaitScan? {
      OtherScan(s, p, s.pc[p].k, s.pc[p].kids, copied, c);
    } else if Exiting(s.pc[p]) {
      OtherExit(s, p, copied, c, s');
    } else {
      OtherRest(s, p, copied, c, s');
    }
  }

  ghost predicate LeftOrMoved(s: Sys, s': Sys, c: int)
    requires Shape(s) && 0 <= c < s.n
  {
    && Shape(s') && s'.n == s.n && s'.pid == s.pid && s'.xstate[c] == s.xstate[c]
    && (s'.pc[c] == s.pc[c] || s'.pc[c] == Run || s'.pc[c] == Idle)
  }

  lemma OtherScan(s: Sys, p: int, k: int, kids: bool, copied: bool, c: int)
    requires Shape(s) && 0 <= c < s.n && 0 <= p < s.n && p != c
    ensures LeftOrMoved(s, ScanStep(s, p, k, kids, copied), c)
  {
  }

  lemma OtherExit(s: Sys, p: int, copied: bool, c: int, s': Sys)
    requires Shape(s) && 0 <= c < s.n && 0 <= p < s.n && p != c && s' == GoStep(s, p, copied) && Exiting(s.pc[p])
    ensures LeftOrMoved(s, s', c)
  {
  }

  lemma OtherRest(s: Sys, p: int, copied: bool, c: int, s': Sys)
    requires Shape(s) && 0 <= c < s.n && 0 <= p < s.n && p != c && s' == GoStep(s, p, copied)
    requires !Exiting(s.pc[p]) && !s.pc[p].WaitScan?
    ensures LeftOrMoved(s, s', c)
  {
  }

  /** kexit was called for the process that now has slot c, with status x. */
  ghost predicate Called(ss: seq<Sys>, acts: seq<Action>, k: int, c: int, x: int)
    requires |ss| == |acts| + 1 && 0 <= k < |ss|
  {
    exists m :: 0 <= m < k && acts[m] == Exit(c, x) && 0 <= c < |ss[m].pid| && c < |ss[k].pid|
      && ss[m].pid[c] == ss[k].pid[c]
  }

  lemma {:induction false} StatusCalled(ss: seq<Sys>, acts: seq<Action>, k: int, c: int)
    requires Trace(ss, acts) && 0 <= k < |ss| && Shape(ss[k]) && 0 <= c < ss[k].n && Exiting(ss[k].pc[c])
    ensures Called(ss, acts, k, c, Carried(ss[k], c))
  {
    if k == 0 {
      assert false;
    }
    ReachableInv(ss, acts, k - 1);
    var s, a := ss[k - 1], acts[k - 1];
    assert ss[k] == Apply(s, a);
    if a.Exit? && a.p == c {
      assert acts[k - 1] == Exit(c, Carried(ss[k], c)) && s.pid[c] == ss[k].pid[c];
    } else {
      StatusStep(s, a, c);
      StatusCalled(ss, acts, k - 1, c);
      var m :| 0 <= m < k - 1 && acts[m] == Exit(c, Carried(s, c)) && 0 <= c < |ss[m].pid| && c < |s.pid|
        && ss[m].pid[c] == s.pid[c];
      assert ss[m].pid[c] == ss[k].pid[c];
    }
  }

  // ---------------------------------------------------------------- what kwait returns

  /** Slot c, a zombie child of p, is freed, and its pid and status x are reported; p is done. */
  ghost predicate Reaps(s: Sys, s': Sys, p: int, c: int, x: int)
    requires Shape(s) && 0 <= p < s.n && 0 <= c < s.n
  {
    && s.par[c] == p && s.st[c] == Zombie
    && s' == s.(st := s.st[c := Unused], par := s.par[c := -1], reaps := s.reaps + [(s.pid[c], x)], wlock := -1,
                pc := s.pc[p := Run][c := Idle])
  }

  /** p returns without a child. */
  ghost predicate GivesUp(s: Sys, s': Sys, p: int)
    requires Shape(s) && 0 <= p < s.n
  {
    s' == s.(wlock := -1, pc := s.pc[p := Run])
  }

  /** kwait returns from its scan in one of four ways: it has reaped exactly one child, with
      the status that child's kexit was given; copyout failed for a zombie child; the caller
      has no children; or it is killed and has no zombie child. */
  lemma WaitReturns(ss: seq<Sys>, acts: seq<Action>, k: int, p: int, copied: bool)
    requires Trace(ss, acts) && 0 <= k < |acts| && acts[k] == Go(p, copied) && 0 <= p < |ss[k].pc|
    requires ss[k].pc[p].WaitScan? && p < |ss[k + 1].pc| && ss[k + 1].pc[p] == Run
    ensures Shape(ss[k]) && p < ss[k].n
    ensures || (copied && exists c, x :: 0 <= c < ss[k].n && Called(ss, acts, k, c, x)
                                  && Reaps(ss[k], ss[k + 1], p, c, x))
            || (!copied && GivesUp(ss[k], ss[k + 1], p)
                && exists c :: 0 <= c < ss[k].n && ss[k].par[c] == p && ss[k].st[c] == Zombie)
            || (GivesUp(ss[k], ss[k + 1], p) && forall c | 0 <= c < ss[k].n :: ss[k].par[c] != p)
            || (GivesUp(ss[k], ss[k + 1], p) && ss[k].killed[p]
                && forall c | 0 <= c < ss[k].n && ss[k].par[c] == p :: ss[k].st[c] != Zombie)
  {
    var s, j := ss[k], ss[k].pc[p].k;
    ReachableInv(ss, acts, k);
    Know(s, p, p);
    if j < s.n {
      ReturnsAt(ss, acts, k, p, j);
    } else {
      forall c | 0 <= c < s.n && s.par[c] == p
        ensures s.st[c] != Zombie && s.pc[p].kids
      {
        Know(s, c, p);
      }
    }
  }

  lemma ReturnsAt(ss: seq<Sys>, acts: seq<Action>, k: int, p: int, j: int)
    requires Trace(ss, acts) && 0 <= k < |ss| && Inv(ss[k]) && 0 <= p < ss[k].n && 0 <= j < ss[k].n
    requires ss[k].par[j] == p && ss[k].st[j] == Zombie
    ensures Called(ss, acts, k, j, ss[k].xstate[j])
  {
    Know(ss[k], j, j);
    StatusCalled(ss, acts, k, j);
  }

  // ---------------------------------------------------------------- parents and progress

  /** A process gets its forker as parent, is handed to init when that parent exits, and loses
      its parent when it is reaped; nothing else changes parents. */
  lemma ParentChanges(s: Sys, a: Action, c: int)
    requires Inv(s) && Enabled(s, a) && 0 <= c < s.n
    ensures var s' := Apply(s, a); |s'.par| == |s'.st| == s.n && (s'.par[c] != s.par[c] ==>
      a.Go? && (|| (s.pc[a.p] == Forked(c) && s'.par[c] == a.p)
                || (s.pc[a.p].Reparent? && s.par[c] == a.p && s'.par[c] == 0)
                || (s.pc[a.p].WaitScan? && s.par[c] == a.p && s'.par[c] == -1 && s'.st[c] == Unused)))
  {
  }

  /** A process in kfork, kexit or kwait that finds its locks free moves on. */
  lemma GoMoves(s: Sys, p: int, copied: bool)
    requires Inv(s) && 0 <= p < s.n && CanGo(s, p) && !s.pc[p].Idle? && !s.pc[p].Run? && !s.pc[p].Dead?
    ensures var s' := GoStep(s, p, copied); |s'.pc| == s.n && s'.pc[p] != s.pc[p]
  {
    Know(s, p, p);
  }

  // ---------------------------------------------------------------- every zombie can be reaped

  ghost predicate Steps(s: Sys, more: seq<Action>, s': Sys)
    decreases |more|
  {
    if more == [] then s' == s else Shape(s) && Enabled(s, more[0]) && Steps(Apply(s, more[0]), more[1..], s')
  }

  /** Some continuation leads from s to s'. */
  ghost predicate Leads(s: Sys, s': Sys) { exists more :: Steps(s, more, s') }

  lemma LeadsBy(s: Sys, a: Action, s': Sys)
    requires Shape(s) && Enabled(s, a) && s' == Apply(s, a)
    ensures Leads(s, s')
  {
    assert Steps(s', [], s') && [a][1..] == [];
    assert Steps(s, [a], s');
  }

  lemma {:induction false} StepsOn(s: Sys, more: seq<Action>, s1: Sys, rest: seq<Action>, s': Sys)
    requires Steps(s, more, s1) && Steps(s1, rest, s')
    ensures Steps(s, more + rest, s')
    decreases |more|
  {
    if more == [] {
      assert more + rest == rest;
    } else {
      StepsOn(Apply(s, more[0]), more[1..], s1, rest, s');
      assert (more + rest)[0] == more[0] && (more + rest)[1..] == more[1..] + rest;
    }
  }

  lemma LeadsOn(s: Sys, s1: Sys, s': Sys)
    requires Leads(s, s1) && Leads(s1, s')
    ensures Leads(s, s')
  {
    var more :| Steps(s, more, s1);
    var rest :| Steps(s1, rest, s');
    StepsOn(s, more, s1, rest, s');
  }

  /** c is a zombie child of p. */
  ghost predicate Awaits(s: Sys, p: int, c: int) {
    Inv(s) && 0 <= p < s.n && 0 <= c < s.n && s.par[c] == p && s.st[c] == Zombie
  }

  /** From s to s' nobody was freed or started, and c is the same zombie. */
  ghost predicate Still(s: Sys, s': Sys, p: int, c: int) {
    && Leads(s, s') && Awaits(s, p, c) && Awaits(s', p, c) && s'.n == s.n
    && s'.pid[c] == s.pid[c] && s'.xstate[c] == s.xstate[c]
    && (forall i | 0 <= i < s.n :: s'.st[i] == Unused <==> s.st[i] == Unused)
  }

  /** ... and p is where it was. */
  ghost predicate Calm(s: Sys, s': Sys, p: int, c: int) { Still(s, s', p, c) && s'.pc[p] == s.pc[p] }

  lemma CalmOn(s: Sys, s1: Sys, s': Sys, p: int, c: int)
    requires Calm(s, s1, p, c) && Calm(s1, s', p, c)
    ensures Calm(s, s', p, c)
  {
    LeadsOn(s, s1, s');
  }

  /** A step of a process that holds a lock, and does not reap, concerns itself and its
      children only. */
  lemma QuietStep(s: Sys, j: int, s': Sys)
    requires Inv(s) && 0 <= j < s.n && CanGo(s, j) && s' == GoStep(s, j, false)
    requires HoldsW(s.pc[j]) || HoldsOwn(s.pc[j])
    ensures Shape(s') && s'.n == s.n && s'.pid == s.pid && s'.pc == s.pc[j := s'.pc[j]]
    ensures forall i | 0 <= i < s.n :: s'.st[i] == Unused <==> s.st[i] == Unused
    ensures forall i | 0 <= i < s.n && s.st[i] == Zombie :: s'.st[i] == Zombie && s'.xstate[i] == s.xstate[i]
    ensures forall i | 0 <= i < s.n && s.par[i] != j :: s'.par[i] == s.par[i]
  {
    Know(s, j, j);
  }

  lemma QuietCalm(s: Sys, j: int, s': Sys, p: int, c: int)
    requires Awaits(s, p, c) && 0 <= j < s.n && j != p && CanGo(s, j) && s' == GoStep(s, j, false)
    requires HoldsW(s.pc[j]) || HoldsOwn(s.pc[j])
    ensures Calm(s, s', p, c)
  {
    QuietStep(s, j, s');
    StepKeepsInv(s, Go(j, false));
    LeadsBy(s, Go(j, false), s');
  }

  /** Whoever holds its own lock but not wait_lock can let go of it. */
  lemma Unblock(s: Sys, j: int, p: int, c: int) returns (s': Sys)
    requires Awaits(s, p, c) && 0 <= j < s.n && j != p && HoldsOwn(s.pc[j]) && s.wlock != j
    ensures Calm(s, s', p, c) && !HoldsOwn(s'.pc[j]) && s'.wlock == s.wlock && s'.pc == s.pc[j := s'.pc[j]]
    ensures s'.par == s.par && s'.xstate == s.xstate
  {
    Know(s, j, j);
    s' := GoStep(s, j, false);
    QuietCalm(s, j, s', p, c);
  }

  /** What is left of the critical section of a process that holds wait_lock. */
  function Rank(pc: Pc): nat {
    match pc
    case Reparent(_, _) => 3
    case ReparentWake(_, _, _) => 3
    case WaitScan(_, _) => 3
    case WakeParent(_, _) => 2
    case WaitSleep => 2
    case ExitOwn(_) => 1
    case WaitRel => 1
    case _ => 0
  }

  function Slots(pc: Pc, n: int): nat {
    match pc
    case Reparent(_, k) => if k < n then 2 * (n - k) else 0
    case ReparentWake(_, k, _) => if k < n then 2 * (n - k) - 1 else 1
    case WaitScan(k, _) => if k < n then n - k else 0
    case WakeParent(_, j) => if j < n then n - j else 0
    case _ => 0
  }

  function Sleepers(pc: Pc, n: int): nat { if pc.ReparentWake? && pc.j < n then n - pc.j else 0 }

  /** The holder of wait_lock, if it is blocked, becomes able to go on. */
  lemma HolderCanGo(s: Sys, q: int, p: int, c: int) returns (s': Sys)
    requires Awaits(s, p, c) && s.pc[p] == Run && 0 <= q < s.n && s.wlock == q
    ensures Calm(s, s', p, c) && s'.wlock == q && s'.pc[q] == s.pc[q] && CanGo(s', q)
  {
    Know(s, q, p);
    var pc := s.pc[q];
    var j := if pc.ReparentWake? || pc.WakeParent? then pc.j else if pc.WaitScan? then pc.k else -1;
    s' := s;
    CalmHere(s, p, c);
    if !CanGo(s, q) {
      Know(s, j, q);
      s' := Unblock(s, j, p, c);
    }
  }

  lemma CalmHere(s: Sys, p: int, c: int)
    requires Awaits(s, p, c)
    ensures Calm(s, s, p, c)
  {
    assert Steps(s, [], s);
  }

  /** One step of it brings it closer to the end. */
  lemma HolderStep(s: Sys, q: int, s': Sys)
    requires Inv(s) && 0 <= q < s.n && s.wlock == q && CanGo(s, q) && s' == GoStep(s, q, false)
    ensures s'.wlock == -1 || (s'.wlock == q && |s'.pc| == s.n && s'.n == s.n)
    ensures s'.wlock == q ==>
      || Rank(s'.pc[q]) < Rank(s.pc[q])
      || (Rank(s'.pc[q]) == Rank(s.pc[q]) && Slots(s'.pc[q], s.n) < Slots(s.pc[q], s.n))
      || (Rank(s'.pc[q]) == Rank(s.pc[q]) && Slots(s'.pc[q], s.n) == Slots(s.pc[q], s.n)
          && Sleepers(s'.pc[q], s.n) < Sleepers(s.pc[q], s.n))
  {
    Know(s, q, q);
  }

  /** wait_lock gets free. */
  lemma {:induction false} FreeLock(s: Sys, p: int, c: int) returns (s': Sys)
    requires Awaits(s, p, c) && s.pc[p] == Run
    ensures Calm(s, s', p, c) && s'.wlock == -1
    decreases if s.wlock == -1 then 0 else 1, if s.wlock == -1 then 0 else Rank(s.pc[s.wlock]),
              if s.wlock == -1 then 0 else Slots(s.pc[s.wlock], s.n),
              if s.wlock == -1 then 0 else Sleepers(s.pc[s.wlock], s.n)
  {
    if s.wlock == -1 {
      CalmHere(s, p, c);
      return s;
    }
    var q := s.wlock;
    Know(s, q, p);
    var s1 := HolderCanGo(s, q, p, c);
    Know(s1, q, p);
    var s2 := GoStep(s1, q, false);
    QuietCalm(s1, q, s2, p, c);
    HolderStep(s1, q, s2);
    CalmOn(s, s1, s2, p, c);
    s' := FreeLock(s2, p, c);
    CalmOn(s, s2, s', p, c);
  }

  // ---------------------------------------------------------------- one kwait

  /** p has returned from kwait with d reaped, which is c or leaves c as it is. */
  ghost predicate Progress(s: Sys, s': Sys, p: int, c: int, d: int) {
    && Leads(s, s') && Awaits(s, p, c) && Inv(s') && s'.n == s.n && s'.pc[p] == Run
    && 0 <= d < s.n && s.st[d] != Unused
    && (forall i | 0 <= i < s.n :: s'.st[i] == Unused <==> s.st[i] == Unused || i == d)
    && (if d == c then (s.pid[c], s.xstate[c]) in s'.reaps
        else Awaits(s', p, c) && s'.pid[c] == s.pid[c] && s'.xstate[c] == s.xstate[c])
  }

  lemma ProgressOn(s: Sys, s1: Sys, s': Sys, p: int, c: int, d: int)
    requires Still(s, s1, p, c) && Progress(s1, s', p, c, d)
    ensures Progress(s, s', p, c, d)
  {
    LeadsOn(s, s1, s');
  }

  /** The scan at slot k: reaped, or on to the next slot. */
  lemma ScanOne(s: Sys, p: int, c: int, k: int, s': Sys)
    requires Awaits(s, p, c) && s.pc[p].WaitScan? && s.pc[p].k == k && 0 <= k < s.n && CanGo(s, p)
    requires s' == GoStep(s, p, true)
    ensures if s.par[k] == p && s.st[k] == Zombie then Progress(s, s', p, c, k)
            else Still(s, s', p, c) && s'.pc[p].WaitScan? && s'.pc[p].k == k + 1
  {
    Know(s, c, p);
    Know(s, k, p);
    StepKeepsInv(s, Go(p, true));
    LeadsBy(s, Go(p, true), s');
  }

  /** The scan does not miss the zombie. */
  lemma {:induction false} Scan(s: Sys, p: int, c: int) returns (s': Sys, d: int)
    requires Awaits(s, p, c) && s.pc[p].WaitScan?
    ensures Progress(s, s', p, c, d)
    decreases s.n - s.pc[p].k
  {
    Know(s, c, p);
    Know(s, p, p);
    var k := s.pc[p].k;
    var s1 := s;
    CalmHere(s, p, c);
    if !CanGo(s, p) {
      Know(s, k, p);
      s1 := Unblock(s, k, p, c);
    }
    var s2 := GoStep(s1, p, true);
    ScanOne(s1, p, c, k, s2);
    if s1.par[k] == p && s1.st[k] == Zombie {
      s', d := s2, k;
      ProgressOn(s, s1, s', p, c, d);
    } else {
      s', d := Scan(s2, p, c);
      ProgressOn(s1, s2, s', p, c, d);
      ProgressOn(s, s1, s', p, c, d);
    }
  }

  /** p calls kwait and gets wait_lock. */
  lemma CallWait(s: Sys, p: int, c: int) returns (s': Sys)
    requires Awaits(s, p, c) && s.pc[p] == Run && s.wlock == -1
    ensures Still(s, s', p, c) && s'.pc[p].WaitScan?
  {
    var s1 := Apply(s, Wait(p));
    StepKeepsInv(s, Wait(p));
    LeadsBy(s, Wait(p), s1);
    s' := Apply(s1, Go(p, true));
    StepKeepsInv(s1, Go(p, true));
    LeadsBy(s1, Go(p, true), s');
    LeadsOn(s, s1, s');
  }

  // ---------------------------------------------------------------- all of them

  function Busy(st: seq<St>, k: int): nat
    requires 0 <= k <= |st|
  {
    if k == 0 then 0 else Busy(st, k - 1) + if st[k - 1] == Unused then 0 else 1
  }

  lemma {:induction false} BusyLess(st: seq<St>, st': seq<St>, d: int, k: int)
    requires |st| == |st'| && 0 <= k <= |st| && 0 <= d < |st| && st[d] != Unused
    requires forall i | 0 <= i < |st| :: st'[i] == Unused <==> st[i] == Unused || i == d
    ensures Busy(st', k) == Busy(st, k) - if d < k then 1 else 0
  {
    if k > 0 {
      BusyLess(st, st', d, k - 1);
    }
  }

  /** In every state, a parent that keeps calling kwait can reap each of its zombies, whoever
      holds the locks: some continuation frees the slot and reports its pid and status. */
  lemma {:induction false} ZombieReaped(s: Sys, p: int, c: int) returns (s': Sys)
    requires Awaits(s, p, c) && s.pc[p] == Run
    ensures Leads(s, s') && Inv(s') && s'.n == s.n && s'.st[c] == Unused && (s.pid[c], s.xstate[c]) in s'.reaps
    decreases Busy(s.st, s.n)
  {
    var s1 := FreeLock(s, p, c);
    var s2 := CallWait(s1, p, c);
    var s3, d := Scan(s2, p, c);
    ProgressOn(s1, s2, s3, p, c, d);
    ProgressOn(s, s1, s3, p, c, d);
    if d == c {
      s' := s3;
    } else {
      BusyLess(s.st, s3.st, d, s.n);
      s' := ZombieReaped(s3, p, c);
      LeadsOn(s, s3, s');
    }
  }
}
