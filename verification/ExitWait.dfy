/** exit, wait, reparent, sleep and wakeup of kernel/proc.c as a state machine: any number
    of processes, each taking one step at a time in any order. A step is the code between
    two lock operations that matter to others; each p->lock and wait_lock itself are held
    across steps where the code holds them. Process 0 is init. */
module ExitWait {

  datatype St = Unused | Used | Runnable | Sleeping | Zombie   // Runnable covers RUNNING

  /** Where a process is in the code. */
  datatype Pc =
    | Idle                                        // an unused slot, or a child not yet started
    | Run                                         // anywhere else
    | Forked(c: int)                              // kfork: slot c allocated, no parent yet
    | Linked(c: int)                              // kfork: parent set
    | ExitLock(status: int)                       // kexit, waiting for wait_lock
    | Reparent(status: int, k: int)               // reparent, about to look at slot k
    | ReparentWake(status: int, k: int, j: int)   // wakeup(init) after moving slot k, at slot j
    | WakeParent(status: int, j: int)             // wakeup(p->parent), at slot j
    | ExitOwn(status: int)                        // waiting for its own lock
    | ExitRel                                     // zombie, holding both locks
    | ExitSched                                   // zombie, holding its own lock
    | Dead
    | WaitLock                                    // kwait, waiting for wait_lock
    | WaitScan(k: int, kids: bool)                // about to look at slot k
    | WaitSleep                                   // sleep, waiting for its own lock
    | WaitRel                                     // sleep, holding both locks
    | WaitSet                                     // sleep, wait_lock released, not yet asleep
    | Asleep

  predicate HoldsW(pc: Pc) {
    pc.Reparent? || pc.ReparentWake? || pc.WakeParent? || pc.ExitOwn? || pc.ExitRel? || pc.WaitScan? || pc.WaitSleep?
        || pc.WaitRel?
  }

  /** The process holds its own p->lock. */
  predicate HoldsOwn(pc: Pc) { pc.ExitRel? || pc.ExitSched? || pc.WaitRel? || pc.WaitSet? }

  /** A process table; exits and reaps list the (pid, status) pairs of kexit and kwait. */
  datatype Sys = Sys(n: int, st: seq<St>, par: seq<int>, chan: seq<int>, pc: seq<Pc>, killed: seq<bool>, wlock: int,
                     pid: seq<int>, xstate: seq<int>, nextpid: int, exits: seq<(int, int)>, reaps: seq<(int, int)>)

  datatype Action =
    | Fork(p: int, c: int)        // process p calls kfork and slot c is found unused
    | ForkFails(p: int)           // uvmcopy runs out of memory: the slot is freed again
    | Exit(p: int, status: int)
    | Wait(p: int)
    | Kill(i: int)                // somebody kills process i
    | Go(p: int, copied: bool)    // process p takes its next step; copied is copyout's outcome

  ghost predicate Shape(s: Sys) {
    && s.n > 0 && |s.st| == s.n && |s.par| == s.n && |s.chan| == s.n && |s.pc| == s.n && |s.killed| == s.n
    && |s.pid| == s.n && |s.xstate| == s.n && -1 <= s.wlock < s.n
  }

  // ---------------------------------------------------------------- the code

  /** kfork: allocproc, then (after copying) release of the child's lock. */
  function ForkStep(s: Sys, p: int, c: int): Sys
    requires Shape(s) && 0 <= p < s.n && 0 <= c < s.n
  {
    s.(st := s.st[c := Used], pid := s.pid[c := s.nextpid], nextpid := s.nextpid + 1,
       killed := s.killed[c := false], pc := s.pc[p := Forked(c)])
  }

  /** kfork's error exit: freeproc of the child. */
  function UnforkStep(s: Sys, p: int, c: int): Sys
    requires Shape(s) && 0 <= p < s.n && 0 <= c < s.n
  {
    s.(st := s.st[c := Unused], pc := s.pc[p := Run])
  }

  /** np->parent = p under wait_lock. */
  function LinkStep(s: Sys, p: int, c: int): Sys
    requires Shape(s) && 0 <= p < s.n && 0 <= c < s.n
  {
    s.(par := s.par[c := p], pc := s.pc[p := Linked(c)])
  }

  function StartStep(s: Sys, p: int, c: int): Sys
    requires Shape(s) && 0 <= p < s.n && 0 <= c < s.n
  {
    s.(st := s.st[c := Runnable], pc := s.pc[p := Run][c := Run])
  }

  /** One slot of the loop in wakeup. */
  function WakeSlot(s: Sys, p: int, j: int, chan: int): seq<St>
    requires Shape(s) && 0 <= j < s.n
  {
    if j != p && s.st[j] == Sleeping && s.chan[j] == chan then s.st[j := Runnable] else s.st
  }

  function ReparentStep(s: Sys, p: int, status: int, k: int): Sys
    requires Shape(s) && 0 <= p < s.n
  {
    if 0 <= k < s.n then
      if s.par[k] == p then s.(par := s.par[k := 0], pc := s.pc[p := ReparentWake(status, k, 0)])
      else s.(pc := s.pc[p := Reparent(status, k + 1)])
    else s.(pc := s.pc[p := WakeParent(status, 0)])
  }

  function ReparentWakeStep(s: Sys, p: int, status: int, k: int, j: int): Sys
    requires Shape(s) && 0 <= p < s.n
  {
    if 0 <= j < s.n then s.(st := WakeSlot(s, p, j, 0), pc := s.pc[p := ReparentWake(status, k, j + 1)])
    else s.(pc := s.pc[p := Reparent(status, k + 1)])
  }

  function WakeParentStep(s: Sys, p: int, status: int, j: int): Sys
    requires Shape(s) && 0 <= p < s.n
  {
    if 0 <= j < s.n then s.(st := WakeSlot(s, p, j, s.par[p]), pc := s.pc[p := WakeParent(status, j + 1)])
    else s.(pc := s.pc[p := ExitOwn(status)])
  }

  function ZombieStep(s: Sys, p: int, status: int): Sys
    requires Shape(s) && 0 <= p < s.n
  {
    s.(xstate := s.xstate[p := status], st := s.st[p := Zombie], exits := s.exits + [(s.pid[p], status)],
       pc := s.pc[p := ExitRel])
  }

  /** One slot of the scan in kwait: freeproc and return, or go on. */
  function ScanStep(s: Sys, p: int, k: int, kids: bool, copied: bool): Sys
    requires Shape(s) && 0 <= p < s.n
  {
    if 0 <= k < s.n then
      if s.par[k] != p then s.(pc := s.pc[p := WaitScan(k + 1, kids)])
      else if s.st[k] != Zombie then s.(pc := s.pc[p := WaitScan(k + 1, true)])
      else if !copied then s.(wlock := -1, pc := s.pc[p := Run])
      else s.(st := s.st[k := Unused], par := s.par[k := -1], reaps := s.reaps + [(s.pid[k], s.xstate[k])],
              wlock := -1, pc := s.pc[p := Run][k := Idle])
    else if !kids || s.killed[p] then s.(wlock := -1, pc := s.pc[p := Run])
    else s.(pc := s.pc[p := WaitSleep])
  }

  /** What process p does next. */
  function GoStep(s: Sys, p: int, copied: bool): Sys
    requires Shape(s) && 0 <= p < s.n
  {
    match s.pc[p]
    case Forked(c) => if 0 <= c < s.n then LinkStep(s, p, c) else s
    case Linked(c) => if 0 <= c < s.n then StartStep(s, p, c) else s
    case ExitLock(x) => s.(wlock := p, pc := s.pc[p := Reparent(x, 0)])
    case Reparent(x, k) => ReparentStep(s, p, x, k)
    case ReparentWake(x, k, j) => ReparentWakeStep(s, p, x, k, j)
    case WakeParent(x, j) => WakeParentStep(s, p, x, j)
    case ExitOwn(x) => ZombieStep(s, p, x)
    case ExitRel => s.(wlock := -1, pc := s.pc[p := ExitSched])
    case ExitSched => s.(pc := s.pc[p := Dead])
    case WaitLock => s.(wlock := p, pc := s.pc[p := WaitScan(0, false)])
    case WaitScan(k, kids) => ScanStep(s, p, k, kids, copied)
    case WaitSleep => s.(pc := s.pc[p := WaitRel])
    case WaitRel => s.(wlock := -1, pc := s.pc[p := WaitSet])
    case WaitSet => s.(st := s.st[p := Sleeping], chan := s.chan[p := p], pc := s.pc[p := Asleep])
    case Asleep => s.(chan := s.chan[p := -1], pc := s.pc[p := WaitLock])
    case Idle => s
    case Run => s
    case Dead => s
  }

  /** The locks the next step of p has to acquire are free. */
  predicate CanGo(s: Sys, p: int)
    requires Shape(s) && 0 <= p < s.n
  {
    match s.pc[p]
    case Forked(_) => s.wlock == -1
    case ExitLock(_) => s.wlock == -1
    case WaitLock => s.wlock == -1
    case ReparentWake(_, _, j) => 0 <= j < s.n && j != p ==> !HoldsOwn(s.pc[j])
    case WakeParent(_, j) => 0 <= j < s.n && j != p ==> !HoldsOwn(s.pc[j])
    case WaitScan(k, _) => 0 <= k < s.n && s.par[k] == p ==> !HoldsOwn(s.pc[k])
    case Asleep => s.st[p] == Runnable
    case _ => true
  }

  predicate Enabled(s: Sys, a: Action)
    requires Shape(s)
  {
    match a
    case Fork(p, c) => 0 <= p < s.n && 0 <= c < s.n && s.pc[p] == Run && s.st[c] == Unused
    case ForkFails(p) => 0 <= p < s.n && s.pc[p].Forked? && 0 <= s.pc[p].c < s.n
    case Exit(p, _) => 0 < p < s.n && s.pc[p] == Run
    case Wait(p) => 0 <= p < s.n && s.pc[p] == Run
    case Kill(i) => 0 <= i < s.n && !HoldsOwn(s.pc[i])
    case Go(p, _) => 0 <= p < s.n && CanGo(s, p)
  }

  function Apply(s: Sys, a: Action): Sys
    requires Shape(s) && Enabled(s, a)
  {
    match a
    case Fork(p, c) => ForkStep(s, p, c)
    case ForkFails(p) => UnforkStep(s, p, s.pc[p].c)
    case Exit(p, x) => s.(pc := s.pc[p := ExitLock(x)])
    case Wait(p) => s.(pc := s.pc[p := WaitLock])
    case Kill(i) => s.(killed := s.killed[i := true], st := if s.st[i] == Sleeping then s.st[i := Runnable] else s.st)
    case Go(p, copied) => GoStep(s, p, copied)
  }

  // ---------------------------------------------------------------- the invariant

  predicate Alive(st: St) { st == Runnable || st == Sleeping }

  predicate Exiting(pc: Pc) {
    pc.ExitLock? || pc.Reparent? || pc.ReparentWake? || pc.WakeParent? || pc.ExitOwn? || pc.ExitRel? || pc.ExitSched?
        || pc.Dead?
  }

  /** Past the point where a wakeup is needed to find out about a zombie child. */
  predicate Committed(pc: Pc, st: St) { pc.WaitSet? || (pc.Asleep? && st == Sleeping) }

  function Kid(pc: Pc): int { if pc.Forked? || pc.Linked? then pc.c else -1 }

  /** An exiting process has given slot c away already. */
  predicate Left(pc: Pc, c: int) {
    (pc.Reparent? && c < pc.k) || (pc.ReparentWake? && c <= pc.k) || pc.WakeParent? || pc.ExitOwn?
  }

  /** An exiting process has already woken slot p. */
  predicate Woke(pc: Pc, p: int) { (pc.WakeParent? && p < pc.j) || pc.ExitOwn? }

  /** kwait's scan has slot c behind it. */
  predicate Scanned(pc: Pc, c: int) { (pc.WaitScan? && c < pc.k) || pc.WaitSleep? || pc.WaitRel? }

  /** init has been given a zombie and its wakeup is still to come. */
  predicate InitOwed(s: Sys)
    requires Shape(s)
  {
    s.wlock >= 0 && s.pc[s.wlock].ReparentWake? && s.pc[s.wlock].j <= 0
  }

  /** What holds of each process. */
  ghost predicate One(s: Sys, i: int)
    requires Shape(s) && 0 <= i < s.n
  {
    var st, pc := s.st[i], s.pc[i];
    && (HoldsW(pc) <==> s.wlock == i)
    && (pc.Idle? <==> st == Unused || st == Used)
    && (pc.ExitRel? || pc.ExitSched? || pc.Dead? <==> st == Zombie)
    && (st == Sleeping ==> pc.Asleep? && s.chan[i] == i)
    && (pc.Reparent? || pc.ReparentWake? || pc.WaitScan? ==> 0 <= pc.k) && (pc.ReparentWake? || pc.WakeParent? ==>
          0 <= pc.j)
    && (i == 0 ==> Alive(st) && !Exiting(pc) && s.par[i] == -1)
    && (i > 0 && (Alive(st) || st == Zombie) ==> s.par[i] != -1)
    && (s.par[i] != -1 ==> 0 <= s.par[i] < s.n && st != Unused)
    && (pc.Forked? || pc.Linked? ==> 0 < pc.c < s.n)
  }

  /** What holds of each pair: i as a child of j, and j as a child being forked by i. */
  ghost predicate Two(s: Sys, i: int, j: int)
    requires Shape(s) && 0 <= i < s.n && 0 <= j < s.n
  {
    (s.par[i] == j ==> ChildOf(s, i, j)) && Forking(s, i, j)
  }

  ghost predicate ChildOf(s: Sys, i: int, j: int)
    requires Shape(s) && 0 <= i < s.n && 0 <= j < s.n
  {
    && i != j && Alive(s.st[j]) && !Left(s.pc[j], i)
    && (Woke(s.pc[i], j) ==> !Committed(s.pc[j], s.st[j]))
    && (s.st[i] == Zombie && Committed(s.pc[j], s.st[j]) ==> j == 0 && InitOwed(s))
    && (Scanned(s.pc[j], i) ==> s.st[i] != Zombie && (s.pc[j].WaitScan? ==> s.pc[j].kids))
  }

  ghost predicate Forking(s: Sys, i: int, j: int)
    requires Shape(s) && 0 <= i < s.n && 0 <= j < s.n
  {
    && (Kid(s.pc[i]) == j ==> s.st[j] == Used && s.par[j] == if s.pc[i].Forked? then -1 else i)
    && (Kid(s.pc[i]) == Kid(s.pc[j]) && Kid(s.pc[i]) != -1 ==> i == j)
  }

  /** The history of process i's pid. */
  ghost predicate Logged(s: Sys, i: int)
    requires Shape(s) && 0 <= i < s.n
  {
    && (s.st[i] != Unused ==> s.pid[i] < s.nextpid)
    && (forall j | 0 <= j < s.n && j != i && s.st[i] != Unused && s.st[j] != Unused :: s.pid[j] != s.pid[i])
    && (s.st[i] != Unused ==> forall x | 0 <= x < |s.reaps| :: s.reaps[x].0 != s.pid[i])
    && (s.st[i] != Unused && s.st[i] != Zombie ==> forall x | 0 <= x < |s.exits| :: s.exits[x].0 != s.pid[i])
    && (s.st[i] == Zombie ==> (s.pid[i], s.xstate[i]) in s.exits)
  }

  /** Nobody exits twice or is reaped twice, and what kwait reports is what kexit was given. */
  ghost predicate LogInv(s: Sys) {
    && (forall x | 0 <= x < |s.exits| :: s.exits[x].0 < s.nextpid)
    && (forall x, y | 0 <= x < y < |s.exits| :: s.exits[x].0 != s.exits[y].0)
    && (forall x | 0 <= x < |s.reaps| :: s.reaps[x] in s.exits)
    && (forall x, y | 0 <= x < y < |s.reaps| :: s.reaps[x].0 != s.reaps[y].0)
  }

  ghost predicate Inv(s: Sys) {
    && Shape(s) && LogInv(s)
    && (forall i {:trigger One(s, i)} | 0 <= i < s.n :: One(s, i))
    && (forall i, j {:trigger Two(s, i, j)} | 0 <= i < s.n && 0 <= j < s.n :: Two(s, i, j))
    && (forall i {:trigger Logged(s, i)} | 0 <= i < s.n :: Logged(s, i))
  }

  // ---------------------------------------------------------------- every step keeps it

  lemma Know(s: Sys, i: int, j: int)
    requires Inv(s) && 0 <= i < s.n && 0 <= j < s.n
    ensures One(s, i) && One(s, j) && Two(s, i, j)
  {
  }

  /** The bookkeeping of pids: only kfork, kexit and kwait touch it. */
  ghost predicate LogsKept(s: Sys, s': Sys)
    requires Shape(s)
  {
    && Shape(s') && s'.n == s.n && s'.pid == s.pid && s'.xstate == s.xstate && s'.nextpid == s.nextpid
    && s'.exits == s.exits && s'.reaps == s.reaps
    && forall i | 0 <= i < s.n ::
          (s'.st[i] == Unused <==> s.st[i] == Unused) && (s'.st[i] == Zombie <==> s.st[i] == Zombie)
  }

  lemma KeepLogs(s: Sys, s': Sys)
    requires Inv(s) && LogsKept(s, s')
    ensures forall i {:trigger Logged(s', i)} | 0 <= i < s.n :: Logged(s', i)
  {
    forall i | 0 <= i < s.n
      ensures Logged(s', i)
    {
      assert Logged(s, i);
    }
  }

  lemma ForkLogs(s: Sys, p: int, c: int, s': Sys)
    requires Inv(s) && 0 <= p < s.n && 0 <= c < s.n && s.st[c] == Unused && s' == ForkStep(s, p, c)
    ensures LogInv(s') && forall i {:trigger Logged(s', i)} | 0 <= i < s.n :: Logged(s', i)
  {
    forall i | 0 <= i < s.n
      ensures Logged(s', i)
    {
      assert Logged(s, i);
      forall j | 0 <= j < s.n && j != i && s'.st[i] != Unused && s'.st[j] != Unused
        ensures s'.pid[j] != s'.pid[i]
      {
        assert Logged(s, j);
      }
    }
  }

  lemma ZombieLogs(s: Sys, p: int, x: int, s': Sys)
    requires Inv(s) && 0 <= p < s.n && Alive(s.st[p]) && s' == ZombieStep(s, p, x)
    ensures LogInv(s') && forall i {:trigger Logged(s', i)} | 0 <= i < s.n :: Logged(s', i)
  {
    assert Logged(s, p);
    assert s'.exits[|s.exits|] == (s.pid[p], x);
    forall i | 0 <= i < s.n
      ensures Logged(s', i)
    {
      assert Logged(s, i);
    }
  }

  lemma ReapLogs(s: Sys, p: int, k: int, s': Sys)
    requires Inv(s) && 0 <= p < s.n && 0 <= k < s.n && s.st[k] == Zombie
    requires s' == s.(st := s.st[k := Unused], par := s.par[k := -1], reaps := s.reaps + [(s.pid[k], s.xstate[k])],
                      wlock := -1, pc := s.pc[p := Run][k := Idle])
    ensures LogInv(s') && forall i {:trigger Logged(s', i)} | 0 <= i < s.n :: Logged(s', i)
  {
    assert Logged(s, k);
    forall i | 0 <= i < s.n
      ensures Logged(s', i)
    {
      assert Logged(s, i);
    }
  }

  lemma KeepForkOne(s: Sys, p: int, c: int, s': Sys, i: int)
    requires Inv(s) && 0 <= i < s.n && 0 <= p < s.n && s.pc[p] == Run && 0 <= c < s.n && s.st[c] == Unused
    requires s' == ForkStep(s, p, c)
    ensures One(s', i)
  {
    Know(s, i, i);
    Know(s, p, p);
    Know(s, i, c);
  }

  lemma KeepForkTwo(s: Sys, p: int, c: int, s': Sys, i: int, j: int)
    requires Inv(s) && 0 <= i < s.n && 0 <= j < s.n && 0 <= p < s.n && s.pc[p] == Run && 0 <= c < s.n
    requires s.st[c] == Unused
    requires s' == ForkStep(s, p, c)
    ensures Two(s', i, j)
  {
    Know(s, i, j);
    Know(s, p, p);
    Know(s, i, c);
    Know(s, j, c);
  }

  lemma KeepFork(s: Sys, p: int, c: int, s': Sys)
    requires Inv(s) && 0 <= p < s.n && s.pc[p] == Run && 0 <= c < s.n && s.st[c] == Unused
    requires s' == ForkStep(s, p, c)
    ensures Inv(s')
  {
    ForkLogs(s, p, c, s');
    forall i | 0 <= i < s.n
      ensures One(s', i)
    {
      KeepForkOne(s, p, c, s', i);
    }
    forall i, j | 0 <= i < s.n && 0 <= j < s.n
      ensures Two(s', i, j)
    {
      KeepForkTwo(s, p, c, s', i, j);
    }
  }

  lemma UnforkLogs(s: Sys, p: int, c: int, s': Sys)
    requires Inv(s) && 0 <= p < s.n && 0 <= c < s.n && s' == UnforkStep(s, p, c)
    ensures LogInv(s') && forall i {:trigger Logged(s', i)} | 0 <= i < s.n :: Logged(s', i)
  {
    forall i | 0 <= i < s.n
      ensures Logged(s', i)
    {
      assert Logged(s, i);
    }
  }

  lemma KeepUnforkOne(s: Sys, p: int, c: int, s': Sys, i: int)
    requires Inv(s) && 0 <= i < s.n && 0 <= p < s.n && s.pc[p] == Forked(c) && 0 <= c < s.n
    requires s' == UnforkStep(s, p, c)
    ensures One(s', i)
  {
    Know(s, i, i);
    Know(s, p, c);
  }

  lemma KeepUnforkTwo(s: Sys, p: int, c: int, s': Sys, i: int, j: int)
    requires Inv(s) && 0 <= i < s.n && 0 <= j < s.n && 0 <= p < s.n && s.pc[p] == Forked(c) && 0 <= c < s.n
    requires s' == UnforkStep(s, p, c)
    ensures Two(s', i, j)
  {
    Know(s, i, j);
    Know(s, p, c);
    Know(s, i, p);
  }

  lemma KeepUnfork(s: Sys, p: int, c: int, s': Sys)
    requires Inv(s) && 0 <= p < s.n && s.pc[p] == Forked(c) && 0 <= c < s.n
    requires s' == UnforkStep(s, p, c)
    ensures Inv(s')
  {
    UnforkLogs(s, p, c, s');
    forall i | 0 <= i < s.n
      ensures One(s', i)
    {
      KeepUnforkOne(s, p, c, s', i);
    }
    forall i, j | 0 <= i < s.n && 0 <= j < s.n
      ensures Two(s', i, j)
    {
      KeepUnforkTwo(s, p, c, s', i, j);
    }
  }

  lemma KeepLinkOne(s: Sys, p: int, c: int, s': Sys, i: int)
    requires Inv(s) && 0 <= i < s.n && 0 <= p < s.n && s.pc[p] == Forked(c) && 0 <= c < s.n && s.wlock == -1
    requires s' == LinkStep(s, p, c)
    ensures One(s', i)
  {
    Know(s, i, i);
    Know(s, p, p);
    Know(s, i, c);
    Know(s, p, c);
    Know(s, i, p);
  }

  lemma KeepLinkTwo(s: Sys, p: int, c: int, s': Sys, i: int, j: int)
    requires Inv(s) && 0 <= i < s.n && 0 <= j < s.n && 0 <= p < s.n && s.pc[p] == Forked(c) && 0 <= c < s.n
    requires s.wlock == -1
    requires s' == LinkStep(s, p, c)
    ensures Two(s', i, j)
  {
    Know(s, i, j);
    Know(s, p, p);
    Know(s, i, c);
    Know(s, p, c);
    Know(s, i, p);
  }

  lemma KeepLink(s: Sys, p: int, c: int, s': Sys)
    requires Inv(s) && 0 <= p < s.n && s.pc[p] == Forked(c) && 0 <= c < s.n && s.wlock == -1
    requires s' == LinkStep(s, p, c)
    ensures Inv(s')
  {
    KeepLogs(s, s');
    forall i | 0 <= i < s.n
      ensures One(s', i)
    {
      KeepLinkOne(s, p, c, s', i);
    }
    forall i, j | 0 <= i < s.n && 0 <= j < s.n
      ensures Two(s', i, j)
    {
      KeepLinkTwo(s, p, c, s', i, j);
    }
  }

  lemma KeepStartOne(s: Sys, p: int, c: int, s': Sys, i: int)
    requires Inv(s) && 0 <= i < s.n && 0 <= p < s.n && s.pc[p] == Linked(c) && 0 <= c < s.n
    requires s' == StartStep(s, p, c)
    ensures One(s', i)
  {
    Know(s, i, i);
    Know(s, p, p);
    Know(s, i, p);
    Know(s, p, c);
  }

  lemma KeepStartChild(s: Sys, p: int, c: int, s': Sys, i: int, j: int)
    requires Inv(s) && 0 <= i < s.n && 0 <= j < s.n && s.par[i] == j && 0 <= p < s.n && s.pc[p] == Linked(c)
    requires 0 <= c < s.n
    requires s' == StartStep(s, p, c)
    ensures ChildOf(s', i, j)
  {
    Know(s, i, j);
    Know(s, p, p);
    Know(s, i, p);
    Know(s, p, c);
  }

  lemma KeepStartTwo(s: Sys, p: int, c: int, s': Sys, i: int, j: int)
    requires Inv(s) && 0 <= i < s.n && 0 <= j < s.n && 0 <= p < s.n && s.pc[p] == Linked(c) && 0 <= c < s.n
    requires s' == StartStep(s, p, c)
    ensures Two(s', i, j)
  {
    assert Two(s, i, j);
    assert Two(s, i, p);
    Know(s, p, c);
    if s.par[i] == j {
      KeepStartChild(s, p, c, s', i, j);
    }
  }

  lemma KeepStart(s: Sys, p: int, c: int, s': Sys)
    requires Inv(s) && 0 <= p < s.n && s.pc[p] == Linked(c) && 0 <= c < s.n
    requires s' == StartStep(s, p, c)
    ensures Inv(s')
  {
    Know(s, p, c);
    KeepLogs(s, s');
    forall i | 0 <= i < s.n
      ensures One(s', i)
    {
      KeepStartOne(s, p, c, s', i);
    }
    forall i, j | 0 <= i < s.n && 0 <= j < s.n
      ensures Two(s', i, j)
    {
      KeepStartTwo(s, p, c, s', i, j);
    }
  }

  lemma KeepWakeUp(s: Sys, p: int, s': Sys)
    requires Inv(s) && 0 <= p < s.n && !HoldsOwn(s.pc[p]) && s.st[p] == Sleeping
    requires s' == s.(st := s.st[p := Runnable])
    ensures Inv(s')
  {
    KeepLogs(s, s');
    forall i | 0 <= i < s.n
      ensures One(s', i)
    {
      Know(s, i, i);
      Know(s, p, p);
    }
    forall i, j | 0 <= i < s.n && 0 <= j < s.n
      ensures Two(s', i, j)
    {
      Know(s, i, j);
      Know(s, p, p);
    }
  }

  lemma KeepGiveAway(s: Sys, p: int, x: int, k: int, s': Sys)
    requires Inv(s) && 0 <= p < s.n && s.pc[p] == Reparent(x, k) && 0 <= k < s.n && s.par[k] == p
    requires s' == s.(par := s.par[k := 0], pc := s.pc[p := ReparentWake(x, k, 0)])
    ensures Inv(s')
  {
    KeepLogs(s, s');
    forall i | 0 <= i < s.n
      ensures One(s', i)
    {
      Know(s, i, p);
      Know(s, 0, p);
    }
    forall i, j | 0 <= i < s.n && 0 <= j < s.n
      ensures Two(s', i, j)
    {
      KeepGiveAwayTwo(s, p, x, k, s', i, j);
    }
  }

  lemma KeepGiveAwayTwo(s: Sys, p: int, x: int, k: int, s': Sys, i: int, j: int)
    requires Inv(s) && 0 <= p < s.n && s.pc[p] == Reparent(x, k) && 0 <= k < s.n && s.par[k] == p
    requires s' == s.(par := s.par[k := 0], pc := s.pc[p := ReparentWake(x, k, 0)]) && 0 <= i < s.n && 0 <= j < s.n
    ensures Two(s', i, j)
  {
    Know(s, i, j);
    Know(s, i, p);
    Know(s, 0, p);
  }

  lemma KeepZombie(s: Sys, p: int, x: int, s': Sys)
    requires Inv(s) && 0 <= p < s.n && s.pc[p] == ExitOwn(x)
    requires s' == ZombieStep(s, p, x)
    ensures Inv(s')
  {
    Know(s, p, p);
    ZombieLogs(s, p, x, s');
    forall i | 0 <= i < s.n
      ensures One(s', i)
    {
      Know(s, i, i);
      Know(s, p, p);
      Know(s, i, p);
    }
    forall i, j | 0 <= i < s.n && 0 <= j < s.n
      ensures Two(s', i, j)
    {
      Know(s, i, j);
      Know(s, p, p);
      Know(s, i, p);
    }
  }

  lemma KeepReapOne(s: Sys, p: int, k: int, kids: bool, s': Sys, i: int)
    requires Inv(s) && 0 <= i < s.n && 0 <= p < s.n && s.pc[p] == WaitScan(k, kids) && 0 <= k < s.n && s.par[k] == p
    requires s.st[k] == Zombie && s.pc[k] == Dead
    requires s' == s.(st := s.st[k := Unused], par := s.par[k := -1], reaps := s.reaps + [(s.pid[k], s.xstate[k])],
                      wlock := -1, pc := s.pc[p := Run][k := Idle])
    ensures One(s', i)
  {
    Know(s, i, i);
    Know(s, p, p);
    Know(s, k, p);
    Know(s, i, k);
  }

  lemma KeepReapTwo(s: Sys, p: int, k: int, kids: bool, s': Sys, i: int, j: int)
    requires Inv(s) && 0 <= i < s.n && 0 <= j < s.n && 0 <= p < s.n && s.pc[p] == WaitScan(k, kids) && 0 <= k < s.n
    requires s.par[k] == p && s.st[k] == Zombie && s.pc[k] == Dead
    requires s' == s.(st := s.st[k := Unused], par := s.par[k := -1], reaps := s.reaps + [(s.pid[k], s.xstate[k])],
                      wlock := -1, pc := s.pc[p := Run][k := Idle])
    ensures Two(s', i, j)
  {
    Know(s, i, j);
    Know(s, p, p);
    Know(s, k, p);
    Know(s, i, k);
  }

  lemma KeepReap(s: Sys, p: int, k: int, kids: bool, s': Sys)
    requires Inv(s) && 0 <= p < s.n && s.pc[p] == WaitScan(k, kids) && 0 <= k < s.n && s.par[k] == p
    requires s.st[k] == Zombie && s.pc[k] == Dead
    requires s' == s.(st := s.st[k := Unused], par := s.par[k := -1], reaps := s.reaps + [(s.pid[k], s.xstate[k])],
                      wlock := -1, pc := s.pc[p := Run][k := Idle])
    ensures Inv(s')
  {
    ReapLogs(s, p, k, s');
    forall i | 0 <= i < s.n
      ensures One(s', i)
    {
      KeepReapOne(s, p, k, kids, s', i);
    }
    forall i, j | 0 <= i < s.n && 0 <= j < s.n
      ensures Two(s', i, j)
    {
      KeepReapTwo(s, p, k, kids, s', i, j);
    }
  }

  lemma KeepWaitSetOne(s: Sys, p: int, s': Sys, i: int)
    requires Inv(s) && 0 <= i < s.n && 0 <= p < s.n && s.pc[p] == WaitSet
    requires s' == s.(st := s.st[p := Sleeping], chan := s.chan[p := p], pc := s.pc[p := Asleep])
    ensures One(s', i)
  {
    Know(s, i, i);
    Know(s, p, p);
  }

  lemma KeepWaitSetTwo(s: Sys, p: int, s': Sys, i: int, j: int)
    requires Inv(s) && 0 <= i < s.n && 0 <= j < s.n && 0 <= p < s.n && s.pc[p] == WaitSet
    requires s' == s.(st := s.st[p := Sleeping], chan := s.chan[p := p], pc := s.pc[p := Asleep])
    ensures Two(s', i, j)
  {
    Know(s, i, j);
    Know(s, p, p);
  }

  lemma KeepWaitSet(s: Sys, p: int, s': Sys)
    requires Inv(s) && 0 <= p < s.n && s.pc[p] == WaitSet
    requires s' == s.(st := s.st[p := Sleeping], chan := s.chan[p := p], pc := s.pc[p := Asleep])
    ensures Inv(s')
  {
    Know(s, p, p);
    KeepLogs(s, s');
    forall i | 0 <= i < s.n
      ensures One(s', i)
    {
      KeepWaitSetOne(s, p, s', i);
    }
    forall i, j | 0 <= i < s.n && 0 <= j < s.n
      ensures Two(s', i, j)
    {
      KeepWaitSetTwo(s, p, s', i, j);
    }
  }

  lemma KeepAsleepOne(s: Sys, p: int, s': Sys, i: int)
    requires Inv(s) && 0 <= i < s.n && 0 <= p < s.n && s.pc[p] == Asleep && s.st[p] == Runnable
    requires s' == s.(chan := s.chan[p := -1], pc := s.pc[p := WaitLock])
    ensures One(s', i)
  {
    Know(s, i, i);
    Know(s, p, p);
  }

  lemma KeepAsleepTwo(s: Sys, p: int, s': Sys, i: int, j: int)
    requires Inv(s) && 0 <= i < s.n && 0 <= j < s.n && 0 <= p < s.n && s.pc[p] == Asleep && s.st[p] == Runnable
    requires s' == s.(chan := s.chan[p := -1], pc := s.pc[p := WaitLock])
    ensures Two(s', i, j)
  {
    Know(s, i, j);
    Know(s, p, p);
  }

  lemma KeepAsleep(s: Sys, p: int, s': Sys)
    requires Inv(s) && 0 <= p < s.n && s.pc[p] == Asleep && s.st[p] == Runnable
    requires s' == s.(chan := s.chan[p := -1], pc := s.pc[p := WaitLock])
    ensures Inv(s')
  {
    KeepLogs(s, s');
    forall i | 0 <= i < s.n
      ensures One(s', i)
    {
      KeepAsleepOne(s, p, s', i);
    }
    forall i, j | 0 <= i < s.n && 0 <= j < s.n
      ensures Two(s', i, j)
    {
      KeepAsleepTwo(s, p, s', i, j);
    }
  }

  /** The step of the code from one place to the next that changes nothing else than who
      holds wait_lock: what the new place asks of the rest of the system. */
  predicate MoveOk(s: Sys, p: int, pc: Pc, to: Pc, owner: int)
    requires Shape(s) && 0 <= p < s.n
  {
    && !to.Idle? && !pc.Idle? && !to.Forked? && !to.Linked? && !pc.Forked? && !pc.Linked? && s.st[p] != Sleeping
    && (to.ExitRel? || to.ExitSched? || to.Dead? <==> s.st[p] == Zombie) && (p == 0 ==> !Exiting(to))
    && (to.Reparent? || to.ReparentWake? || to.WaitScan? ==> 0 <= to.k) && (to.ReparentWake? || to.WakeParent? ==>
          0 <= to.j)
    && (HoldsW(to) ==> owner == p && (HoldsW(pc) || s.wlock == -1)) && (!HoldsW(to) ==>
          owner == if HoldsW(pc) then -1 else s.wlock)
    && (to.WaitSet? ==> HoldsW(pc)) && (pc.ReparentWake? && pc.j <= 0 ==> !Committed(s.pc[0], s.st[0]))
    && (0 <= s.par[p] < s.n && Woke(to, s.par[p]) ==> !Committed(s.pc[s.par[p]], s.st[s.par[p]]))
  }

  /** ... and of each child of p. */
  predicate ChildOk(s: Sys, p: int, to: Pc, i: int)
    requires Shape(s) && 0 <= p < s.n && 0 <= i < s.n
  {
    s.par[i] == p ==>
      && !Left(to, i) && (to.WaitSet? ==> s.st[i] != Zombie)
      && (Scanned(to, i) ==> s.st[i] != Zombie && (to.WaitScan? ==> to.kids))
  }

  lemma MoveOne(s: Sys, p: int, to: Pc, owner: int, s': Sys, i: int)
    requires Inv(s) && 0 <= p < s.n && 0 <= i < s.n && MoveOk(s, p, s.pc[p], to, owner)
    requires s' == s.(wlock := owner, pc := s.pc[p := to])
    ensures One(s', i)
  {
    Know(s, i, p);
  }

  lemma MoveChild(s: Sys, p: int, to: Pc, owner: int, s': Sys, i: int, j: int)
    requires Inv(s) && 0 <= p < s.n && 0 <= i < s.n && 0 <= j < s.n && s.par[i] == j
    requires MoveOk(s, p, s.pc[p], to, owner) && s' == s.(wlock := owner, pc := s.pc[p := to]) && ChildOk(s, p, to, i)
    ensures ChildOf(s', i, j)
  {
    Know(s, i, j);
    Know(s, p, p);
  }

  lemma MoveTwo(s: Sys, p: int, to: Pc, owner: int, s': Sys, i: int, j: int)
    requires Inv(s) && 0 <= p < s.n && 0 <= i < s.n && 0 <= j < s.n
    requires MoveOk(s, p, s.pc[p], to, owner) && s' == s.(wlock := owner, pc := s.pc[p := to]) && ChildOk(s, p, to, i)
    ensures Two(s', i, j)
  {
    assert Two(s, i, j);
    if s.par[i] == j {
      MoveChild(s, p, to, owner, s', i, j);
    }
  }

  lemma Move(s: Sys, p: int, to: Pc, owner: int, s': Sys)
    requires Inv(s) && 0 <= p < s.n && MoveOk(s, p, s.pc[p], to, owner) && s' == s.(wlock := owner, pc := s.pc[p := to])
    requires forall i {:trigger ChildOk(s, p, to, i)} | 0 <= i < s.n :: ChildOk(s, p, to, i)
    ensures Inv(s')
  {
    KeepLogs(s, s');
    forall i | 0 <= i < s.n
      ensures One(s', i)
    {
      MoveOne(s, p, to, owner, s', i);
    }
    forall i, j | 0 <= i < s.n && 0 <= j < s.n
      ensures Two(s', i, j)
    {
      assert ChildOk(s, p, to, i);
      MoveTwo(s, p, to, owner, s', i, j);
    }
  }

  /** The places from which the code moves on so, and where to. */
  predicate Moves(s: Sys, p: int, to: Pc, owner: int)
    requires Shape(s) && 0 <= p < s.n
  {
    match s.pc[p]
    case Run => owner == s.wlock && (to == WaitLock || (p > 0 && to.ExitLock?))
    case ExitLock(x) => s.wlock == -1 && owner == p && to == Reparent(x, 0)
    case Reparent(x, k) => owner == p && (0 <= k < s.n ==>
        s.par[k] != p) && to == if k < s.n then Reparent(x, k + 1) else WakeParent(x, 0)
    case ReparentWake(x, k, j) => owner == p && (j == 0 ==>
        !Committed(s.pc[0], s.st[0])) && to == if j < s.n then ReparentWake(x, k, j + 1) else Reparent(x, k + 1)
    case WakeParent(x, j) =>
      owner == p && (0 <= j < s.n && s.par[p] == j ==>
          !Committed(s.pc[j], s.st[j])) && to == if j < s.n then WakeParent(x, j + 1) else ExitOwn(x)
    case ExitRel => owner == -1 && to == ExitSched
    case ExitSched => owner == s.wlock && to == Dead
    case WaitLock => s.wlock == -1 && owner == p && to == WaitScan(0, false)
    case WaitScan(k, kids) =>
      || (owner == -1 && to == Run)
      || (owner == p && k >= s.n && to == WaitSleep)
      || (owner == p && 0 <= k < s.n && (s.par[k] == p ==>
            s.st[k] != Zombie) && to == WaitScan(k + 1, kids || s.par[k] == p))
    case WaitSleep => owner == p && to == WaitRel
    case WaitRel => owner == -1 && to == WaitSet
    case _ => false
  }

  lemma KeepMove(s: Sys, p: int, s': Sys)
    requires Inv(s) && 0 <= p < s.n && Shape(s') && s'.n == s.n
    requires s' == s.(wlock := s'.wlock, pc := s.pc[p := s'.pc[p]]) && Moves(s, p, s'.pc[p], s'.wlock)
    ensures Inv(s')
  {
    Know(s, p, p);
    if s.par[p] != -1 {
      Know(s, p, s.par[p]);
    }
    var to := s'.pc[p];
    forall i | 0 <= i < s.n
      ensures ChildOk(s, p, to, i)
    {
      Know(s, i, p);
    }
    Move(s, p, to, s'.wlock, s');
  }

  lemma GoExit(s: Sys, p: int, copied: bool, s': Sys)
    requires Inv(s) && 0 <= p < s.n && CanGo(s, p) && s' == GoStep(s, p, copied) && Exiting(s.pc[p])
    ensures Inv(s')
  {
    Know(s, p, p);
    match s.pc[p]
    case Reparent(x, k) =>
      if k < s.n && s.par[k] == p {
        KeepGiveAway(s, p, x, k, s');
      } else {
        KeepMove(s, p, s');
      }
    case ReparentWake(_, _, j) => GoWake(s, p, j, 0, copied, s');
    case WakeParent(_, j) => GoWake(s, p, j, s.par[p], copied, s');
    case ExitOwn(x) => KeepZombie(s, p, x, s');
    case Dead =>
    case _ => KeepMove(s, p, s');
  }

  lemma GoWake(s: Sys, p: int, j: int, chan: int, copied: bool, s': Sys)
    requires Inv(s) && 0 <= p < s.n && CanGo(s, p) && s' == GoStep(s, p, copied)
    requires (s.pc[p].ReparentWake? && chan == 0) || (s.pc[p].WakeParent? && chan == s.par[p])
    requires j == s.pc[p].j
    ensures Inv(s')
  {
    WakeFacts(s, p, j, chan);
    var s1 := WokenSlot(s, p, j, chan);
    KeepMove(s1, p, s');
  }

  lemma WakeFacts(s: Sys, p: int, j: int, chan: int)
    requires Inv(s) && 0 <= p < s.n && CanGo(s, p)
    requires (s.pc[p].ReparentWake? && chan == 0) || (s.pc[p].WakeParent? && chan == s.par[p])
    requires j == s.pc[p].j
    ensures 0 <= j && p != chan && s.wlock == p && (j < s.n && j != p ==> !HoldsOwn(s.pc[j]))
  {
    Know(s, p, p);
    if s.par[p] != -1 {
      Know(s, p, s.par[p]);
    }
  }

  /** wakeup at one slot: nobody stays asleep there on the channel. */
  lemma WokenSlot(s: Sys, p: int, j: int, chan: int) returns (s1: Sys)
    requires Inv(s) && 0 <= p < s.n && 0 <= j && p != chan && (j < s.n && j != p ==> !HoldsOwn(s.pc[j]))
    ensures Inv(s1) && s1 == if j < s.n then s.(st := WakeSlot(s, p, j, chan)) else s
    ensures j == chan < s.n ==> !Committed(s1.pc[j], s1.st[j])
  {
    s1 := s;
    if j < s.n {
      Know(s, j, j);
      if j != p && s.st[j] == Sleeping && s.chan[j] == chan {
        s1 := s.(st := s.st[j := Runnable]);
        KeepWakeUp(s, j, s1);
      }
    }
  }

  lemma GoWait(s: Sys, p: int, copied: bool, s': Sys)
    requires Inv(s) && 0 <= p < s.n && CanGo(s, p) && s' == GoStep(s, p, copied) && !Exiting(s.pc[p])
    ensures Inv(s')
  {
    Know(s, p, p);
    match s.pc[p]
    case Forked(c) => KeepLink(s, p, c, s');
    case Linked(c) => KeepStart(s, p, c, s');
    case WaitScan(k, kids) =>
      if k < s.n && s.par[k] == p && s.st[k] == Zombie && copied {
        Know(s, k, p);
        KeepReap(s, p, k, kids, s');
      } else {
        KeepMove(s, p, s');
      }
    case WaitSet => KeepWaitSet(s, p, s');
    case Asleep => KeepAsleep(s, p, s');
    case Idle =>
    case Run =>
    case _ => KeepMove(s, p, s');
  }

  lemma KeepKilled(s: Sys, i: int, s': Sys)
    requires Inv(s) && 0 <= i < s.n && s' == s.(killed := s.killed[i := true])
    ensures Inv(s')
  {
    KeepLogs(s, s');
    forall k | 0 <= k < s.n
      ensures One(s', k)
    {
      Know(s, k, k);
    }
    forall k, j | 0 <= k < s.n && 0 <= j < s.n
      ensures Two(s', k, j)
    {
      Know(s, k, j);
    }
  }

  lemma StepKeepsInv(s: Sys, a: Action)
    requires Inv(s) && Enabled(s, a)
    ensures Inv(Apply(s, a))
  {
    var s' := Apply(s, a);
    match a
    case Fork(p, c) => KeepFork(s, p, c, s');
    case ForkFails(p) => KeepUnfork(s, p, s.pc[p].c, s');
    case Exit(p, x) => KeepMove(s, p, s');
    case Wait(p) => KeepMove(s, p, s');
    case Kill(i) =>
      Know(s, i, i);
      var s1 := s;
      if s.st[i] == Sleeping {
        s1 := s.(st := s.st[i := Runnable]);
        KeepWakeUp(s, i, s1);
      }
      KeepKilled(s1, i, s');
    case Go(p, copied) =>
      if Exiting(s.pc[p]) {
        GoExit(s, p, copied, s');
      } else {
        GoWait(s, p, copied, s');
      }
  }

  // ---------------------------------------------------------------- every run

  /** Only init exists. */
  ghost predicate Boot(s: Sys) {
    && Shape(s) && s.wlock == -1 && s.exits == [] && s.reaps == []
    && s.st[0] == Runnable && s.pc[0] == Run && s.pid[0] < s.nextpid
    && (forall i | 0 <= i < s.n :: s.par[i] == -1)
    && (forall i | 0 < i < s.n :: s.st[i] == Unused && s.pc[i] == Idle)
  }

  ghost predicate Trace(ss: seq<Sys>, acts: seq<Action>) {
    && |ss| == |acts| + 1 && Boot(ss[0])
    && (forall k | 0 <= k < |acts| :: Shape(ss[k]) && Enabled(ss[k], acts[k]) && ss[k + 1] == Apply(ss[k], acts[k]))
  }

  lemma BootInv(s: Sys)
    requires Boot(s)
    ensures Inv(s)
  {
    forall i, j | 0 <= i < s.n && 0 <= j < s.n
      ensures Two(s, i, j)
    {
      assert s.par[i] == -1 && s.pc[i] == if i == 0 then Run else Idle;
    }
  }

  lemma {:induction false} ReachableInv(ss: seq<Sys>, acts: seq<Action>, k: int)
    requires Trace(ss, acts) && 0 <= k < |ss|
    ensures Inv(ss[k])
  {
    if k == 0 {
      BootInv(ss[0]);
    } else {
      ReachableInv(ss, acts, k - 1);
      StepKeepsInv(ss[k - 1], acts[k - 1]);
    }
  }

  /** No lost wakeup: whenever wait_lock is free, nobody sleeps in kwait over a zombie child. */
  lemma NoLostWakeup(ss: seq<Sys>, acts: seq<Action>, k: int, p: int, c: int)
    requires Trace(ss, acts) && 0 <= k < |ss| && 0 <= p < |ss[k].st| && 0 <= c < |ss[k].par| == |ss[k].st|
    requires ss[k].wlock == -1 && ss[k].st[p] == Sleeping && ss[k].par[c] == p
    ensures ss[k].st[c] != Zombie
  {
    ReachableInv(ss, acts, k);
    Know(ss[k], c, p);
  }

  /** At every moment a process that runs, sleeps or is a zombie, other than init, has a
      parent that is neither a zombie nor gone. */
  lemma ParentsAlive(ss: seq<Sys>, acts: seq<Action>, k: int, c: int)
    requires Trace(ss, acts) && 0 <= k < |ss| && 0 < c < ss[k].n
    ensures Shape(ss[k])
    ensures (Alive(ss[k].st[c]) || ss[k].st[c] == Zombie ==>
        0 <= ss[k].par[c] < ss[k].n && Alive(ss[k].st[ss[k].par[c]]))
  {
    ReachableInv(ss, acts, k);
    Know(ss[k], c, c);
    if ss[k].par[c] != -1 {
      Know(ss[k], c, ss[k].par[c]);
    }
  }

  /** Each pid exits at most once and is reaped at most once, with the status it exited with. */
  lemma ReapedOnce(ss: seq<Sys>, acts: seq<Action>, k: int)
    requires Trace(ss, acts) && 0 <= k < |ss|
    ensures forall x | 0 <= x < |ss[k].reaps| :: ss[k].reaps[x] in ss[k].exits
    ensures forall x, y | 0 <= x < y < |ss[k].reaps| :: ss[k].reaps[x].0 != ss[k].reaps[y].0
    ensures forall e, f | 0 <= e < f < |ss[k].exits| :: ss[k].exits[e].0 != ss[k].exits[f].0
  {
    ReachableInv(ss, acts, k);
  }

  /** When kwait's scan ends without having seen a child, the caller has none; when it goes
      to sleep, none of its children is a zombie. */
  lemma ScanFindsChildren(ss: seq<Sys>, acts: seq<Action>, k: int, p: int, c: int)
    requires Trace(ss, acts) && 0 <= k < |ss| && 0 <= p < |ss[k].pc|
    requires 0 <= c < |ss[k].par| == |ss[k].pc| == ss[k].n == |ss[k].st| && ss[k].par[c] == p
    ensures ss[k].pc[p].WaitScan? && ss[k].pc[p].k >= ss[k].n ==> ss[k].pc[p].kids && ss[k].st[c] != Zombie
    ensures ss[k].pc[p].WaitSleep? || ss[k].pc[p].WaitRel? ==> ss[k].st[c] != Zombie
  {
    ReachableInv(ss, acts, k);
    Know(ss[k], c, p);
  }
}
