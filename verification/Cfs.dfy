/** The CFS scheduler of the scheduling patch on one CPU. Processes fork, run, change their
    nice value and exit; a process that has started is always runnable. A fork is two steps:
    the child gets its vruntime when its slot is allocated and becomes runnable later, and
    its parent can lose the CPU in between. */
module Cfs {

  /** calculate_weight */
  function Weight(nice: int): (w: int)
    ensures 15 <= w <= 88761
    ensures w <= 1024 <==> nice >= 0
  {
    var n := if nice < -20 then -20 else if nice > 19 then 19 else nice;
    match n
    case -20 => 88761 case -19 => 71755 case -18 => 56483 case -17 => 46273 case -16 => 36291
    case -15 => 29154 case -14 => 23254 case -13 => 18705 case -12 => 14949 case -11 => 11916
    case -10 => 9548 case -9 => 7620 case -8 => 6100 case -7 => 4904 case -6 => 3906
    case -5 => 3121 case -4 => 2501 case -3 => 1991 case -2 => 1586 case -1 => 1277
    case 0 => 1024 case 1 => 820 case 2 => 655 case 3 => 526 case 4 => 423
    case 5 => 335 case 6 => 272 case 7 => 215 case 8 => 172 case 9 => 137
    case 10 => 110 case 11 => 87 case 12 => 70 case 13 => 56 case 14 => 45
    case 15 => 36 case 16 => 29 case 17 => 23 case 18 => 18 case _ => 15
  }

  /** One nice level is worth a quarter of the weight, give or take a twentieth. */
  lemma WeightSteps(nice: int)
    requires -20 <= nice < 19
    ensures 120 * Weight(nice + 1) <= 100 * Weight(nice) <= 130 * Weight(nice + 1)
    ensures Weight(0) == 1024
  {
  }

  /** What one tick adds to the vruntime of a process: 1024 over its weight, rounded down. */
  function Inc(weight: int): (d: int)
    requires weight >= 15
    ensures 0 <= d <= 68 && (d >= 1 <==> weight <= 1024)
    ensures d * weight <= 1024 < (d + 1) * weight
  {
    1024 / weight
  }

  /** A process's part of 48 ticks, rounded down, and at least 3 and at most 24. */
  function Slice(weight: int, total: int): (t: int)
    requires total > 0
    ensures 3 <= t <= 24
    ensures t < 24 ==> 48 * weight < (t + 1) * total
    ensures t > 3 ==> t * total <= 48 * weight
  {
    var t := 48 * weight / total;
    if t < 3 then 3 else if t > 24 then 24 else t
  }

  /** The slices of the first k processes that are above the minimum. */
  function LongSlices(live: seq<bool>, slice: seq<int>, k: int): int
    requires 0 <= k <= |live| == |slice|
  {
    if k == 0 then 0 else LongSlices(live, slice, k - 1) + if live[k - 1] && slice[k - 1] > 3 then slice[k - 1] else 0
  }

  lemma {:induction false} LongSlicesBound(live: seq<bool>, weight: seq<int>, slice: seq<int>, total: int, k: int)
    requires 0 <= k <= |live| == |slice| == |weight| && total > 0
    requires forall i | 0 <= i < |live| :: weight[i] >= 15
    requires forall i | 0 <= i < |live| && live[i] && slice[i] > 3 :: slice[i] * total <= 48 * weight[i]
    ensures LongSlices(live, slice, k) * total <= 48 * TotalWeight(live, weight, k)
  {
    if k > 0 {
      LongSlicesBound(live, weight, slice, total, k - 1);
      var more := if live[k - 1] && slice[k - 1] > 3 then slice[k - 1] else 0;
      AddTimes(LongSlices(live, slice, k - 1), more, total);
    }
  }

  lemma AddTimes(a: int, b: int, t: int)
    ensures (a + b) * t == a * t + b * t
  {
  }

  /** A dispatch shares out a latency of 48 ticks: the slice of each process is its part by
      weight, rounded down and kept within 3 and 24, and the slices above the minimum come to
      at most 48. */
  lemma SlicesShareLatency(s: Sched, s': Sched)
    requires Shape(s) && Step(s, Dispatch, s')
    ensures var total := TotalWeight(s.live, s.weight, |s.live|);
      && total > 0
      && (forall i | 0 <= i < |s.live| && s.live[i] ::
            && 3 <= s'.slice[i] <= 24
            && (s'.slice[i] < 24 ==> 48 * s.weight[i] < (s'.slice[i] + 1) * total)
            && (s'.slice[i] > 3 ==> s'.slice[i] * total <= 48 * s.weight[i]))
      && LongSlices(s.live, s'.slice, |s.live|) <= 48
  {
    var n := |s.live|;
    var total := TotalWeight(s.live, s.weight, n);
    assert s.live[s'.cur] && total >= s.weight[s'.cur] >= 15;
    LongSlicesBound(s.live, s.weight, s'.slice, total, n);
    AtMost(LongSlices(s.live, s'.slice, n), total);
  }

  lemma AtMost(a: int, t: int)
    requires t > 0 && a * t <= 48 * t
    ensures a <= 48
  {
    assert a >= 49 ==> a * t >= 49 * t;
  }

  /** The process table; cur is the running process, -1 while the scheduler runs. born[p]
      is the parent of a child whose slot is allocated but not yet runnable, else -1. */
  datatype Sched = Sched(live: seq<bool>, born: seq<int>, weight: seq<int>, vr: seq<int>, slice: seq<int>,
      run: seq<int>, cur: int)

  ghost predicate Shape(s: Sched) {
    && |s.born| == |s.live| && |s.weight| == |s.live| && |s.vr| == |s.live| && |s.slice| == |s.live|
    && |s.run| == |s.live|
    && -1 <= s.cur < |s.live| && (s.cur >= 0 ==> s.live[s.cur])
    && (forall i | 0 <= i < |s.live| :: s.weight[i] >= 15)
  }

  function TotalWeight(live: seq<bool>, weight: seq<int>, k: int): (t: int)
    requires 0 <= k <= |live| == |weight|
    ensures (forall i | 0 <= i < k :: weight[i] >= 15) ==> t >= 0 && forall i | 0 <= i < k && live[i] :: t >= weight[i]
  {
    if k == 0 then 0 else TotalWeight(live, weight, k - 1) + (if live[k - 1] then weight[k - 1] else 0)
  }

  /** m is the first process with the least vruntime. */
  ghost predicate Least(live: seq<bool>, vr: seq<int>, m: int) {
    && |vr| == |live| && 0 <= m < |live| && live[m]
    && (forall j | 0 <= j < |live| && live[j] :: vr[m] <= vr[j] && (j < m ==> vr[m] < vr[j]))
  }

  // ---------------------------------------------------------------- the steps

  datatype Event = Dispatch | Tick | Seed(p: int) | Start(p: int) | Nice(n: int) | Exit

  ghost predicate Step(s: Sched, e: Event, s': Sched)
    requires Shape(s)
  {
    && Shape(s') && |s'.live| == |s.live|
    && match e
       case Dispatch =>
         && s.cur == -1 && Least(s.live, s.vr, s'.cur)
         && s' == s.(cur := s'.cur, run := s.run[s'.cur := 0], slice := s'.slice)
         && forall i | 0 <= i < |s.live| && s.live[i] ::
               s'.slice[i] == Slice(s.weight[i], TotalWeight(s.live, s.weight, |s.live|))
       case Tick =>
         && s.cur >= 0
         && s' == s.(vr := s.vr[s.cur := s.vr[s.cur] + Inc(s.weight[s.cur])], run := s.run[s.cur := s.run[s.cur] + 1],
                     cur := if s.run[s.cur] + 1 >= s.slice[s.cur] then -1 else s.cur)
       case Seed(p) =>
         && s.cur >= 0 && 0 <= p < |s.live| && !s.live[p] && s.born[p] == -1
         && (forall j | 0 <= j < |s.live| && s.live[j] :: s'.vr[p] <= s.vr[j])
         && (exists j :: 0 <= j < |s.live| && s.live[j] && s'.vr[p] == s.vr[j])
         && s' == s.(born := s.born[p := s.cur], weight := s.weight[p := Weight(0)], vr := s.vr[p := s'.vr[p]],
                     slice := s.slice[p := 0], run := s.run[p := 0])
       case Start(p) =>
         && s.cur >= 0 && 0 <= p < |s.live| && s.born[p] == s.cur
         && s' == s.(live := s.live[p := true], born := s.born[p := -1])
       case Nice(n) => s.cur >= 0 && s' == s.(weight := s.weight[s.cur := Weight(n)])
       case Exit =>
         && s.cur >= 0 && (forall p | 0 <= p < |s.live| :: s.born[p] != s.cur)
         && s' == s.(live := s.live[s.cur := false], cur := -1)
  }

  // ---------------------------------------------------------------- the code

  class Scheduler {
    var s: Sched

    ghost predicate Valid()
      reads this
    {
      Shape(s)
    }

    constructor (n: nat)
      ensures Valid() && s.cur == -1 && |s.live| == n && forall i | 0 <= i < n :: !s.live[i] && s.born[i] == -1
    {
      s := Sched(seq(n, _ => false), seq(n, _ => -1), seq(n, _ => 1024), seq(n, _ => 0), seq(n, _ => 0), seq(n, _ => 0),
                 -1);
    }

    /** One round of the scheduler's loop. */
    method Schedule() returns (found: bool)
      requires Valid() && s.cur == -1
      modifies this
      ensures Valid() && found == exists i :: 0 <= i < |old(s).live| && old(s).live[i]
      ensures if found then Step(old(s), Dispatch, s) else s == old(s)
    {
      var count, total := Runnable();
      var slice := s.slice;
      if count > 0 && total > 0 {
        slice := Slices(total);
      }
      var min := Pick();
      found := min >= 0;
      if found {
        assert total >= s.weight[min];
        s := s.(run := s.run[min := 0], cur := min, slice := slice);
      }
    }

    /** Its first loop: how many processes are runnable, and their weight. */
    method Runnable() returns (count: int, total: int)
      requires Valid()
      ensures total == TotalWeight(s.live, s.weight, |s.live|)
      ensures count > 0 <==> exists i :: 0 <= i < |s.live| && s.live[i]
    {
      count, total := 0, 0;
      for p := 0 to |s.live|
        invariant total == TotalWeight(s.live, s.weight, p) && (count > 0 <==> exists i :: 0 <= i < p && s.live[i])
        invariant count >= 0
      {
        if s.live[p] {
          count := count + 1;
          total := total + s.weight[p];
        }
      }
    }

    /** Its second loop. */
    method Slices(total: int) returns (slice: seq<int>)
      requires Valid() && total > 0
      ensures |slice| == |s.live| && forall i | 0 <= i < |s.live| && s.live[i] :: slice[i] == Slice(s.weight[i], total)
      ensures forall i | 0 <= i < |s.live| && !s.live[i] :: slice[i] == s.slice[i]
    {
      slice := s.slice;
      for p := 0 to |s.live|
        invariant |slice| == |s.live| && forall i | 0 <= i < |slice| && !s.live[i] :: slice[i] == s.slice[i]
        invariant forall i | 0 <= i < p && s.live[i] :: slice[i] == Slice(s.weight[i], total)
      {
        if s.live[p] {
          slice := slice[p := Slice(s.weight[p], total)];
        }
      }
    }

    /** Its last loop: the first process with the least vruntime. */
    method Pick() returns (min: int)
      requires Valid()
      ensures if exists i :: 0 <= i < |s.live| && s.live[i] then Least(s.live, s.vr, min) else min == -1
    {
      min := -1;
      for p := 0 to |s.live|
        invariant -1 <= min < p && (min == -1 <==> forall i | 0 <= i < p :: !s.live[i])
        invariant min >= 0 ==> s.live[min]
        invariant min >= 0 ==> forall j | 0 <= j < p && s.live[j] ::
            s.vr[min] <= s.vr[j] && (j < min ==> s.vr[min] < s.vr[j])
      {
        if s.live[p] && (min == -1 || s.vr[p] < s.vr[min]) {
          min := p;
        }
      }
    }

    /** The timer interrupt while a process runs. */
    method Timer()
      requires Valid() && s.cur >= 0
      modifies this
      ensures Valid() && Step(old(s), Tick, s)
    {
      var p := s.cur;
      s := s.(vr := s.vr[p := s.vr[p] + Inc(s.weight[p])]);
      s := s.(run := s.run[p := s.run[p] + 1]);
      if s.run[p] >= s.slice[p] {
        s := s.(cur := -1);
      }
    }

    /** The search in allocproc: the least vruntime of the runnable and running processes. */
    method LeastVruntime(p: int) returns (min: int, found: bool)
      requires Valid() && 0 <= p < |s.live| && !s.live[p]
      ensures found <==> exists j :: 0 <= j < |s.live| && s.live[j]
      ensures found ==> exists j :: 0 <= j < |s.live| && s.live[j] && min == s.vr[j]
      ensures forall j | 0 <= j < |s.live| && s.live[j] :: min <= s.vr[j]
    {
      min, found := 0, false;
      for q := 0 to |s.live|
        invariant found <==> exists j :: 0 <= j < q && s.live[j]
        invariant found ==> exists j :: 0 <= j < q && s.live[j] && min == s.vr[j]
        invariant forall j | 0 <= j < q && s.live[j] :: found && min <= s.vr[j]
      {
        if q != p && s.live[q] {
          if !found || s.vr[q] < min {
            min, found := s.vr[q], true;
          }
        }
      }
    }

    /** allocproc's part in kfork: slot p gets the least vruntime there is. */
    method AllocProc(p: int)
      requires Valid() && 0 <= p < |s.live| && !s.live[p] && s.born[p] == -1 && s.cur >= 0
      modifies this
      ensures Valid() && Step(old(s), Seed(p), s)
    {
      var min, found := LeastVruntime(p);
      s := s.(born := s.born[p := s.cur], weight := s.weight[p := Weight(0)], vr := s.vr[p := if found then min else 0],
              slice := s.slice[p := 0], run := s.run[p := 0]);
    }

    /** kfork's last step. */
    method MakeRunnable(p: int)
      requires Valid() && s.cur >= 0 && 0 <= p < |s.live| && s.born[p] == s.cur
      modifies this
      ensures Valid() && Step(old(s), Start(p), s)
    {
      s := s.(live := s.live[p := true], born := s.born[p := -1]);
    }

    /** userinit: the first process starts at vruntime 0. */
    method Userinit(p: int)
      requires Valid() && s.cur == -1 && 0 <= p < |s.live|
      requires forall i | 0 <= i < |s.live| :: !s.live[i] && s.born[i] == -1
      modifies this
      ensures Fair(s, GAP) && Kids(s) && s.live == old(s).live[p := true] && s.vr[p] == 0
    {
      var min, found := LeastVruntime(p);
      s := s.(live := s.live[p := true], weight := s.weight[p := Weight(0)], vr := s.vr[p := if found then min else 0],
              slice := s.slice[p := 0], run := s.run[p := 0]);
    }
  }

  // ---------------------------------------------------------------- fairness

  const GAP: int := 1632     // 24 ticks of 68; 3264 below is twice that

  /** Any two vruntimes are within g, and so is the running process's whatever it makes of
      the rest of its slice. */
  ghost predicate Fair(s: Sched, g: int) {
    && Shape(s)
    && (forall i, j | 0 <= i < |s.live| && 0 <= j < |s.live| && s.live[i] && s.live[j] :: s.vr[i] <= s.vr[j] + g)
    && (s.cur >= 0 ==> 0 <= s.run[s.cur] < s.slice[s.cur] <= 24)
    && (s.cur >= 0 ==> forall j | 0 <= j < |s.live| && s.live[j] :: Ahead(s) <= s.vr[j] + g)
  }

  /** The vruntime the running process can reach within its slice. */
  function Ahead(s: Sched): int
    requires 0 <= s.cur < |s.vr| && s.cur < |s.slice| && s.cur < |s.run|
  {
    s.vr[s.cur] + 68 * (s.slice[s.cur] - s.run[s.cur])
  }

  /** A child that has not started was given no more than its parent has. */
  ghost predicate Kids(s: Sched) {
    && Shape(s)
    && (forall p | 0 <= p < |s.live| && s.born[p] != -1 ::
          !s.live[p] && 0 <= s.born[p] < |s.live| && s.live[s.born[p]] && s.vr[p] <= s.vr[s.born[p]])
  }

  /** Nobody is, or can get within this slice, more than g ahead of p. */
  ghost predicate InTime(s: Sched, p: int, g: int)
    requires Shape(s) && 0 <= p < |s.live|
  {
    && (forall i | 0 <= i < |s.live| && s.live[i] :: s.vr[i] <= s.vr[p] + g)
    && (s.cur >= 0 ==> Ahead(s) <= s.vr[p] + g)
  }

  lemma StepKeepsKids(s: Sched, e: Event, s': Sched)
    requires Kids(s) && Step(s, e, s')
    ensures Kids(s')
  {
    if e.Seed? {
      SeedKeepsKids(s, e.p, s');
    }
  }

  lemma SeedKeepsKids(s: Sched, p: int, s': Sched)
    requires Kids(s) && Step(s, Seed(p), s')
    ensures Kids(s')
  {
    assert s'.vr[p] <= s.vr[s.cur];
  }

  /** Dispatch, ticks, allocating a child, nice and exit keep the gap whatever it is ... */
  lemma StepKeepsFair(s: Sched, e: Event, s': Sched, g: int)
    requires Fair(s, g) && Step(s, e, s') && !e.Start? && g >= GAP
    ensures Fair(s', g)
  {
    match e
    case Dispatch => DispatchKeepsFair(s, s', g);
    case Tick => TickKeepsFair(s, s', g);
    case Seed(p) => SeedKeepsFair(s, p, s', g);
    case Nice(_) =>
    case Exit =>
  }

  lemma SeedKeepsFair(s: Sched, p: int, s': Sched, g: int)
    requires Fair(s, g) && Step(s, Seed(p), s') && g >= GAP
    ensures Fair(s', g)
  {
    assert Ahead(s') == Ahead(s);
  }

  lemma DispatchKeepsFair(s: Sched, s': Sched, g: int)
    requires Fair(s, g) && Step(s, Dispatch, s') && g >= GAP
    ensures Fair(s', g)
  {
    assert s'.vr == s.vr && s'.live == s.live && 3 <= s'.slice[s'.cur] <= 24 && s'.run[s'.cur] == 0;
  }

  lemma TickKeepsFair(s: Sched, s': Sched, g: int)
    requires Fair(s, g) && Step(s, Tick, s') && g >= GAP
    ensures Fair(s', g)
  {
    var c := s.cur;
    assert s'.vr[c] <= s.vr[c] + 68 && (s'.cur >= 0 ==> Ahead(s') <= Ahead(s));
    forall j | 0 <= j < |s.live| && s.live[j]
      ensures s'.vr[c] <= s'.vr[j] + g && s.vr[j] <= s'.vr[j]
    {
      assert Ahead(s) <= s.vr[j] + g;
    }
  }

  /** ... and starting a child keeps it exactly if the child is in time. */
  lemma StartKeepsFairIff(s: Sched, p: int, s': Sched, g: int)
    requires Fair(s, g) && Kids(s) && Step(s, Start(p), s')
    ensures Fair(s', g) <==> InTime(s, p, g)
  {
    assert s.vr[p] <= s.vr[s.cur];
    if Fair(s', g) {
      forall i | 0 <= i < |s.live| && s.live[i]
        ensures s.vr[i] <= s.vr[p] + g
      {
        assert s'.live[i] && s'.live[p];
      }
    }
  }

  /** A run: the states, and the event between each two of them. */
  ghost predicate Run(ss: seq<Sched>, es: seq<Event>) {
    |ss| == |es| + 1 && forall k {:trigger es[k]} | 0 <= k < |es| :: Shape(ss[k]) && Step(ss[k], es[k], ss[k + 1])
  }

  /** Whoever starts does so in time. */
  ghost predicate StartsInTime(ss: seq<Sched>, es: seq<Event>, g: int)
    requires Run(ss, es)
  {
    forall k {:trigger es[k]} | 0 <= k < |es| && es[k].Start? ::
        0 <= es[k].p < |ss[k].live| && InTime(ss[k], es[k].p, g)
  }

  /** The gap never exceeds g, whatever forks, exits or changes its nice value, as long as
      children start in time. */
  lemma {:induction false} GapBounded(ss: seq<Sched>, es: seq<Event>, g: int, k: int)
    requires Run(ss, es) && Fair(ss[0], g) && Kids(ss[0]) && g >= GAP && StartsInTime(ss, es, g) && 0 <= k < |ss|
    ensures Fair(ss[k], g) && Kids(ss[k])
  {
    if k > 0 {
      GapBounded(ss, es, g, k - 1);
      assert Step(ss[k - 1], es[k - 1], ss[k]);
      StepKeepsKids(ss[k - 1], es[k - 1], ss[k]);
      if es[k - 1].Start? {
        StartKeepsFairIff(ss[k - 1], es[k - 1].p, ss[k], g);
      } else {
        StepKeepsFair(ss[k - 1], es[k - 1], ss[k], g);
      }
    }
  }

  /** A child is in time when its slot has just been allocated, and stays so until the next
      dispatch. */
  lemma SeedInTime(s: Sched, p: int, s': Sched, g: int)
    requires Fair(s, g) && Step(s, Seed(p), s')
    ensures InTime(s', p, g)
  {
    var j :| 0 <= j < |s.live| && s.live[j] && s'.vr[p] == s.vr[j];
    assert Ahead(s) <= s.vr[j] + g;
  }

  lemma StepKeepsInTime(s: Sched, p: int, e: Event, s': Sched, g: int)
    requires Kids(s) && 0 <= p < |s.live| && !s.live[p] && s.born[p] != -1 && InTime(s, p, g) && Step(s, e, s')
    requires g >= 0
    requires !e.Dispatch? && (s.cur >= 0 ==> s.run[s.cur] < s.slice[s.cur]) && e != Start(p)
    ensures InTime(s', p, g) && s'.born[p] == s.born[p] && !s'.live[p]
  {
  }

  ghost predicate FairUpTo(ss: seq<Sched>, k: int, g: int) {
    0 <= k <= |ss| && forall j {:trigger FairAt(ss, j, g)} | 0 <= j < k :: FairAt(ss, j, g)
  }

  ghost predicate FairAt(ss: seq<Sched>, j: int, g: int)
    requires 0 <= j < |ss|
  {
    Fair(ss[j], g) && Kids(ss[j])
  }

  /** No dispatch comes between a child's allocation and its start. */
  ghost predicate PromptStarts(es: seq<Event>) {
    forall k {:trigger es[k]} | 0 <= k < |es| && es[k].Start? :: exists m :: SeededAt(es, m, k)
  }

  ghost predicate SeededAt(es: seq<Event>, m: int, k: int)
    requires 0 <= k < |es| && es[k].Start?
  {
    0 <= m < k && es[m] == Seed(es[k].p) && forall j | m < j < k :: !es[j].Dispatch? && es[j] != es[k]
  }

  lemma {:induction false} StaysInTime(ss: seq<Sched>, es: seq<Event>, p: int, m: int, k: int, g: int)
    requires Run(ss, es) && 0 <= m < k < |ss| && es[m] == Seed(p)
    requires (forall j | m < j < k :: !es[j].Dispatch? && es[j] != Start(p))
    requires FairUpTo(ss, k, g) && g >= 0
    ensures 0 <= p < |ss[k].live| && Shape(ss[k]) && InTime(ss[k], p, g) && ss[k].born[p] != -1 && !ss[k].live[p]
    decreases k
  {
    assert Step(ss[k - 1], es[k - 1], ss[k]) && FairAt(ss, k - 1, g);
    if k == m + 1 {
      SeedInTime(ss[m], p, ss[k], g);
    } else {
      StaysInTime(ss, es, p, m, k - 1, g);
      StepKeepsInTime(ss[k - 1], p, es[k - 1], ss[k], g);
    }
  }

  /** So if no fork is interrupted by a dispatch the gap stays within GAP for ever. */
  lemma {:induction false} PromptForksKeepGap(ss: seq<Sched>, es: seq<Event>, k: int)
    requires Run(ss, es) && Fair(ss[0], GAP) && Kids(ss[0]) && PromptStarts(es) && 0 <= k < |ss|
    ensures FairUpTo(ss, k + 1, GAP)
  {
    if k > 0 {
      PromptForksKeepGap(ss, es, k - 1);
      var e := es[k - 1];
      if e.Start? {
        var m :| SeededAt(es, m, k - 1);
        StaysInTime(ss, es, e.p, m, k - 1, GAP);
      }
      FairNext(ss, es, k, GAP);
    } else {
      assert FairAt(ss, 0, GAP);
    }
  }

  lemma FairNext(ss: seq<Sched>, es: seq<Event>, k: int, g: int)
    requires Run(ss, es) && 0 < k < |ss| && FairUpTo(ss, k, g) && g >= GAP
    requires es[k - 1].Start? ==> 0 <= es[k - 1].p < |ss[k - 1].live| && InTime(ss[k - 1], es[k - 1].p, g)
    ensures FairUpTo(ss, k + 1, g)
  {
    var e := es[k - 1];
    assert Step(ss[k - 1], e, ss[k]) && FairAt(ss, k - 1, g);
    StepKeepsKids(ss[k - 1], e, ss[k]);
    if e.Start? {
      StartKeepsFairIff(ss[k - 1], e.p, ss[k], g);
    } else {
      StepKeepsFair(ss[k - 1], e, ss[k], g);
    }
    assert FairAt(ss, k, g);
  }

  // ---------------------------------------------------------------- forks with few dispatches

  function Dispatches(es: seq<Event>, k: int): int
    requires 0 <= k <= |es|
  {
    if k == 0 then 0 else Dispatches(es, k - 1) + (if es[k - 1].Dispatch? then 1 else 0)
  }

  /** The child that starts at k was allocated at m, n dispatches before. */
  ghost predicate SeededWithin(es: seq<Event>, m: int, k: int, n: int)
    requires 0 <= k < |es| && es[k].Start?
  {
    && 0 <= m < k && es[m] == Seed(es[k].p) && Dispatches(es, k) - Dispatches(es, m) <= n
    && forall j | m < j < k :: es[j] != es[k]
  }

  /** At most n dispatches come between a child's allocation and its start. */
  ghost predicate ForksWithin(es: seq<Event>, n: int) {
    forall k {:trigger es[k]} | 0 <= k < |es| && es[k].Start? :: exists m :: SeededWithin(es, m, k, n)
  }

  /** ... and nobody exits meanwhile. */
  ghost predicate QuietForksWithin(es: seq<Event>, n: int) {
    forall k {:trigger es[k]} | 0 <= k < |es| && es[k].Start? ::
        exists m :: SeededWithin(es, m, k, n) && forall j | m < j < k :: !es[j].Exit?
  }

  /** What process j can reach before somebody else is dispatched. */
  function Reach(s: Sched, j: int): int
    requires Shape(s) && 0 <= j < |s.live|
  {
    if j == s.cur then Ahead(s) else s.vr[j]
  }

  /** Somebody is at most d + 1 slices ahead of p. */
  ghost predicate Near(s: Sched, p: int, d: int)
    requires Shape(s) && 0 <= p < |s.live|
  {
    exists j :: 0 <= j < |s.live| && s.live[j] && Reach(s, j) <= s.vr[p] + (d + 1) * GAP
  }

  lemma SeedNear(s: Sched, p: int, s': Sched, g: int)
    requires Fair(s, g) && Step(s, Seed(p), s')
    ensures Near(s', p, 0)
  {
    var j :| 0 <= j < |s.live| && s.live[j] && s'.vr[p] == s.vr[j];
    assert Reach(s', j) <= s'.vr[p] + (0 + 1) * GAP;
  }

  lemma StepKeepsNear(s: Sched, p: int, e: Event, s': Sched, g: int, d: int)
    requires Fair(s, g) && Step(s, e, s') && 0 <= p < |s.live| && !s.live[p] && s.born[p] != -1 && Near(s, p, d)
    requires !e.Dispatch? && !e.Exit?
    ensures Near(s', p, d)
  {
    var j :| 0 <= j < |s.live| && s.live[j] && Reach(s, j) <= s.vr[p] + (d + 1) * GAP;
    assert s'.live[j] && s'.vr[p] == s.vr[p];
    assert Reach(s', j) <= Reach(s, j);
  }

  /** A dispatch: the one that is near, or somebody behind it, gets a slice. */
  lemma DispatchKeepsNear(s: Sched, p: int, s': Sched, g: int, d: int)
    requires Shape(s) && Step(s, Dispatch, s') && 0 <= p < |s.live| && Near(s, p, d) && InTime(s, p, g)
    requires g >= (d + 2) * GAP
    ensures Near(s', p, d + 1) && InTime(s', p, g)
  {
    var j :| 0 <= j < |s.live| && s.live[j] && Reach(s, j) <= s.vr[p] + (d + 1) * GAP;
    var c := s'.cur;
    assert s.vr[c] <= s.vr[j] && s'.slice[c] <= 24 && s'.run[c] == 0;
    assert Reach(s', c) <= s'.vr[p] + (d + 1 + 1) * GAP;
  }

  /** p is allocated, not started, and in time for g after d dispatches. */
  ghost predicate Pending(s: Sched, p: int, g: int, d: int) {
    Shape(s) && 0 <= p < |s.live| && !s.live[p] && s.born[p] != -1 && InTime(s, p, g) && Near(s, p, d)
  }

  lemma PendingStep(s: Sched, p: int, e: Event, s': Sched, g: int, d: int, d': int)
    requires Fair(s, g) && Kids(s) && Pending(s, p, g, d) && Step(s, e, s') && !e.Exit? && e != Start(p)
    requires d' == d + (if e.Dispatch? then 1 else 0) && 0 <= d && g >= (d' + 1) * GAP
    ensures Pending(s', p, g, d')
  {
    if e.Dispatch? {
      DispatchKeepsNear(s, p, s', g, d);
    } else {
      StepKeepsInTime(s, p, e, s', g);
      StepKeepsNear(s, p, e, s', g, d);
    }
  }

  /** After d dispatches a child is still in time for d + 1 slices. */
  lemma {:induction false} StaysNear(ss: seq<Sched>, es: seq<Event>, p: int, m: int, k: int, g: int)
    requires Run(ss, es) && 0 <= m < k < |ss| && es[m] == Seed(p) && forall j | m < j < k :: es[j] != Start(p)
    requires forall j | m < j < k :: !es[j].Exit?
    requires FairUpTo(ss, k, g) && g >= (Dispatches(es, k) - Dispatches(es, m) + 1) * GAP
    ensures Dispatches(es, k) >= Dispatches(es, m)
    ensures Pending(ss[k], p, g, Dispatches(es, k) - Dispatches(es, m))
    decreases k
  {
    assert Step(ss[k - 1], es[k - 1], ss[k]) && FairAt(ss, k - 1, g);
    if k == m + 1 {
      SeedInTime(ss[m], p, ss[k], g);
      SeedNear(ss[m], p, ss[k], g);
    } else {
      StaysNear(ss, es, p, m, k - 1, g);
      PendingStep(ss[k - 1], p, es[k - 1], ss[k], g, Dispatches(es, k - 1) - Dispatches(es, m),
                  Dispatches(es, k) - Dispatches(es, m));
    }
  }

  /** So if at most n dispatches, and no exits, come between allocation and start the gap stays
      within n + 1 slices for ever. */
  lemma {:induction false} QuietForksKeepGap(ss: seq<Sched>, es: seq<Event>, n: nat, g: int, k: int)
    requires Run(ss, es) && g == (n + 1) * GAP && Fair(ss[0], g) && Kids(ss[0]) && QuietForksWithin(es, n)
    requires 0 <= k < |ss|
    ensures FairUpTo(ss, k + 1, g)
  {
    if k > 0 {
      QuietForksKeepGap(ss, es, n, g, k - 1);
      var e := es[k - 1];
      if e.Start? {
        var m :| SeededWithin(es, m, k - 1, n) && forall j | m < j < k - 1 :: !es[j].Exit?;
        StaysNear(ss, es, e.p, m, k - 1, g);
      }
      FairNext(ss, es, k, g);
    } else {
      assert FairAt(ss, 0, g);
    }
  }

  lemma {:induction false} DispatchesGrow(es: seq<Event>, i: int, k: int)
    requires 0 <= i <= k <= |es|
    ensures Dispatches(es, i) <= Dispatches(es, k)
    decreases k
  {
    if i < k {
      DispatchesGrow(es, i, k - 1);
    }
  }

  /** The child keeps its parent; until the next dispatch nobody else runs, ... */
  lemma {:induction false} ParentOrNobody(ss: seq<Sched>, es: seq<Event>, p: int, m: int, i: int)
    requires Run(ss, es) && 0 <= m < i < |ss| && es[m] == Seed(p) && forall j | m < j < i :: es[j] != Start(p)
    ensures Shape(ss[m]) && Shape(ss[i]) && 0 <= p < |ss[i].live| && ss[i].born[p] == ss[m].cur >= 0
    ensures Dispatches(es, i) == Dispatches(es, m) ==> ss[i].cur == ss[m].cur || ss[i].cur == -1
    decreases i
  {
    assert Step(ss[i - 1], es[i - 1], ss[i]);
    if i > m + 1 {
      ParentOrNobody(ss, es, p, m, i - 1);
      DispatchesGrow(es, m, i - 1);
    }
  }

  /** ... and whoever runs has run since the last dispatch, so nobody has exited. */
  lemma {:induction false} SameSince(ss: seq<Sched>, es: seq<Event>, i: int, k: int)
    requires Run(ss, es) && 0 <= i < k < |es| && ss[k].cur >= 0 && Dispatches(es, i) == Dispatches(es, k)
    ensures ss[i].cur == ss[k].cur && !es[i].Exit?
    decreases k - i
  {
    assert Step(ss[i], es[i], ss[i + 1]);
    DispatchesGrow(es, i + 1, k);
    if i + 1 < k {
      SameSince(ss, es, i + 1, k);
    }
  }

  /** Within one dispatch nobody can exit: the parent has to run again to start the child. */
  lemma OneDispatchNoExit(ss: seq<Sched>, es: seq<Event>, m: int, k: int, j: int)
    requires Run(ss, es) && 0 <= k < |es| && es[k].Start? && SeededWithin(es, m, k, 1) && m < j < k
    ensures !es[j].Exit?
  {
    var p := es[k].p;
    assert Step(ss[j], es[j], ss[j + 1]) && Step(ss[k], es[k], ss[k + 1]);
    ParentOrNobody(ss, es, p, m, j);
    DispatchesGrow(es, m, j);
    DispatchesGrow(es, j, k);
    if Dispatches(es, j) != Dispatches(es, m) {
      SameSince(ss, es, j, k);
    }
  }

  /** So a fork that takes at most one dispatch keeps the gap within two slices, whatever
      exits. */
  lemma OneDispatchKeepsGap(ss: seq<Sched>, es: seq<Event>, k: int)
    requires Run(ss, es) && Fair(ss[0], 2 * GAP) && Kids(ss[0]) && ForksWithin(es, 1) && 0 <= k < |ss|
    ensures FairUpTo(ss, k + 1, 2 * GAP)
  {
    forall i | 0 <= i < |es| && es[i].Start?
      ensures exists m :: SeededWithin(es, m, i, 1) && forall j | m < j < i :: !es[j].Exit?
    {
      var m :| SeededWithin(es, m, i, 1);
      forall j | m < j < i
        ensures !es[j].Exit?
      {
        OneDispatchNoExit(ss, es, m, i, j);
      }
    }
    QuietForksKeepGap(ss, es, 1, 2 * GAP, k);
  }

  function Ticks(es: seq<Event>, k: int): int
    requires 0 <= k <= |es|
  {
    if k == 0 then 0 else Ticks(es, k - 1) + (if es[k - 1].Tick? then 1 else 0)
  }

  /** Nothing arrives, exits or changes its nice value. */
  ghost predicate Steady(es: seq<Event>) { forall k | 0 <= k < |es| :: es[k].Dispatch? || es[k].Tick? }

  lemma {:induction false} GapBoundedSteady(ss: seq<Sched>, es: seq<Event>, k: int)
    requires Run(ss, es) && Fair(ss[0], GAP) && Steady(es) && 0 <= k < |ss|
    ensures Fair(ss[k], GAP)
  {
    if k > 0 {
      GapBoundedSteady(ss, es, k - 1);
      assert Step(ss[k - 1], es[k - 1], ss[k]);
      StepKeepsFair(ss[k - 1], es[k - 1], ss[k], GAP);
    }
  }

  // ---------------------------------------------------------------- bounded waiting

  /** How far the first k processes other than p may still run ahead of p. */
  function Room(live: seq<bool>, vr: seq<int>, p: int, k: int): int
    requires 0 <= k <= |live| == |vr| && 0 <= p < |live|
  {
    if k == 0 then 0 else Room(live, vr, p, k - 1) + (if live[k - 1] && k - 1 != p then vr[p] + GAP - vr[k - 1] else 0)
  }

  /** How many of the first k slots other than p are live. */
  function Others(live: seq<bool>, p: int, k: int): int
    requires 0 <= k <= |live|
  {
    if k == 0 then 0 else Others(live, p, k - 1) + (if live[k - 1] && k - 1 != p then 1 else 0)
  }

  lemma {:induction false} RoomBounds(s: Sched, p: int, k: int)
    requires Fair(s, GAP) && 0 <= p < |s.live| && s.live[p] && 0 <= k <= |s.live|
    ensures 0 <= Room(s.live, s.vr, p, k) <= 3264 * Others(s.live, p, k)
  {
    if k > 0 {
      RoomBounds(s, p, k - 1);
    }
  }

  lemma {:induction false} RoomTick(live: seq<bool>, vr: seq<int>, p: int, k: int, c: int, d: int)
    requires 0 <= k <= |live| == |vr| && 0 <= p < |live| && 0 <= c < |live| && live[c] && c != p
    ensures Room(live, vr[c := vr[c] + d], p, k) == Room(live, vr, p, k) - if c < k then d else 0
  {
    if k > 0 {
      RoomTick(live, vr, p, k - 1, c, d);
    }
  }

  ghost predicate NoneFast(s: Sched)
    requires Shape(s)
  {
    forall i | 0 <= i < |s.live| && s.live[i] :: s.weight[i] <= 1024
  }

  /** Every tick of somebody else uses up room. */
  lemma {:induction false} WaitingUsesRoom(ss: seq<Sched>, es: seq<Event>, p: int, k: int)
    requires Run(ss, es) && Steady(es) && Fair(ss[0], GAP) && NoneFast(ss[0]) && 0 <= k < |ss| && 0 <= p < |ss[0].live|
    requires ss[0].live[p]
    requires forall m | 0 <= m < k :: ss[m].cur != p
    ensures Shape(ss[k]) && ss[k].live == ss[0].live && ss[k].weight == ss[0].weight
    ensures Room(ss[0].live, ss[k].vr, p, |ss[0].live|) + Ticks(es, k) <= Room(ss[0].live, ss[0].vr, p, |ss[0].live|)
  {
    if k > 0 {
      WaitingUsesRoom(ss, es, p, k - 1);
      var s := ss[k - 1];
      assert Step(s, es[k - 1], ss[k]);
      if es[k - 1].Tick? {
        RoomTick(s.live, s.vr, p, |s.live|, s.cur, Inc(s.weight[s.cur]));
      }
    }
  }

  /** With nobody's nice value negative, a process that is present runs again before the
      others have had 3264 ticks each. */
  lemma BoundedWaiting(ss: seq<Sched>, es: seq<Event>, p: int)
    requires Run(ss, es) && Steady(es) && Fair(ss[0], GAP) && NoneFast(ss[0]) && 0 <= p < |ss[0].live| && ss[0].live[p]
    requires Ticks(es, |es|) > 3264 * Others(ss[0].live, p, |ss[0].live|)
    ensures exists k :: 0 <= k < |ss| && ss[k].cur == p
  {
    var n := |es|;
    if forall m | 0 <= m < n :: ss[m].cur != p {
      WaitingUsesRoom(ss, es, p, n);
      RoomBounds(ss[0], p, |ss[0].live|);
      GapBoundedSteady(ss, es, n);
      RoomBounds(ss[n], p, |ss[0].live|);
      assert false;
    }
  }

  // ---------------------------------------------------------------- shares of the CPU

  /** How many of the first k ticks went to process i. */
  function Ran(ss: seq<Sched>, es: seq<Event>, i: int, k: int): int
    requires |ss| == |es| + 1 && 0 <= k <= |es|
  {
    if k == 0 then 0 else Ran(ss, es, i, k - 1) + (if es[k - 1].Tick? && ss[k - 1].cur == i then 1 else 0)
  }

  lemma {:induction false} SteadyKeeps(ss: seq<Sched>, es: seq<Event>, k: int)
    requires Run(ss, es) && Steady(es) && Shape(ss[0]) && 0 <= k < |ss|
    ensures Shape(ss[k]) && ss[k].live == ss[0].live && ss[k].weight == ss[0].weight
  {
    if k > 0 {
      SteadyKeeps(ss, es, k - 1);
      assert Step(ss[k - 1], es[k - 1], ss[k]);
    }
  }

  lemma Distribute(r: int, d: int)
    ensures (r + 1) * d == r * d + d
  {
  }

  lemma StepRuntime(s: Sched, e: Event, s': Sched, i: int)
    requires Shape(s) && Step(s, e, s') && (e.Tick? || e.Dispatch?) && 0 <= i < |s.live|
    ensures s'.vr[i] == s.vr[i] + if e.Tick? && s.cur == i then Inc(s.weight[i]) else 0
  {
  }

  lemma {:induction false} VruntimeIsRuntime(ss: seq<Sched>, es: seq<Event>, i: int, k: int)
    requires Run(ss, es) && Steady(es) && Shape(ss[0]) && 0 <= k < |ss| && 0 <= i < |ss[0].live|
    ensures Shape(ss[k]) && ss[k].live == ss[0].live && ss[k].weight == ss[0].weight
    ensures ss[k].vr[i] == ss[0].vr[i] + Ran(ss, es, i, k) * Inc(ss[0].weight[i])
  {
    if k > 0 {
      VruntimeIsRuntime(ss, es, i, k - 1);
      SteadyKeeps(ss, es, k);
      StepRuntime(ss[k - 1], es[k - 1], ss[k], i);
      Distribute(Ran(ss, es, i, k - 1), Inc(ss[0].weight[i]));
    }
  }

  /** Two processes' weighted shares of the CPU over any stretch differ by at most 3264. */
  lemma SharesProportional(ss: seq<Sched>, es: seq<Event>, i: int, j: int)
    requires Run(ss, es) && Steady(es) && Fair(ss[0], GAP)
    requires 0 <= i < |ss[0].live| && 0 <= j < |ss[0].live| && ss[0].live[i] && ss[0].live[j]
    ensures Ran(ss, es, i, |es|) * Inc(ss[0].weight[i]) - Ran(ss, es, j, |es|) * Inc(ss[0].weight[j]) <= 3264
  {
    VruntimeIsRuntime(ss, es, i, |es|);
    VruntimeIsRuntime(ss, es, j, |es|);
    GapBoundedSteady(ss, es, |es|);
  }

  // ---------------------------------------------------------------- negative nice values

  /** r runs for free and is ahead of everybody. */
  ghost predicate Starves(s: Sched, r: int) {
    && Shape(s) && 0 <= r < |s.live| && s.live[r] && s.weight[r] > 1024 && (s.cur == -1 || s.cur == r)
    && (forall j | 0 <= j < |s.live| && s.live[j] && j != r :: s.vr[r] < s.vr[j])
  }

  /** From then on nobody else is ever dispatched. */
  lemma {:induction false} StarvesForever(ss: seq<Sched>, es: seq<Event>, r: int, k: int)
    requires Run(ss, es) && Steady(es) && Starves(ss[0], r) && 0 <= k < |ss|
    ensures Starves(ss[k], r)
  {
    if k > 0 {
      StarvesForever(ss, es, r, k - 1);
      assert Step(ss[k - 1], es[k - 1], ss[k]);
    }
  }

  lemma {:induction false} HasLeast(live: seq<bool>, vr: seq<int>, k: int) returns (m: int)
    requires 0 < k <= |live| == |vr| && exists i :: 0 <= i < k && live[i]
    ensures 0 <= m < k && live[m] && forall j | 0 <= j < k && live[j] :: vr[m] <= vr[j] && (j < m ==> vr[m] < vr[j])
  {
    if exists i :: 0 <= i < k - 1 && live[i] {
      m := HasLeast(live, vr, k - 1);
      if live[k - 1] && vr[k - 1] < vr[m] {
        m := k - 1;
      }
    } else {
      m := k - 1;
    }
  }

  lemma NextDispatch(s: Sched) returns (s': Sched)
    requires Shape(s) && s.cur == -1 && exists i :: 0 <= i < |s.live| && s.live[i]
    ensures Step(s, Dispatch, s')
  {
    var m := HasLeast(s.live, s.vr, |s.live|);
    var total := TotalWeight(s.live, s.weight, |s.live|);
    assert total >= s.weight[m];
    s' := s.(cur := m, run := s.run[m := 0],
             slice := seq(|s.live|, i requires 0 <= i < |s.live| => Slice(s.weight[i], total)));
  }

  /** There are runs with any number of ticks. */
  lemma {:induction false} LongRun(s: Sched, t: nat) returns (ss: seq<Sched>, es: seq<Event>)
    requires Shape(s) && exists i :: 0 <= i < |s.live| && s.live[i]
    ensures Run(ss, es) && Steady(es) && ss[0] == s && Ticks(es, |es|) == t
    decreases t
  {
    if t == 0 {
      ss, es := [s], [];
    } else {
      ss, es := LongRun(s, t - 1);
      SteadyKeeps(ss, es, |es|);
      ss, es := Running(ss, es);
      ss, es := OneMoreTick(ss, es);
    }
  }

  /** The run goes on until a process runs. */
  lemma Running(ss: seq<Sched>, es: seq<Event>) returns (ss': seq<Sched>, es': seq<Event>)
    requires Run(ss, es) && Steady(es) && Shape(ss[|es|]) && exists i :: 0 <= i < |ss[|es|].live| && ss[|es|].live[i]
    ensures Run(ss', es') && Steady(es') && ss'[0] == ss[0] && Shape(ss'[|es'|]) && ss'[|es'|].cur >= 0
    ensures Ticks(es', |es'|) == Ticks(es, |es|)
  {
    ss', es' := ss, es;
    if ss[|es|].cur == -1 {
      var s := NextDispatch(ss[|es|]);
      ss', es' := Extended(ss, es, s, Dispatch);
    }
  }

  lemma OneMoreTick(ss: seq<Sched>, es: seq<Event>) returns (ss': seq<Sched>, es': seq<Event>)
    requires Run(ss, es) && Steady(es) && Shape(ss[|es|]) && ss[|es|].cur >= 0
    ensures Run(ss', es') && Steady(es') && ss'[0] == ss[0] && Ticks(es', |es'|) == Ticks(es, |es|) + 1
  {
    var last := ss[|es|];
    var c := last.cur;
    var s := last.(vr := last.vr[c := last.vr[c] + Inc(last.weight[c])], run := last.run[c := last.run[c] + 1],
                   cur := if last.run[c] + 1 >= last.slice[c] then -1 else c);
    ss', es' := Extended(ss, es, s, Tick);
  }

  lemma Extended(ss: seq<Sched>, es: seq<Event>, s: Sched, e: Event) returns (ss': seq<Sched>, es': seq<Event>)
    requires Run(ss, es) && Steady(es) && Shape(ss[|es|]) && Step(ss[|es|], e, s) && (e.Tick? || e.Dispatch?)
    ensures ss' == ss + [s] && es' == es + [e] && Run(ss', es') && Steady(es')
    ensures Ticks(es', |es'|) == Ticks(es, |es|) + if e.Tick? then 1 else 0
  {
    ss', es' := Appended(ss, es, s, e);
    TicksPrefix(es, e, |es|);
  }

  lemma {:induction false} TicksPrefix(es: seq<Event>, e: Event, k: int)
    requires 0 <= k <= |es|
    ensures Ticks(es + [e], k) == Ticks(es, k)
  {
    if k > 0 {
      TicksPrefix(es, e, k - 1);
    }
  }

  /** Everybody present is served again within 3264 ticks of each other process. */
  ghost predicate Prompt(live: seq<bool>, weight: seq<int>) {
    forall ss: seq<Sched>, es: seq<Event>, p: int ::
      Run(ss, es) && Steady(es) && Fair(ss[0], GAP) && ss[0].live == live && ss[0].weight == weight && 0 <= p < |live|
          && live[p]
      && Ticks(es, |es|) > 3264 * Others(live, p, |live|)
      ==> exists k :: 0 <= k < |ss| && ss[k].cur == p
  }

  lemma SlowIsPrompt(live: seq<bool>, weight: seq<int>)
    requires |weight| == |live| && forall i | 0 <= i < |live| :: weight[i] >= 15
    requires forall i | 0 <= i < |live| && live[i] :: weight[i] <= 1024
    ensures Prompt(live, weight)
  {
    forall ss: seq<Sched>, es: seq<Event>, p: int | Run(ss, es) && Steady(es) && Fair(ss[0], GAP) && ss[0].live == live
        && ss[0].weight == weight && 0 <= p < |live| && live[p]
                       && Ticks(es, |es|) > 3264 * Others(live, p, |live|)
      ensures exists k :: 0 <= k < |ss| && ss[k].cur == p
    {
      BoundedWaiting(ss, es, p);
    }
  }

  lemma FastIsNotPrompt(live: seq<bool>, weight: seq<int>, r: int, p: int)
    requires |weight| == |live| && forall i | 0 <= i < |live| :: weight[i] >= 15
    requires 0 <= r < |live| && live[r] && weight[r] > 1024 && 0 <= p < |live| && live[p] && p != r
    ensures !Prompt(live, weight)
  {
    var s := HeadStart(live, weight, r);
    HeadStartFair(live, weight, r);
    var bound := 3264 * Others(live, p, |live|);
    assert s.live[r];
    var ss, es := LongRun(s, if bound < 0 then 0 else bound + 1);
    forall k | 0 <= k < |ss|
      ensures ss[k].cur != p
    {
      StarvesForever(ss, es, r, k);
    }
  }

  /** r is one tick ahead of everybody. */
  function HeadStart(live: seq<bool>, weight: seq<int>, r: int): Sched {
    var n := |live|;
    Sched(live, seq(n, _ => -1), weight, seq(n, i => if i == r then 0 else 1), seq(n, _ => 0), seq(n, _ => 0), -1)
  }

  lemma HeadStartFair(live: seq<bool>, weight: seq<int>, r: int)
    requires |weight| == |live| && (forall i | 0 <= i < |live| :: weight[i] >= 15) && 0 <= r < |live| && live[r]
    requires weight[r] > 1024
    ensures Fair(HeadStart(live, weight, r), GAP) && Starves(HeadStart(live, weight, r), r)
  {
  }

  /** Among two or more processes waiting is bounded exactly if no nice value is negative. */
  lemma PromptIff(live: seq<bool>, weight: seq<int>)
    requires |weight| == |live| && forall i | 0 <= i < |live| :: weight[i] >= 15
    requires exists i, j :: 0 <= i < j < |live| && live[i] && live[j]
    ensures Prompt(live, weight) <==> forall i | 0 <= i < |live| && live[i] :: weight[i] <= 1024
  {
    if forall i | 0 <= i < |live| && live[i] :: weight[i] <= 1024 {
      SlowIsPrompt(live, weight);
    } else {
      var r :| 0 <= r < |live| && live[r] && weight[r] > 1024;
      var i, j :| 0 <= i < j < |live| && live[i] && live[j];
      FastIsNotPrompt(live, weight, r, if i == r then j else i);
    }
  }

  // ---------------------------------------------------------------- forks that are interrupted

  /** While process 0 is alone every tick is its own, and the child in slot 1 waits. */
  lemma {:induction false} AloneRuns(ss: seq<Sched>, es: seq<Event>, k: int)
    requires Run(ss, es) && Steady(es) && Shape(ss[0]) && ss[0].live == [true, false] && ss[0].weight[0] == 1024
    requires 0 <= k < |ss|
    ensures Shape(ss[k]) && ss[k].live == ss[0].live && ss[k].born == ss[0].born && ss[k].weight == ss[0].weight
    ensures ss[k].vr[0] == ss[0].vr[0] + Ticks(es, k) && ss[k].vr[1] == ss[0].vr[1]
  {
    if k > 0 {
      AloneRuns(ss, es, k - 1);
      assert Step(ss[k - 1], es[k - 1], ss[k]);
    }
  }

  /** Process 0 has just allocated its child in slot 1: all is fair. */
  function JustForked(): Sched {
    Sched([true, false], [-1, 0], [1024, 1024], [0, 0], [24, 0], [0, 0], 0)
  }

  /** No bound holds if forks may be interrupted: the parent can run for any number of ticks
      before it makes the child runnable, which then is that far behind. */
  lemma InterruptedForkUnbounded(n: nat) returns (ss: seq<Sched>, es: seq<Event>)
    ensures Run(ss, es) && ss[0] == JustForked() && Fair(ss[0], GAP) && Kids(ss[0]) && InTime(ss[0], 1, GAP)
    ensures Shape(ss[|es|]) && ss[|es|].live == [true, true] && ss[|es|].vr[0] == ss[|es|].vr[1] + n
  {
    JustForkedFair();
    ss, es := AloneFor(n);
    var last := ss[|es|];
    var s' := last.(live := last.live[1 := true], born := last.born[1 := -1]);
    ss, es := Appended(ss, es, s', Start(1));
  }

  lemma JustForkedFair()
    ensures Fair(JustForked(), GAP) && Kids(JustForked()) && InTime(JustForked(), 1, GAP)
  {
  }

  /** n ticks of process 0 alone, and it is running again. */
  lemma AloneFor(n: nat) returns (ss: seq<Sched>, es: seq<Event>)
    ensures Run(ss, es) && ss[0] == JustForked() && Shape(ss[|es|]) && ss[|es|].cur == 0
    ensures ss[|es|].live == [true, false] && ss[|es|].born == [-1, 0] && ss[|es|].vr[0] == n && ss[|es|].vr[1] == 0
  {
    JustForkedFair();
    assert JustForked().live[0];
    ss, es := LongRun(JustForked(), n);
    AloneRuns(ss, es, |es|);
    assert ss[|es|].live[0];
    ss, es := Running(ss, es);
    AloneRuns(ss, es, |es|);
  }

  lemma Appended(ss: seq<Sched>, es: seq<Event>, s: Sched, e: Event) returns (ss': seq<Sched>, es': seq<Event>)
    requires Run(ss, es) && Shape(ss[|es|]) && Step(ss[|es|], e, s)
    ensures ss' == ss + [s] && es' == es + [e] && Run(ss', es')
  {
    ss', es' := ss + [s], es + [e];
    forall k | 0 <= k < |es'|
      ensures Shape(ss'[k]) && Step(ss'[k], es'[k], ss'[k + 1])
    {
      if k < |es| {
        assert es'[k] == es[k] && Shape(ss[k]);
      }
    }
  }

  // ---------------------------------------------------------------- forks and exits

  /** The event since m, where child b was allocated: d dispatches, and b has not started. */
  ghost predicate Since(es: seq<Event>, m: int, b: int, d: int) {
    && 0 <= m < |es| && es[m] == Seed(b) && Dispatches(es, |es|) - Dispatches(es, m) == d
    && forall j | m < j < |es| :: es[j] != Start(b)
  }

  lemma {:induction false} DispatchesPrefix(es: seq<Event>, e: Event, k: int)
    requires 0 <= k <= |es|
    ensures Dispatches(es + [e], k) == Dispatches(es, k)
  {
    if k > 0 {
      DispatchesPrefix(es, e, k - 1);
    }
  }

  lemma SinceNext(es: seq<Event>, m: int, b: int, d: int, e: Event)
    requires Since(es, m, b, d) && e != Start(b)
    ensures Since(es + [e], m, b, d + if e.Dispatch? then 1 else 0)
  {
    DispatchesPrefix(es, e, m);
    DispatchesPrefix(es, e, |es|);
  }

  lemma WithinNext(es: seq<Event>, e: Event, n: int)
    requires ForksWithin(es, n) && (e.Start? ==> exists m, d :: Since(es, m, e.p, d) && d <= n)
    ensures ForksWithin(es + [e], n)
  {
    var es' := es + [e];
    forall k | 0 <= k < |es'| && es'[k].Start?
      ensures exists m :: SeededWithin(es', m, k, n)
    {
      DispatchesPrefix(es, e, k);
      if k < |es| {
        assert es'[k] == es[k];
        var m :| SeededWithin(es, m, k, n);
        DispatchesPrefix(es, e, m);
        assert SeededWithin(es', m, k, n);
      } else {
        var m, d :| Since(es, m, e.p, d) && d <= n;
        DispatchesPrefix(es, e, m);
        assert SeededWithin(es', m, k, n);
      }
    }
  }

  /** A run whose forks take at most two dispatches; child b was allocated d dispatches ago. */
  ghost predicate Going(ss: seq<Sched>, es: seq<Event>, s: Sched, m: int, b: int, d: int) {
    Forking(ss, es, s) && Since(es, m, b, d)
  }

  ghost predicate Forking(ss: seq<Sched>, es: seq<Event>, s: Sched) {
    Run(ss, es) && ss[0] == TwoProcs() && ss[|es|] == s && Shape(s) && ForksWithin(es, 2)
  }

  lemma Go(ss: seq<Sched>, es: seq<Event>, s: Sched, m: int, b: int, d: int, e: Event, s': Sched)
    returns (ss': seq<Sched>, es': seq<Event>)
    requires Going(ss, es, s, m, b, d) && Step(s, e, s') && !e.Start?
    ensures Going(ss', es', s', m, b, d + if e.Dispatch? then 1 else 0)
  {
    ss', es' := Appended(ss, es, s', e);
    SinceNext(es, m, b, d, e);
    WithinNext(es, e, 2);
  }

  /** Process 0 runs at vruntime x; process a, 1 or 2, is still at 0. */
  ghost predicate InRound(s: Sched, x: int, a: int) {
    && s.live == [true, a == 1, a == 2] && s.born == [-1, -1, -1] && s.vr == [x, 0, 0] && Forkers(s, 0)
    && s.run[0] == 0 && s.slice[0] == 24
  }

  ghost predicate Forkers(s: Sched, cur: int) {
    Shape(s) && |s.live| == 3 && s.weight == [1024, 1024, 1024] && s.cur == cur
  }

  function TwoProcs(): Sched {
    Sched([true, true, false], [-1, -1, -1], [1024, 1024, 1024], [0, 0, 0], [24, 24, 24], [0, 0, 0], 0)
  }

  /** Process 0 allocates child b. */
  lemma RoundSeed(ss: seq<Sched>, es: seq<Event>, s: Sched, x: nat, a: int, b: int)
    returns (ss': seq<Sched>, es': seq<Event>, s': Sched)
    requires Forking(ss, es, s) && InRound(s, x, a) && (a == 1 || a == 2) && b == 3 - a
    ensures Going(ss', es', s', |es|, b, 0) && Forkers(s', 0) && s'.live == s.live && s'.vr == s.vr
    ensures s'.born == [-1, -1, -1][b := 0] && s'.run[0] == 0 && s'.slice[0] == 24
  {
    s' := s.(born := s.born[b := 0], weight := s.weight[b := Weight(0)], vr := s.vr[b := 0], slice := s.slice[b := 0],
             run := s.run[b := 0]);
    assert s.live[a] && s.vr[a] == 0;
    assert s'.weight == s.weight && s'.vr == s.vr;
    ss', es' := Appended(ss, es, s', Seed(b));
    WithinNext(es, Seed(b), 2);
    DispatchesPrefix(es, Seed(b), |es|);
  }

  /** It uses up its slice. */
  lemma {:induction false} RoundTicks(ss: seq<Sched>, es: seq<Event>, s: Sched, m: int, b: int, n: nat)
    returns (ss': seq<Sched>, es': seq<Event>, s': Sched)
    requires Going(ss, es, s, m, b, 0) && Forkers(s, 0) && s.slice[0] == 24 && s.run[0] == 24 - n && 0 < n <= 24
    ensures Going(ss', es', s', m, b, 0) && Forkers(s', -1) && s'.live == s.live && s'.born == s.born
    ensures s'.vr == s.vr[0 := s.vr[0] + n]
    decreases n
  {
    s' := s.(vr := s.vr[0 := s.vr[0] + 1], run := s.run[0 := s.run[0] + 1], cur := if n == 1 then -1 else 0);
    ss', es' := Go(ss, es, s, m, b, 0, Tick, s');
    if n > 1 {
      ss', es', s' := RoundTicks(ss', es', s', m, b, n - 1);
    }
  }

  /** Process a is dispatched ... */
  lemma RoundDispatch(ss: seq<Sched>, es: seq<Event>, s: Sched, m: int, a: int, b: int)
    returns (ss': seq<Sched>, es': seq<Event>, s': Sched)
    requires Going(ss, es, s, m, b, 0) && Forkers(s, -1) && (a == 1 || a == 2) && b == 3 - a
    requires s.live == [true, a == 1, a == 2] && s.vr[0] > 0 && s.vr[a] == 0 && s.born == [-1, -1, -1][b := 0]
    ensures Going(ss', es', s', m, b, 1) && Forkers(s', a) && s'.live == s.live && s'.vr == s.vr && s'.born == s.born
  {
    assert s.live[a];
    s' := NextDispatch(s);
    assert s'.cur == a;
    ss', es' := Go(ss, es, s, m, b, 0, Dispatch, s');
  }

  /** ... and exits. */
  lemma RoundExit(ss: seq<Sched>, es: seq<Event>, s: Sched, m: int, a: int, b: int)
    returns (ss': seq<Sched>, es': seq<Event>, s': Sched)
    requires Going(ss, es, s, m, b, 1) && Forkers(s, a) && (a == 1 || a == 2) && b == 3 - a
    requires s.live == [true, a == 1, a == 2] && s.born == [-1, -1, -1][b := 0]
    ensures Going(ss', es', s', m, b, 1) && Forkers(s', -1) && s'.live == [true, false, false]
    ensures s'.vr == s.vr && s'.born == s.born
  {
    s' := s.(live := s.live[a := false], cur := -1);
    ss', es' := Go(ss, es, s, m, b, 1, Exit, s');
  }

  /** Process 0 is dispatched again ... */
  lemma RoundReturn(ss: seq<Sched>, es: seq<Event>, s: Sched, m: int, b: int)
    returns (ss': seq<Sched>, es': seq<Event>, s': Sched)
    requires Going(ss, es, s, m, b, 1) && Forkers(s, -1) && s.live == [true, false, false]
    ensures Going(ss', es', s', m, b, 2) && Forkers(s', 0) && s'.live == s.live && s'.vr == s.vr && s'.born == s.born
    ensures s'.run[0] == 0 && s'.slice[0] == 24
  {
    assert s.live[0];
    s' := NextDispatch(s);
    assert s'.cur == 0;
    AloneTotal(s);
    ss', es' := Go(ss, es, s, m, b, 1, Dispatch, s');
  }

  /** ... and starts the child. */
  lemma RoundStart(ss: seq<Sched>, es: seq<Event>, s: Sched, m: int, b: int)
    returns (ss': seq<Sched>, es': seq<Event>, s': Sched)
    requires Going(ss, es, s, m, b, 2) && Forkers(s, 0) && (b == 1 || b == 2) && s.live == [true, false, false]
    requires s.born == [-1, -1, -1][b := 0] && s.vr[1] == 0 && s.vr[2] == 0 && s.run[0] == 0 && s.slice[0] == 24
    ensures Forking(ss', es', s') && InRound(s', s.vr[0], b)
  {
    s' := s.(live := s.live[b := true], born := s.born[b := -1]);
    WithinNext(es, Start(b), 2);
    ss', es' := Appended(ss, es, s', Start(b));
  }

  lemma AloneTotal(s: Sched)
    requires Forkers(s, -1) && s.live == [true, false, false]
    ensures TotalWeight(s.live, s.weight, 3) == 1024
  {
    assert TotalWeight(s.live, s.weight, 1) == 1024;
    assert TotalWeight(s.live, s.weight, 2) == 1024;
  }

  lemma Round(ss: seq<Sched>, es: seq<Event>, s: Sched, x: nat, a: int)
    returns (ss': seq<Sched>, es': seq<Event>, s': Sched)
    requires Forking(ss, es, s) && InRound(s, x, a) && (a == 1 || a == 2)
    ensures Forking(ss', es', s') && InRound(s', x + 24, 3 - a)
  {
    var m, b := |es|, 3 - a;
    ss', es', s' := RoundSeed(ss, es, s, x, a, b);
    ss', es', s' := RoundTicks(ss', es', s', m, b, 24);
    ss', es', s' := RoundDispatch(ss', es', s', m, a, b);
    ss', es', s' := RoundExit(ss', es', s', m, a, b);
    ss', es', s' := RoundReturn(ss', es', s', m, b);
    ss', es', s' := RoundStart(ss', es', s', m, b);
  }

  lemma {:induction false} Rounds(n: nat)
    returns (ss: seq<Sched>, es: seq<Event>, s: Sched, x: nat, a: int)
    ensures Forking(ss, es, s) && InRound(s, x, a) && (a == 1 || a == 2) && x >= n
  {
    if n == 0 {
      s, x, a := TwoProcs(), 0, 1;
      ss, es := [s], [];
    } else {
      ss, es, s, x, a := Rounds(n - 1);
      ss, es, s := Round(ss, es, s, x, a);
      x, a := x + 24, 3 - a;
    }
  }

  /** With two dispatches and exits there is no bound: a parent whose children run and exit
      between its slices gets ahead of the newest one for ever. */
  lemma ForksAndExitsUnbounded(n: nat) returns (ss: seq<Sched>, es: seq<Event>, a: int)
    ensures Run(ss, es) && Fair(ss[0], GAP) && Kids(ss[0]) && ForksWithin(es, 2)
    ensures Shape(ss[|es|]) && 0 < a < |ss[|es|].live| && ss[|es|].live[0] && ss[|es|].live[a]
    ensures ss[|es|].vr[0] >= ss[|es|].vr[a] + n
  {
    var s, x;
    ss, es, s, x, a := Rounds(n);
  }
}
