/** Swap slots and FIFO page records of kernel/lazy.c. The bitmap is declared as 32 ints
    but used as 16 words of 64 bits: every operand is sign-extended to 64 bits and every
    result truncated to 32. */
module Swap {

  const MAX_SWAP_SLOTS: int := 1024

  /** Bit j of word i after sign extension; bits holds 32 bits to the word. */
  predicate WideBit(bits: seq<bool>, i: int, j: int)
    requires |bits| == 1024 && 0 <= i < 16 && 0 <= j < 64
  {
    if j < 32 then bits[32 * i + j] else bits[32 * i + 31]
  }

  /** The word with bit j set or cleared, truncated. */
  function PutBit(bits: seq<bool>, i: int, j: int, v: bool): seq<bool>
    requires |bits| == 1024 && 0 <= i < 16 && 0 <= j < 64
  {
    if j < 32 then bits[32 * i + j := v] else bits
  }

  /** The slots that can ever be handed out. */
  predicate Usable(s: int) { 0 <= s < 1024 && s % 64 < 32 }

  function BitOf(s: int): int { 32 * (s / 64) + s % 64 }

  ghost predicate MapOk(bits: seq<bool>, live: set<int>) {
    && |bits| == 1024
    && (forall s | s in live :: Usable(s))
    && (forall s {:trigger Usable(s)} | Usable(s) :: 0 <= BitOf(s) < 1024 && (bits[BitOf(s)] <==> s in live))
  }

  lemma BitOfInjective(s: int, t: int)
    requires Usable(s) && Usable(t) && BitOf(s) == BitOf(t)
    ensures s == t
  {
  }

  lemma SlotParts(i: int, j: int, s: int)
    requires 0 <= i < 16 && 0 <= j < 64 && s == i * 64 + j
    ensures s / 64 == i && s % 64 == j && (j < 32 ==> Usable(s) && BitOf(s) == 32 * i + j)
  {
  }

  lemma PutOk(bits: seq<bool>, live: set<int>, s: int, v: bool, bits': seq<bool>, live': set<int>)
    requires MapOk(bits, live) && Usable(s) && bits' == bits[BitOf(s) := v]
    requires live' == if v then live + {s} else live - {s}
    ensures MapOk(bits', live')
  {
    forall t | Usable(t)
      ensures 0 <= BitOf(t) < 1024 && (bits'[BitOf(t)] <==> t in live')
    {
      if t != s && BitOf(t) == BitOf(s) {
        BitOfInjective(t, s);
      }
    }
  }

  /** The test of the allocation loop: a clear bit means a usable slot that is not live, if
      the slots before it are all live. */
  lemma TestOk(bits: seq<bool>, live: set<int>, i: int, j: int, s: int)
    requires MapOk(bits, live) && 0 <= i < 16 && 0 <= j < 64 && s == i * 64 + j
    requires forall t {:trigger Usable(t)} | Usable(t) && t < s :: t in live
    ensures s < 1024 && (j < 32 ==> Usable(s) && BitOf(s) == 32 * i + j && (WideBit(bits, i, j) <==> s in live))
    ensures j >= 32 ==> !Usable(s) && WideBit(bits, i, j)
  {
    SlotParts(i, j, s);
    if j >= 32 {
      SlotParts(i, 31, i * 64 + 31);
    }
  }

  /** There are 512 usable slots. */
  function FirstSlots(n: int): set<int>
    requires 0 <= n <= 512
  {
    if n == 0 then {} else FirstSlots(n - 1) + {64 * ((n - 1) / 32) + (n - 1) % 32}
  }

  lemma NextSlot(n: int, t: int)
    requires 0 <= n < 512 && t == 64 * (n / 32) + n % 32
    ensures Usable(t) && BitOf(t) == n
  {
    SlotParts(n / 32, n % 32, t);
  }

  lemma {:induction false} FirstSlotsAre(n: int)
    requires 0 <= n <= 512
    ensures |FirstSlots(n)| == n
    ensures forall s :: s in FirstSlots(n) <==> Usable(s) && BitOf(s) < n
  {
    if n > 0 {
      FirstSlotsAre(n - 1);
      var t := 64 * ((n - 1) / 32) + (n - 1) % 32;
      NextSlot(n - 1, t);
      forall s
        ensures s in FirstSlots(n) <==> Usable(s) && BitOf(s) < n
      {
        if Usable(s) && BitOf(s) == n - 1 {
          BitOfInjective(s, t);
        }
      }
    }
  }

  lemma SubsetFull(a: set<int>, b: set<int>)
    requires a <= b && |a| == |b|
    ensures a == b
  {
    assert b == a + (b - a);
  }

  lemma UsableBit(s: int)
    requires Usable(s)
    ensures BitOf(s) < 512
  {
  }

  lemma UsableSlots(n: int) returns (all: set<int>)
    requires n == 512
    ensures |all| == 512 && forall s :: s in all <==> Usable(s)
  {
    all := FirstSlots(n);
    FirstSlotsAre(n);
    forall s | Usable(s)
      ensures s in all
    {
      UsableBit(s);
    }
  }

  /** All usable slots are live exactly if 512 slots are. */
  lemma FullIff(live: set<int>)
    requires forall s | s in live :: Usable(s)
    ensures |live| <= 512 && ((forall s | Usable(s) :: s in live) <==> |live| == 512)
  {
    var all := UsableSlots(512);
    forall s | s in live
      ensures s in all
    {
      assert Usable(s);
    }
    assert all == live + (all - live);
    if |live| == 512 {
      SubsetFull(live, all);
    }
    if forall s | Usable(s) :: s in live {
      forall s | s in all
        ensures s in live
      {
        assert Usable(s);
      }
    }
  }

  // ---------------------------------------------------------------- page records

  datatype State = Unmapped | Resident | Swapped

  /** arrivals is the history of entries becoming resident: an entry's sequence number is
      the position of its latest arrival. */
  ghost predicate HistoryOk(st: seq<State>, order: seq<int>, arrivals: seq<int>) {
    && |st| == |order|
    && (forall i | 0 <= i < |st| && st[i] == Resident ::
          0 <= order[i] < |arrivals| && LatestArrival(arrivals, i, order[i]))
  }

  ghost predicate LatestArrival(arrivals: seq<int>, i: int, k: int) {
    0 <= k < |arrivals| && arrivals[k] == i && forall m | k < m < |arrivals| :: arrivals[m] != i
  }

  /** Swapped entries hold live slots, no two the same; swapped counts the live slots. */
  ghost predicate SlotsOk(st: seq<State>, slot: seq<int>, live: set<int>, swapped: int) {
    && |slot| == |st| && |live| == swapped
    && (forall i | 0 <= i < |st| && st[i] == Swapped :: slot[i] in live)
    && (forall i, j | 0 <= i < j < |st| && st[i] == Swapped && st[j] == Swapped :: slot[i] != slot[j])
  }

  class Pager {
    var bits: seq<bool>             // swap_slot_bitmap
    var swapped: int                // num_swapped_pages
    var st: seq<State>
    var va: seq<int>
    var dirty: seq<bool>
    var order: seq<int>             // pages[i].seq
    var slot: seq<int>
    var next: int                   // next_fifo_seq
    var textStart: int
    var textEnd: int
    ghost var live: set<int>        // slots handed out and not freed
    ghost var arrivals: seq<int>

    ghost predicate Valid()
      reads this
    {
      && |st| == |va| == |dirty| == 512 && next == |arrivals| <= 0x7fff_ffff
      && MapOk(bits, live) && HistoryOk(st, order, arrivals) && SlotsOk(st, slot, live, swapped)
    }

    /** lazy_init */
    constructor ()
      ensures Valid() && live == {} && arrivals == [] && forall i | 0 <= i < 512 :: st[i] == Unmapped
    {
      bits, swapped, next, textStart, textEnd := seq(1024, _ => false), 0, 0, 0, 0;
      st, va, dirty := seq(512, _ => Unmapped), seq(512, _ => 0), seq(512, _ => false);
      order, slot := seq(512, _ => 0), seq(512, _ => -1);
      live, arrivals := {}, [];
    }

    method AllocSwapSlot() returns (s: int)
      requires MapOk(bits, live)
      modifies this`bits, this`live
      ensures MapOk(bits, live)
      ensures s == -1 <==> swapped >= 1024 || |old(live)| == 512
      ensures s == -1 ==> bits == old(bits) && live == old(live)
      ensures s != -1 ==> Usable(s) && s !in old(live) && live == old(live) + {s}
    {
      FullIff(live);
      if swapped >= MAX_SWAP_SLOTS {
        return -1;
      }
      var i := 0;
      while i < 16
        invariant 0 <= i <= 16 && bits == old(bits) && live == old(live)
        invariant forall t {:trigger Usable(t)} | Usable(t) && t < 64 * i :: t in live
      {
        var j := 0;
        while j < 64
          invariant 0 <= j <= 64 && bits == old(bits) && live == old(live)
          invariant forall t {:trigger Usable(t)} | Usable(t) && t < 64 * i + j :: t in live
        {
          s := i * 64 + j;
          TestOk(bits, live, i, j, s);
          if s >= MAX_SWAP_SLOTS {
            break;
          }
          if !WideBit(bits, i, j) {
            ghost var bits0, live0 := bits, live;
            bits := PutBit(bits, i, j, true);
            live := live + {s};
            PutOk(bits0, live0, s, true, bits, live);
            return;
          }
          j := j + 1;
        }
        i := i + 1;
      }
      s := -1;
    }

    method FreeSwapSlot(s: int)
      requires MapOk(bits, live)
      modifies this`bits, this`live
      ensures MapOk(bits, live) && live == old(live) - {s}
    {
      if s < 0 || s >= MAX_SWAP_SLOTS {
        return;
      }
      var i, j := s / 64, s % 64;
      ghost var bits0, live0 := bits, live;
      bits := PutBit(bits, i, j, false);
      live := live - {s};
      if j < 32 {
        PutOk(bits0, live0, s, false, bits, live);
      }
    }

    /** The record of a page that has just been allocated or loaded at entry i. */
    method BecomeResident(i: int, a: int, write: bool)
      requires Valid() && 0 <= i < 512 && st[i] != Swapped && next < 0x7fff_ffff
      modifies this`va, this`st, this`dirty, this`order, this`slot, this`next, this`arrivals
      ensures Valid() && st == old(st)[i := Resident] && va == old(va)[i := a] && arrivals == old(arrivals) + [i]
      ensures order[i] == old(next)
      ensures forall j | 0 <= j < 512 && j != i :: order[j] == old(order)[j] && slot[j] == old(slot)[j]
    {
      va, st, dirty := va[i := a], st[i := Resident], dirty[i := write];
      order, next := order[i := next], next + 1;
      slot := slot[i := -1];
      arrivals := arrivals + [i];
      Arrived(old(st), old(order), old(arrivals), i, st, order, arrivals);
    }

    /** The record of a page that has just been read back from its slot. */
    method SwapIn(i: int)
      requires Valid() && 0 <= i < 512 && st[i] == Swapped && next < 0x7fff_ffff
      modifies this`st, this`order, this`slot, this`next, this`bits, this`live, this`swapped, this`arrivals
      ensures Valid() && st == old(st)[i := Resident] && arrivals == old(arrivals) + [i] && order[i] == old(next)
      ensures live == old(live) - {old(slot)[i]} && swapped == old(swapped) - 1
    {
      st, order, next := st[i := Resident], order[i := next], next + 1;
      var s := slot[i];
      slot := slot[i := -1];
      arrivals := arrivals + [i];
      Arrived(old(st), old(order), old(arrivals), i, st, order, arrivals);
      if s >= 0 {
        FreeSwapSlot(s);
        swapped := swapped - 1;
      }
    }

    /** What kexec does to the record of a page of the new program; a slot that the entry
        held stays live. */
    method ExecPage(i: int, a: int)
      requires Valid() && 0 <= i < 512
      modifies this`va, this`st
      ensures Valid() && st == old(st)[i := Unmapped] && va == old(va)[i := a]
    {
      va, st := va[i := a], st[i := Unmapped];
    }

    /** What kexec does to the record of the first stack page. */
    method ExecStack(i: int)
      requires Valid() && 0 <= i < 512 && next < 0x7fff_ffff
      modifies this`st, this`dirty, this`order, this`next, this`arrivals
      ensures Valid() && st == old(st)[i := Resident] && arrivals == old(arrivals) + [i] && order[i] == old(next)
    {
      st, order, next := st[i := Resident], order[i := next], next + 1;
      dirty := dirty[i := false];
      arrivals := arrivals + [i];
      Arrived(old(st), old(order), old(arrivals), i, st, order, arrivals);
    }

    /** The search in lazy_evict_page. */
    method ChooseVictim() returns (v: int)
      requires Valid()
      ensures v == -1 <==> forall i | 0 <= i < 512 :: st[i] != Resident
      ensures v != -1 ==> 0 <= v < 512 && st[v] == Resident
      ensures v != -1 ==> forall j | 0 <= j < 512 && st[j] == Resident && j != v :: order[v] < order[j]
    {
      v := -1;
      var min := 0xffff_ffff;
      for i := 0 to 512
        invariant -1 <= v < i && (v == -1 ==> min == 0xffff_ffff && forall j | 0 <= j < i :: st[j] != Resident)
        invariant v != -1 ==> st[v] == Resident && min == order[v]
        invariant v != -1 ==> forall j | 0 <= j < i && st[j] == Resident && j != v :: order[v] < order[j]
      {
        if st[i] == Resident && order[i] < min {
          v, min := i, order[i];
        } else if st[i] == Resident {
          assert LatestArrival(arrivals, i, order[i]) && LatestArrival(arrivals, v, order[v]);
        }
      }
    }

    /** The page is dirty or not text. */
    ghost predicate NeedsSlot(v: int)
      requires 0 <= v < |dirty| && 0 <= v < |va|
      reads this
    {
      dirty[v] || !(textStart <= va[v] < textEnd)
    }

    /** lazy_evict_page's records: the victim gets a slot, or is dropped if it is clean text. */
    method Evict() returns (evicted: bool, v: int)
      requires Valid()
      modifies this`st, this`slot, this`bits, this`live, this`swapped
      ensures Valid()
      ensures !evicted ==> st == old(st) && slot == old(slot) && live == old(live) && swapped == old(swapped)
      ensures -1 <= v < 512 && (v == -1 <==> forall i | 0 <= i < 512 :: old(st)[i] != Resident)
      ensures evicted <==> v != -1 && (NeedsSlot(v) ==> |old(live)| < 512)
      ensures v != -1 ==> old(st)[v] == Resident
                          && forall j | 0 <= j < 512 && old(st)[j] == Resident && j != v :: order[v] < order[j]
      ensures evicted && NeedsSlot(v) ==>
                st == old(st)[v := Swapped] && slot == old(slot)[v := slot[v]] && slot[v] !in old(live)
                    && live == old(live) + {slot[v]} && swapped == old(swapped) + 1
      ensures evicted && !NeedsSlot(v) ==>
                st == old(st)[v := Unmapped] && slot == old(slot)[v := -1] && live == old(live)
                    && swapped == old(swapped)
    {
      v := ChooseVictim();
      if v == -1 {
        return false, v;
      }
      if dirty[v] || !(textStart <= va[v] < textEnd) {
        FullIff(live);
        var s := AllocSwapSlot();
        if s < 0 {
          return false, v;
        }
        st, slot, swapped := st[v := Swapped], slot[v := s], swapped + 1;
      } else {
        st, slot := st[v := Unmapped], slot[v := -1];
      }
      evicted := true;
    }
  }

  lemma Arrived(st: seq<State>, order: seq<int>, arrivals: seq<int>, i: int, st': seq<State>, order': seq<int>,
                arrivals': seq<int>)
    requires HistoryOk(st, order, arrivals) && 0 <= i < |st| && st' == st[i := Resident]
    requires order' == order[i := |arrivals|] && arrivals' == arrivals + [i]
    ensures HistoryOk(st', order', arrivals')
  {
    forall j | 0 <= j < |st'| && st'[j] == Resident
      ensures LatestArrival(arrivals', j, order'[j])
    {
      if j != i {
        assert LatestArrival(arrivals, j, order[j]);
      }
    }
  }
}
