/** The frame pool of kernel/kalloc.c and the user page tables of kernel/vm.c. Memory is a
    sequence of frames; the pool owns the frames from `first` on. The ghost field `use`
    says what each frame is for, and the ghost arguments `p` and `tbl` identify the page
    table a method works on and the frames of its tables. */
module VirtualMemory {
  import opened PageTable
  import opened FrameCount

  const MAXVA: int := 0x40_0000_0000
  const TRAPFRAME: int := USERPAGES * 4096
  const PTE_R: int := 2
  const PTE_U: int := 16

  function FreeJunk(): Page { seq(512, _ => 0x0101_0101_0101_0101) }

  function AllocJunk(): Page { seq(512, _ => 0x0505_0505_0505_0505) }

  function PgRoundUp(sz: int): int { (sz + 4096 - 1) / 4096 * 4096 }

  /** The number of pages that cover sz bytes. */
  function Pages(sz: int): int { (sz + 4096 - 1) / 4096 }

  function SetBit(x: int, bit: int): int
    requires bit > 0
  {
    if x / bit % 2 == 1 then x else x + bit
  }

  /** The table that walk has reached when `level` more steps remain. */
  function NodeAt(level: int, vpn: int): int {
    if level == 2 then 0 else if level == 1 then Mid(vpn) else Low(vpn)
  }

  lemma NodeStep(level: int, vpn: int)
    requires 0 < level <= 2 && 0 <= vpn < SPAN
    ensures 0 <= NodeAt(level, vpn) < NodeAt(level - 1, vpn) < NODES && 0 <= Px(level, vpn) < 512
    ensures Parent(NodeAt(level - 1, vpn)) == NodeAt(level, vpn) && IndexIn(NodeAt(level - 1, vpn)) == Px(level, vpn)
  {
    Path(vpn);
  }

  lemma EmptyTable(mem: seq<Page>, use: seq<Use>, p: int, root: int, tbl: seq<int>)
    requires |mem| == |use| && 0 < root < |mem| && mem[root] == ZeroPage() && use[root] == Table(p, 0)
    requires tbl == seq(NODES, _ => 0)[0 := root]
    requires forall f | 0 <= f < |use| && f != root :: !IsTable(use[f], p) && !IsLeaf(use[f], p)
    ensures PtOk(mem, use, p, tbl) && forall v {:trigger Look(mem, tbl, v)} | 0 <= v < SPAN :: Look(mem, tbl, v) == 0
  {
    forall n | 0 < n < NODES
      ensures 0 <= Parent(n) < NODES && 0 <= IndexIn(n) < 512
    {
      ParentChild(n);
    }
    forall v | 0 <= v < SPAN
      ensures Look(mem, tbl, v) == 0
    {
      Path(v);
    }
  }

  /** The entry for table c tells whether it exists, and where. */
  lemma TableEntry(mem: seq<Page>, tbl: seq<int>, c: int)
    requires Tree(mem, tbl) && 0 < c < NODES && 0 <= Parent(c) < c && 0 < tbl[Parent(c)] < |mem|
    requires 0 <= IndexIn(c) < 512
    ensures var pte := mem[tbl[Parent(c)]][IndexIn(c)]; if IsValid(pte) then tbl[c] == FrameOf(pte) else tbl[c] == 0
  {
    assert EntryIs(mem[tbl[Parent(c)]][IndexIn(c)], tbl[c]);
    if tbl[c] != 0 {
      PteRoundTrip(tbl[c], 0);
    }
  }

  lemma MapPosition(va: int, size: int, k: int, a: int)
    requires 0 <= va && va % 4096 == 0 && 0 < size && size % 4096 == 0 && 0 <= k
    requires a == va + k * 4096 && a <= va + size - 4096
    ensures a / 4096 == va / 4096 + k && (a != va + size - 4096 ==> a + 4096 <= va + size - 4096)
    ensures a == va + size - 4096 ==> size == (k + 1) * 4096
  {
    var s := size / 4096;
    assert size == 4096 * s && a == 4096 * (va / 4096 + k);
  }

  datatype MapResult = Mapped | OutOfMemory | Panic

  /** k pages from v on are mapped to the frames from f on; the rest is as before. */
  ghost predicate RangeMapped(mem: seq<Page>, tbl: seq<int>, mem': seq<Page>, tbl': seq<int>, v: int, k: int, f: int,
                              perm: int) {
    && (forall w {:trigger Look(mem', tbl', w)} | 0 <= w < SPAN ::
          Look(mem', tbl', w) == if v <= w < v + k then MakePte(f + w - v, perm) else Look(mem, tbl, w))
    && (forall w {:trigger Look(mem, tbl, w)} | v <= w < v + k :: !IsValid(Look(mem, tbl, w)))
  }

  lemma RangeMore(mem: seq<Page>, tbl: seq<int>, mem1: seq<Page>, tbl1: seq<int>, mem': seq<Page>, tbl': seq<int>,
                  v: int, k: int, f: int, perm: int)
    requires RangeMapped(mem, tbl, mem1, tbl1, v, k, f, perm) && 0 <= v && 0 <= k && v + k < SPAN
    requires !IsValid(Look(mem1, tbl1, v + k)) && LookSet(mem1, tbl1, mem', tbl', v + k, MakePte(f + k, perm))
    ensures RangeMapped(mem, tbl, mem', tbl', v, k + 1, f, perm)
  {
  }

  lemma RangeKept(mem: seq<Page>, tbl: seq<int>, mem1: seq<Page>, tbl1: seq<int>, mem': seq<Page>, tbl': seq<int>,
                  v: int, k: int, f: int, perm: int)
    requires RangeMapped(mem, tbl, mem1, tbl1, v, k, f, perm) && SameLook(mem1, tbl1, mem', tbl')
    ensures RangeMapped(mem, tbl, mem', tbl', v, k, f, perm)
  {
  }

  lemma GrownTwice(p: int, mem: seq<Page>, use: seq<Use>, mem1: seq<Page>, use1: seq<Use>, mem': seq<Page>,
                   use': seq<Use>)
    requires Grown(p, mem, use, mem1, use1) && Grown(p, mem1, use1, mem', use')
    ensures Grown(p, mem, use, mem', use')
  {
  }

  /** The free list is exactly the free frames, and every frame that came from the pool
      lies in it. */
  ghost predicate PoolOk(first: int, mem: seq<Page>, use: seq<Use>, free: seq<int>) {
    && 0 < first && |use| == |mem| && FreeOk(use, free)
    && (forall f | 0 <= f < |use| && use[f] != Other :: first <= f)
  }

  lemma NewTableOk(first: int, mem: seq<Page>, use: seq<Use>, p: int, tbl: seq<int>, c: int, f: int, mem': seq<Page>,
                   use': seq<Use>, tbl': seq<int>, mem1: seq<Page>, use1: seq<Use>, free: seq<int>)
    requires TablesOk(mem, use, p, tbl) && 0 < c < NODES && 0 <= Parent(c) < c && 0 <= IndexIn(c) < 512
    requires tbl[c] == 0 && 0 < tbl[Parent(c)] < |mem| && 0 < f < |mem| && use[f] == Free
    requires mem1 == mem[f := AllocJunk()] && use1 == use[f := Other] && first <= f && PoolOk(first, mem1, use1, free)
    requires var t := mem1[f := ZeroPage()]; mem' == t[tbl[Parent(c)] := t[tbl[Parent(c)]][IndexIn(c) := MakePte(f, 0)]]
    requires use' == use1[f := Table(p, c)] && tbl' == tbl[c := f]
    ensures TablesOk(mem', use', p, tbl') && SameLook(mem, tbl, mem', tbl') && Grown(p, mem, use, mem', use')
    ensures PoolOk(first, mem', use', free)
  {
    assert tbl[Parent(c)] != f;
    assert mem1[f := ZeroPage()] == mem[f := ZeroPage()];
    assert use' == use[f := Table(p, c)];
    AddTable(mem, use, p, tbl, c, f, mem', use', tbl');
  }

  /** What a frame is for once the pages lo..hi of p have been unmapped. */
  function UnmappedUse(u: Use, p: int, lo: int, hi: int, doFree: bool): Use {
    if IsLeaf(u, p) && lo <= u.v < hi then (if doFree then Free else Other) else u
  }

  ghost predicate Unmapped(p: int, tbl: seq<int>, lo: int, hi: int, doFree: bool, mem: seq<Page>, use: seq<Use>,
                           mem': seq<Page>, use': seq<Use>) {
    && |mem| == |use| == |mem'| == |use'|
    && (forall w {:trigger Look(mem', tbl, w)} | 0 <= w < SPAN ::
          if lo <= w < hi then !IsValid(Look(mem', tbl, w)) else Look(mem', tbl, w) == Look(mem, tbl, w))
    && (forall f | 0 <= f < |use| :: use'[f] == UnmappedUse(use[f], p, lo, hi, doFree))
    && (forall f | 0 <= f < |use| && !IsTable(use[f], p) && use'[f] != Free :: mem'[f] == mem[f])
  }

  lemma NothingUnmapped(p: int, tbl: seq<int>, v: int, doFree: bool, mem: seq<Page>, use: seq<Use>)
    requires PtOk(mem, use, p, tbl) && 0 <= v < SPAN && !IsValid(Look(mem, tbl, v))
    ensures Unmapped(p, tbl, v, v + 1, doFree, mem, use, mem, use)
  {
    forall f | 0 <= f < |use|
      ensures use[f] == UnmappedUse(use[f], p, v, v + 1, doFree)
    {
    }
  }

  lemma UnmappedMore(p: int, tbl: seq<int>, lo: int, hi: int, doFree: bool, mem: seq<Page>, use: seq<Use>,
                     mem1: seq<Page>, use1: seq<Use>, mem': seq<Page>, use': seq<Use>)
    requires lo <= hi && Unmapped(p, tbl, lo, hi, doFree, mem, use, mem1, use1)
    requires Unmapped(p, tbl, hi, hi + 1, doFree, mem1, use1, mem', use')
    ensures Unmapped(p, tbl, lo, hi + 1, doFree, mem, use, mem', use')
  {
  }

  /** Clearing the entry of a user page, whose frame is freed or handed to the caller. */
  lemma UnmapUser(mem: seq<Page>, use: seq<Use>, p: int, tbl: seq<int>, v: int, t: int, f: int, doFree: bool,
                  mem': seq<Page>, use': seq<Use>)
    requires PtOk(mem, use, p, tbl) && 0 <= v < USERPAGES && 0 < Low(v) < NODES && t == tbl[Low(v)] && 0 < t < |mem|
    requires IsValid(mem[t][v % 512]) && f == FrameOf(mem[t][v % 512]) && 0 <= f < |mem|
    requires use' == use[f := if doFree then Free else Other]
    requires mem' == (if doFree then mem[f := FreeJunk()] else mem)[t := mem[t][v % 512 := 0]]
    ensures PtOk(mem', use', p, tbl) && Unmapped(p, tbl, v, v + 1, doFree, mem, use, mem', use')
  {
    var m := mem[t := mem[t][v % 512 := 0]];
    SetLeaf(mem, use, p, tbl, v, 0, m);
    assert Look(mem, tbl, v) == mem[t][v % 512];
    assert use[f] == Leaf(p, v) && use[t] == Table(p, Low(v));
    UnmapLeaf(mem, use, p, tbl, v, f, m, use');
    OtherFramesIrrelevant(m, use, p, tbl, mem', use');
    KeepLeaves(m, use', p, tbl, mem', use', tbl);
    UnmapUses(mem, use, p, tbl, v, f, doFree, use');
    assert LookSet(mem, tbl, mem', tbl, v, 0);
  }

  lemma UnmapUses(mem: seq<Page>, use: seq<Use>, p: int, tbl: seq<int>, v: int, f: int, doFree: bool, use': seq<Use>)
    requires LeavesOk(mem, use, p, tbl) && 0 <= f < |use| && use[f] == Leaf(p, v)
    requires use' == use[f := if doFree then Free else Other]
    ensures forall g | 0 <= g < |use| :: use'[g] == UnmappedUse(use[g], p, v, v + 1, doFree)
  {
    assert forall g | 0 <= g < |use| && g != f :: !(IsLeaf(use[g], p) && use[g].v == v);
  }

  /** Clearing the entry of the trampoline or the trapframe. */
  lemma UnmapShared(mem: seq<Page>, use: seq<Use>, p: int, tbl: seq<int>, v: int, t: int, mem': seq<Page>)
    requires PtOk(mem, use, p, tbl) && USERPAGES <= v < SPAN && 0 < Low(v) < NODES && t == tbl[Low(v)] && 0 < t < |mem|
    requires mem' == mem[t := mem[t][v % 512 := 0]]
    ensures PtOk(mem', use, p, tbl) && Unmapped(p, tbl, v, v + 1, false, mem, use, mem', use)
  {
    SetLeaf(mem, use, p, tbl, v, 0, mem');
    KeepLeaves(mem, use, p, tbl, mem', use, tbl);
  }

  lemma EntryUse(mem: seq<Page>, use: seq<Use>, p: int, tbl: seq<int>, v: int, t: int, f: int)
    requires PtOk(mem, use, p, tbl) && 0 <= v < SPAN && 0 < Low(v) < NODES && t == tbl[Low(v)] && 0 < t < |mem|
    requires IsValid(mem[t][v % 512]) && f == FrameOf(mem[t][v % 512])
    ensures use[t] == Table(p, Low(v)) && (v < USERPAGES ==> 0 < f < |use| && use[f] == Leaf(p, v))
  {
    assert mem[t][v % 512] == Look(mem, tbl, v);
  }

  /** Clearing the entry of any page. */
  lemma UnmapEntry(mem: seq<Page>, use: seq<Use>, p: int, tbl: seq<int>, v: int, t: int, f: int, doFree: bool,
                   mem': seq<Page>, use': seq<Use>)
    requires PtOk(mem, use, p, tbl) && 0 <= v < (if doFree then USERPAGES else SPAN)
    requires 0 < Low(v) < NODES && t == tbl[Low(v)] && 0 < t < |mem|
    requires IsValid(mem[t][v % 512]) && f == FrameOf(mem[t][v % 512]) && (v < USERPAGES ==> 0 <= f < |mem|)
    requires use' == if v < USERPAGES then use[f := if doFree then Free else Other] else use
    requires mem' == (if doFree then mem[f := FreeJunk()] else mem)[t := mem[t][v % 512 := 0]]
    ensures PtOk(mem', use', p, tbl) && Unmapped(p, tbl, v, v + 1, doFree, mem, use, mem', use')
  {
    if v < USERPAGES {
      UnmapUser(mem, use, p, tbl, v, t, f, doFree, mem', use');
    } else {
      UnmapShared(mem, use, p, tbl, v, t, mem');
    }
  }

  /** Frames claimed for p: free frames may become its tables or its user pages lo..hi;
      nothing else changes. */
  ghost predicate Claimed(p: int, lo: int, hi: int, mem: seq<Page>, use: seq<Use>, mem': seq<Page>, use': seq<Use>) {
    && |mem| == |use| == |mem'| == |use'|
    && (forall f | 0 <= f < |use| ::
          use'[f] == use[f] || (use[f] == Free
              && (IsTable(use'[f], p) || (IsLeaf(use'[f], p) && lo <= use'[f].v < hi))))
    && (forall f | 0 <= f < |use| && use'[f] == use[f] && use[f] != Free && !IsTable(use[f], p) :: mem'[f] == mem[f])
  }

  /** Taking a frame from the pool for other contents does not matter to a page table. */
  lemma Taken(mem: seq<Page>, use: seq<Use>, p: int, tbl: seq<int>, f: int, mem': seq<Page>, use': seq<Use>)
    requires PtOk(mem, use, p, tbl) && 0 <= f < |mem| && use[f] == Free && |mem'| == |mem|
    requires use' == use[f := Other] && forall g | 0 <= g < |mem| && g != f :: mem'[g] == mem[g]
    ensures PtOk(mem', use', p, tbl) && SameLook(mem, tbl, mem', tbl)
  {
    OtherFramesIrrelevant(mem, use, p, tbl, mem', use');
    KeepLeaves(mem, use, p, tbl, mem', use', tbl);
  }

  lemma AttachOk(mem: seq<Page>, use: seq<Use>, p: int, tbl: seq<int>, v: int, f: int, perm: int, mem1: seq<Page>,
                 use1: seq<Use>, mem': seq<Page>, use2: seq<Use>, use': seq<Use>, tbl': seq<int>)
    requires PtOk(mem, use, p, tbl) && 0 <= v < USERPAGES && 0 < f < |mem| && use[f] == Free && 0 <= perm < 1024
    requires |mem1| == |mem|
    requires use1 == use[f := Other] && forall g | 0 <= g < |mem| && g != f :: mem1[g] == mem[g]
    requires Grown(p, mem1, use1, mem', use2) && TablesOk(mem', use2, p, tbl') && use' == use2[f := Leaf(p, v)]
    requires RangeMapped(mem1, tbl, mem', tbl', v, 1, f, perm)
    ensures PtOk(mem', use', p, tbl') && LookSet(mem, tbl, mem', tbl', v, MakePte(f, perm))
    ensures Claimed(p, v, v + 1, mem, use, mem', use')
    ensures mem'[f] == mem1[f] && use'[f] == Leaf(p, v)
  {
    Taken(mem, use, p, tbl, f, mem1, use1);
    PteRoundTrip(f, perm);
    assert !IsValid(Look(mem1, tbl, v));
    assert LookSet(mem1, tbl, mem', tbl', v, MakePte(f, perm));
    MapLeaf(mem1, use1, p, tbl, v, MakePte(f, perm), f, mem', use', tbl');
    OtherFramesIrrelevant(mem', use2, p, tbl', mem', use');
  }

  lemma AttachFailed(mem: seq<Page>, use: seq<Use>, p: int, tbl: seq<int>, f: int, mem1: seq<Page>, use1: seq<Use>,
                     mem2: seq<Page>, use2: seq<Use>, mem': seq<Page>, use': seq<Use>, tbl': seq<int>)
    requires PtOk(mem, use, p, tbl) && 0 < f < |mem| && use[f] == Free && |mem1| == |mem|
    requires use1 == use[f := Other] && forall g | 0 <= g < |mem| && g != f :: mem1[g] == mem[g]
    requires Grown(p, mem1, use1, mem2, use2) && TablesOk(mem2, use2, p, tbl') && SameLook(mem1, tbl, mem2, tbl')
    requires mem' == mem2[f := FreeJunk()] && use' == use2[f := Free]
    ensures PtOk(mem', use', p, tbl') && SameLook(mem, tbl, mem', tbl') && Grown(p, mem, use, mem', use')
  {
    Taken(mem, use, p, tbl, f, mem1, use1);
    OtherFramesIrrelevant(mem2, use2, p, tbl', mem', use');
    KeepLeaves(mem1, use1, p, tbl, mem', use', tbl');
  }

  lemma ClaimedMore(p: int, lo: int, hi: int, mem: seq<Page>, use: seq<Use>, mem1: seq<Page>, use1: seq<Use>,
                    mem': seq<Page>, use': seq<Use>)
    requires lo <= hi && Claimed(p, lo, hi, mem, use, mem1, use1) && Claimed(p, hi, hi + 1, mem1, use1, mem', use')
    ensures Claimed(p, lo, hi + 1, mem, use, mem', use')
  {
  }

  /** Pages lo..hi are mapped to zeroed frames with the given flags; the rest is as before. */
  ghost predicate ZeroFilled(mem: seq<Page>, tbl: seq<int>, mem': seq<Page>, tbl': seq<int>, lo: int, hi: int,
                             flags: int) {
    forall w {:trigger Look(mem', tbl', w)} | 0 <= w < SPAN ::
      if lo <= w < hi
      then IsValid(Look(mem', tbl', w)) && Flags(Look(mem', tbl', w)) == flags
           && 0 < FrameOf(Look(mem', tbl', w)) < |mem'| && mem'[FrameOf(Look(mem', tbl', w))] == ZeroPage()
      else Look(mem', tbl', w) == Look(mem, tbl, w)
  }

  lemma ZeroMore(p: int, mem: seq<Page>, tbl: seq<int>, mem1: seq<Page>, use1: seq<Use>, tbl1: seq<int>,
                 mem': seq<Page>, use': seq<Use>, tbl': seq<int>, lo: int, hi: int, f: int, perm: int)
    requires 0 <= lo <= hi < USERPAGES && ZeroFilled(mem, tbl, mem1, tbl1, lo, hi, Flags(MakePte(0, perm)))
    requires LeavesOk(mem1, use1, p, tbl1)
    requires LookSet(mem1, tbl1, mem', tbl', hi, MakePte(f, perm)) && Claimed(p, hi, hi + 1, mem1, use1, mem', use')
    requires 0 <= perm < 1024 && 0 < f < |mem'| && mem'[f] == ZeroPage()
    ensures ZeroFilled(mem, tbl, mem', tbl', lo, hi + 1, Flags(MakePte(0, perm)))
  {
    PteRoundTrip(f, perm);
    PteRoundTrip(0, perm);
    forall w | lo <= w < hi
      ensures Look(mem', tbl', w) == Look(mem1, tbl1, w)
      ensures 0 <= FrameOf(Look(mem1, tbl1, w)) < |mem'| && mem'[FrameOf(Look(mem1, tbl1, w))] == ZeroPage()
    {
      var e := Look(mem1, tbl1, w);
      assert Look(mem', tbl', w) == e;
      assert use1[FrameOf(e)] == Leaf(p, w);
    }
  }

  /** What claiming pages lo..hi and building tables takes from the pool. */
  lemma ZeroEnough(mem: seq<Page>, use: seq<Use>, free: seq<int>, tbl: seq<int>, mem': seq<Page>, use': seq<Use>,
                   free': seq<int>, tbl': seq<int>, p: int, lo: int, hi: int, flags: int)
    requires PtOk(mem, use, p, tbl) && PtOk(mem', use', p, tbl') && FreeOk(use, free) && FreeOk(use', free')
    requires NewFor(tbl, tbl', PageSet(lo, hi))
    requires 0 <= lo <= hi <= USERPAGES && ZeroFilled(mem, tbl, mem', tbl', lo, hi, flags)
    requires Claimed(p, lo, hi, mem, use, mem', use')
    requires forall w {:trigger Look(mem, tbl, w)} | lo <= w < hi :: !IsValid(Look(mem, tbl, w))
    ensures |free'| + FramesFor(tbl, PageSet(lo, hi)) == |free|
  {
    PageSetIs(lo, hi);
    forall v
      ensures v in NewPages(mem, tbl, mem', tbl') <==> v in PageSet(lo, hi)
    {
      assert 0 <= v < SPAN ==> Look(mem', tbl', v) == Look(mem', tbl', v) && Look(mem, tbl, v) == Look(mem, tbl, v);
    }
    assert NewPages(mem, tbl, mem', tbl') == PageSet(lo, hi);
    JustEnough(mem, use, free, tbl, mem', use', free', tbl', p, PageSet(lo, hi));
  }

  lemma GrowStart(mem: seq<Page>, use: seq<Use>, p: int, tbl: seq<int>, l: int, flags: int)
    requires 0 <= l <= USERPAGES && |mem| == |use|
    ensures Claimed(p, l, l, mem, use, mem, use) && ZeroFilled(mem, tbl, mem, tbl, l, l, flags)
    ensures NewFor(tbl, tbl, PageSet(l, l))
  {
    NothingNew(tbl, PageSet(l, l));
  }

  lemma PageBounds(oldsz: int, newsz: int)
    requires 0 <= oldsz <= newsz <= TRAPFRAME
    ensures PgRoundUp(oldsz) == 4096 * Pages(oldsz) && 0 <= Pages(oldsz) <= Pages(newsz) <= USERPAGES
    ensures 4096 * (Pages(newsz) - 1) < newsz <= 4096 * Pages(newsz)
  {
  }

  /** uvmalloc gives up at page k: the frames do not suffice for the pages up to k. */
  lemma GrowTooFew(mem: seq<Page>, use: seq<Use>, free: seq<int>, tbl: seq<int>, mem1: seq<Page>, use1: seq<Use>,
                   tbl1: seq<int>, mem': seq<Page>, use': seq<Use>, free': seq<int>, tbl': seq<int>, p: int, l: int,
                   k: int, flags: int)
    requires PtOk(mem, use, p, tbl) && PtOk(mem', use', p, tbl') && FreeOk(use, free) && FreeOk(use', free')
    requires 0 <= l <= k < USERPAGES && ZeroFilled(mem, tbl, mem1, tbl1, l, k, flags)
    requires Claimed(p, l, k, mem, use, mem1, use1) && Grown(p, mem1, use1, mem', use')
    requires SameLook(mem1, tbl1, mem', tbl') && NewFor(tbl, tbl', PageSet(l, k + 1)) && 0 <= Low(k) < NODES
    requires forall w {:trigger Look(mem, tbl, w)} | l <= w <= k :: !IsValid(Look(mem, tbl, w))
    requires |free'| <= 1 && (|free'| == 1 ==> tbl'[Low(k)] == 0)
    ensures |free| < FramesFor(tbl, PageSet(l, k + 1))
  {
    GrownPages(mem, tbl, mem1, tbl1, mem', tbl', l, k, flags);
    OnePageMore(l, k);
    TooFew(mem, use, free, tbl, mem', use', free', tbl', p, PageSet(l, k), k);
  }

  lemma GrownPages(mem: seq<Page>, tbl: seq<int>, mem1: seq<Page>, tbl1: seq<int>, mem': seq<Page>, tbl': seq<int>,
                   l: int, k: int, flags: int)
    requires 0 <= l <= k < USERPAGES && ZeroFilled(mem, tbl, mem1, tbl1, l, k, flags)
    requires SameLook(mem1, tbl1, mem', tbl')
    requires forall w {:trigger Look(mem, tbl, w)} | l <= w <= k :: !IsValid(Look(mem, tbl, w))
    ensures NewPages(mem, tbl, mem', tbl') == PageSet(l, k)
  {
    PageSetIs(l, k);
    forall v
      ensures v in NewPages(mem, tbl, mem', tbl') <==> v in PageSet(l, k)
    {
      assert 0 <= v < SPAN ==> Look(mem', tbl', v) == Look(mem1, tbl1, v);
      assert l <= v < k ==> !IsValid(Look(mem, tbl, v));
    }
  }

  /** The same pages are mapped, with the same entries. */
  ghost predicate SameMapped(mem: seq<Page>, tbl: seq<int>, mem': seq<Page>, tbl': seq<int>) {
    forall w {:trigger Look(mem', tbl', w)} | 0 <= w < SPAN ::
      if IsValid(Look(mem, tbl, w)) then Look(mem', tbl', w) == Look(mem, tbl, w) else !IsValid(Look(mem', tbl', w))
  }

  /** Claiming pages lo..hi, failing to go on, and unmapping them again. */
  lemma Undone(p: int, lo: int, hi: int, mem: seq<Page>, use: seq<Use>, tbl: seq<int>, mem1: seq<Page>, use1: seq<Use>,
               mem2: seq<Page>, use2: seq<Use>, tbl': seq<int>, mem': seq<Page>, use': seq<Use>)
    requires LeavesOk(mem, use, p, tbl) && 0 <= lo <= hi <= USERPAGES
    requires forall w {:trigger Look(mem, tbl, w)} | lo <= w < hi :: !IsValid(Look(mem, tbl, w))
    requires Claimed(p, lo, hi, mem, use, mem1, use1) && Grown(p, mem1, use1, mem2, use2)
    requires Unmapped(p, tbl', lo, hi, true, mem2, use2, mem', use')
    requires forall w {:trigger Look(mem2, tbl', w)} | 0 <= w < SPAN && !(lo <= w < hi) ::
        Look(mem2, tbl', w) == Look(mem, tbl, w)
    ensures Grown(p, mem, use, mem', use') && SameMapped(mem, tbl, mem', tbl')
  {
  }

  /** What happens to page table q leaves another page table as it was. */
  lemma Bystander(p: int, q: int, lo: int, hi: int, mem: seq<Page>, use: seq<Use>, mem': seq<Page>, use': seq<Use>,
                  tbl: seq<int>)
    requires p != q && PtOk(mem, use, p, tbl) && Claimed(q, lo, hi, mem, use, mem', use')
    ensures PtOk(mem', use', p, tbl) && SameLook(mem, tbl, mem', tbl)
  {
    OtherFramesIrrelevant(mem, use, p, tbl, mem', use');
    KeepLeaves(mem, use, p, tbl, mem', use', tbl);
  }

  /** Page e' is a copy of page e: the same flags and contents, or both unmapped. */
  ghost predicate CopyOf(mem: seq<Page>, e: int, mem': seq<Page>, e': int) {
    if IsValid(e) then
      IsValid(e') && Flags(e') == Flags(e) && 0 < FrameOf(e) < |mem| && 0 < FrameOf(e') < |mem'|
          && mem'[FrameOf(e')] == mem[FrameOf(e)]
    else !IsValid(e')
  }

  /** The first hi pages of tq' are copies of those of tp, the others are as in tq. */
  ghost predicate Copied(mem: seq<Page>, tp: seq<int>, tq: seq<int>, mem': seq<Page>, tq': seq<int>, hi: int) {
    forall w {:trigger Look(mem', tq', w)} | 0 <= w < SPAN ::
      if w < hi then CopyOf(mem, Look(mem, tp, w), mem', Look(mem', tq', w)) else Look(mem', tq', w) == Look(mem, tq, w)
  }

  /** A valid entry's flags have PTE_V. */
  lemma FlagsOdd(e: int)
    requires IsValid(e)
    ensures 0 <= Flags(e) < 1024 && Flags(e) % 2 == 1
  {
    assert e == 1024 * (e / 1024) + e % 1024;
    PteParity(e / 1024, e % 1024);
  }

  lemma CopiedMore(p: int, q: int, mem: seq<Page>, use: seq<Use>, tp: seq<int>, tq: seq<int>, mem1: seq<Page>,
                   use1: seq<Use>, tq1: seq<int>, mem': seq<Page>, use': seq<Use>, tq': seq<int>, v: int, e: int,
                   f: int)
    requires 0 <= v < USERPAGES && Copied(mem, tp, tq, mem1, tq1, v) && LeavesOk(mem1, use1, q, tq1)
    requires e == Look(mem, tp, v) && IsValid(e) && 0 < FrameOf(e) < |mem| && 0 < f < |mem'|
    requires mem'[f] == mem[FrameOf(e)]
    requires LookSet(mem1, tq1, mem', tq', v, MakePte(f, Flags(e))) && Claimed(q, v, v + 1, mem1, use1, mem', use')
    ensures Copied(mem, tp, tq, mem', tq', v + 1)
  {
    FlagsOdd(e);
    PteRoundTrip(f, Flags(e));
    assert CopyOf(mem, e, mem', MakePte(f, Flags(e)));
    forall w | 0 <= w < v
      ensures CopyOf(mem, Look(mem, tp, w), mem', Look(mem', tq', w))
    {
      var e1 := Look(mem1, tq1, w);
      assert Look(mem', tq', w) == e1;
      assert IsValid(e1) ==> use1[FrameOf(e1)] == Leaf(q, w);
    }
  }

  /** Which entry of table n leads to table m, -1 if m does not lie strictly below n. */
  function Under(n: int, m: int): int {
    if n == 0 && 0 < m <= 512 then m - 1
    else if n == 0 && m > 512 then Parent(m) - 1
    else if 0 < n <= 512 && m > 512 && Parent(m) == n then IndexIn(m)
    else -1
  }

  predicate InSub(n: int, m: int) { m == n || Under(n, m) >= 0 }

  lemma UnderChild(n: int, i: int, m: int)
    requires 0 <= n <= 512 && 0 <= i < 512
    ensures Under(n, m) == i <==> InSub(Child(n, i), m)
  {
  }

  /** R, W or X is set: a leaf in the Sv39 format. */
  predicate HasPerm(pte: int) { pte / 2 % 8 != 0 }

  ghost predicate LeafFormat(mem: seq<Page>, tbl: seq<int>) {
    forall v {:trigger Look(mem, tbl, v)} | 0 <= v < SPAN && IsValid(Look(mem, tbl, v)) :: HasPerm(Look(mem, tbl, v))
  }

  /** The tables below n, and n itself, are intact. */
  ghost predicate SubOk(mem: seq<Page>, use: seq<Use>, p: int, tbl: seq<int>, n: int) {
    && |use| == |mem| && |tbl| == NODES
    && (forall m | 0 <= m < NODES && InSub(n, m) && tbl[m] != 0 :: 0 < tbl[m] < |mem| && use[tbl[m]] == Table(p, m))
    && (forall m | 0 < m < NODES && InSub(n, m) && m != n && tbl[Parent(m)] == 0 :: tbl[m] == 0)
    && (forall m | 0 < m < NODES && InSub(n, m) && m != n && 0 < tbl[Parent(m)] < |mem| ::
          EntryIs(mem[tbl[Parent(m)]][IndexIn(m)], tbl[m]))
    && (forall f | 0 <= f < |use| && IsTable(use[f], p) && InSub(n, use[f].n) ::
          0 <= use[f].n < NODES && tbl[use[f].n] == f && f != 0)
    && (forall v {:trigger Look(mem, tbl, v)} | 0 <= v < SPAN && InSub(n, Low(v)) && IsValid(Look(mem, tbl, v)) ::
          HasPerm(Look(mem, tbl, v)))
  }

  /** The tables below the first i entries of n are freed, nothing else is touched except
      those entries. */
  ghost predicate Freed(p: int, n: int, i: int, table: int, mem: seq<Page>, use: seq<Use>, mem': seq<Page>,
                        use': seq<Use>) {
    && |mem| == |use| == |mem'| == |use'| && 0 <= table < |mem|
    && (forall f | 0 <= f < |use| ::
          use'[f] == if IsTable(use[f], p) && 0 <= Under(n, use[f].n) < i then Free else use[f])
    && (forall f | 0 <= f < |use| && f != table && !(IsTable(use[f], p) && 0 <= Under(n, use[f].n) < i) ::
          mem'[f] == mem[f])
    && (forall j | 0 <= i <= j < 512 :: mem'[table][j] == mem[table][j])
  }

  /** All tables from n down are freed, nothing else is touched. */
  ghost predicate SubFreed(p: int, n: int, mem: seq<Page>, use: seq<Use>, mem': seq<Page>, use': seq<Use>) {
    && |mem| == |use| == |mem'| == |use'|
    && (forall f | 0 <= f < |use| :: use'[f] == if IsTable(use[f], p) && InSub(n, use[f].n) then Free else use[f])
    && (forall f | 0 <= f < |use| && !(IsTable(use[f], p) && InSub(n, use[f].n)) :: mem'[f] == mem[f])
  }

  /** Entry i of table n is invalid or leads to the child table, or n holds user pages. */
  lemma EntryKind(mem: seq<Page>, use: seq<Use>, p: int, tbl: seq<int>, n: int, i: int)
    requires SubOk(mem, use, p, tbl, n) && 0 <= n < NODES && 0 <= i < 512 && tbl[n] != 0
    ensures n > 512 && IsValid(mem[tbl[n]][i]) ==> HasPerm(mem[tbl[n]][i])
    ensures n <= 512 ==> 0 < Child(n, i) < NODES && Child(n, i) > n
    ensures n <= 512 ==> (IsValid(mem[tbl[n]][i]) && !HasPerm(mem[tbl[n]][i]) <==> tbl[Child(n, i)] != 0)
    ensures n <= 512 && tbl[Child(n, i)] != 0 ==> FrameOf(mem[tbl[n]][i]) == tbl[Child(n, i)]
  {
    if n <= 512 {
      ChildParent(n, i);
      UnderChild(n, i, Child(n, i));
      assert EntryIs(mem[tbl[n]][i], tbl[Child(n, i)]);
      if tbl[Child(n, i)] != 0 {
        PteRoundTrip(tbl[Child(n, i)], 0);
      }
    } else {
      var v := (n - 513) * 512 + i;
      assert Low(v) == n && v % 512 == i;
      assert Look(mem, tbl, v) == mem[tbl[n]][i];
    }
  }

  lemma ChildIntact(mem: seq<Page>, use: seq<Use>, p: int, tbl: seq<int>, n: int, i: int, mem': seq<Page>,
                    use': seq<Use>)
    requires SubOk(mem, use, p, tbl, n) && 0 <= n <= 512 && 0 <= i < 512 && tbl[n] != 0
    requires Freed(p, n, i, tbl[n], mem, use, mem', use')
    ensures SubOk(mem', use', p, tbl, Child(n, i))
  {
    var c := Child(n, i);
    ChildParent(n, i);
    forall m | 0 <= m < NODES && InSub(c, m)
      ensures InSub(n, m) && m != n && Under(n, m) == i
    {
      UnderChild(n, i, m);
    }
    forall m | 0 < m < NODES && InSub(c, m) && m != c
      ensures InSub(c, Parent(m))
    {
    }
    forall v | 0 <= v < SPAN && InSub(c, Low(v))
      ensures Look(mem', tbl, v) == Look(mem, tbl, v)
    {
      Path(v);
    }
  }

  lemma ChildFreed(mem: seq<Page>, use: seq<Use>, p: int, tbl: seq<int>, n: int, i: int, table: int, mem1: seq<Page>,
                   use1: seq<Use>, mem2: seq<Page>, use': seq<Use>, mem': seq<Page>)
    requires SubOk(mem, use, p, tbl, n) && 0 <= n <= 512 && 0 <= i < 512 && table == tbl[n] && table != 0
    requires Freed(p, n, i, table, mem, use, mem1, use1) && SubFreed(p, Child(n, i), mem1, use1, mem2, use')
    requires 0 <= table < |mem2| && mem' == mem2[table := mem2[table][i := 0]]
    ensures Freed(p, n, i + 1, table, mem, use, mem', use')
  {
    forall m
      ensures Under(n, m) == i <==> InSub(Child(n, i), m)
    {
      UnderChild(n, i, m);
    }
    assert use[table] == Table(p, n) && Under(n, n) == -1;
  }

  lemma NoChild(mem: seq<Page>, use: seq<Use>, p: int, tbl: seq<int>, n: int, i: int, table: int, mem': seq<Page>,
                use': seq<Use>)
    requires SubOk(mem, use, p, tbl, n) && 0 <= n < NODES && 0 <= i < 512 && table == tbl[n] && table != 0
    requires n <= 512 ==> 0 < Child(n, i) < NODES && tbl[Child(n, i)] == 0
    requires Freed(p, n, i, table, mem, use, mem', use')
    ensures Freed(p, n, i + 1, table, mem, use, mem', use')
  {
    forall f | 0 <= f < |use| && IsTable(use[f], p)
      ensures Under(n, use[f].n) != i
    {
      var m := use[f].n;
      if Under(n, m) == i {
        UnderChild(n, i, m);
        assert false;
      }
    }
  }

  /** Before freewalk: user pages 0..k of a well-formed table have been unmapped. */
  lemma RootIntact(mem: seq<Page>, use: seq<Use>, p: int, tbl: seq<int>, k: int, mem': seq<Page>, use': seq<Use>)
    requires PtOk(mem, use, p, tbl) && LeafFormat(mem, tbl) && PtOk(mem', use', p, tbl)
    requires Unmapped(p, tbl, 0, k, true, mem, use, mem', use')
    ensures SubOk(mem', use', p, tbl, 0)
  {
    forall m | 0 <= m < NODES
      ensures InSub(0, m) && (m > 0 ==> 0 <= Parent(m) < m && 0 <= IndexIn(m) < 512)
    {
    }
  }

  /** What uvmfree does with a frame: tables and the pages below k are freed. */
  function UseAfterFree(u: Use, p: int, k: int): Use {
    if IsTable(u, p) || (IsLeaf(u, p) && u.v < k) then Free else u
  }

  lemma FreedUses(mem: seq<Page>, use: seq<Use>, p: int, tbl: seq<int>, k: int, mem1: seq<Page>, use1: seq<Use>,
                  mem': seq<Page>, use': seq<Use>)
    requires PtOk(mem, use, p, tbl) && Unmapped(p, tbl, 0, k, true, mem, use, mem1, use1)
    requires SubFreed(p, 0, mem1, use1, mem', use')
    ensures forall f | 0 <= f < |use| :: use'[f] == UseAfterFree(use[f], p, k)
    ensures forall f | 0 <= f < |use| && use'[f] != Free :: mem'[f] == mem[f]
  {
    forall m | 0 <= m < NODES
      ensures InSub(0, m)
    {
    }
  }

  /** No frame stays behind exactly if no user page lies at or above k. */
  lemma LeakedPages(mem: seq<Page>, use: seq<Use>, p: int, tbl: seq<int>, k: int, use': seq<Use>)
    requires LeavesOk(mem, use, p, tbl) && |use'| == |use| && 0 <= k
    requires forall f | 0 <= f < |use| :: use'[f] == UseAfterFree(use[f], p, k)
    ensures (forall f | 0 <= f < |use'| :: !IsTable(use'[f], p) && !IsLeaf(use'[f], p))
       <==> (forall v {:trigger Look(mem, tbl, v)} | k <= v < USERPAGES :: !IsValid(Look(mem, tbl, v)))
  {
    if v :| k <= v < USERPAGES && IsValid(Look(mem, tbl, v)) {
      assert use'[FrameOf(Look(mem, tbl, v))] == Leaf(p, v);
    }
  }

  lemma ValidStep(mem: seq<Page>, tp: seq<int>, v: int)
    requires 0 <= v
    ensures IsValid(Look(mem, tp, v)) ==> ValidPages(mem, tp, v + 1) == ValidPages(mem, tp, v) + {v}
    ensures !IsValid(Look(mem, tp, v)) ==> ValidPages(mem, tp, v + 1) == ValidPages(mem, tp, v)
    ensures v !in ValidPages(mem, tp, v)
  {
    forall u
      ensures u in ValidPages(mem, tp, v + 1) <==> u in ValidPages(mem, tp, v) || (u == v && IsValid(Look(mem, tp, v)))
    {
      assert Look(mem, tp, u) == Look(mem, tp, u);
    }
  }

  lemma ValidMonotone(mem: seq<Page>, tp: seq<int>, tbl: seq<int>, mid: int, hi: int)
    requires mid <= hi
    ensures FramesFor(tbl, ValidPages(mem, tp, mid)) <= FramesFor(tbl, ValidPages(mem, tp, hi))
  {
    forall u | u in ValidPages(mem, tp, mid)
      ensures u in ValidPages(mem, tp, hi)
    {
    }
    FramesMonotone(tbl, ValidPages(mem, tp, mid), ValidPages(mem, tp, hi));
  }

  /** The pages copied are those of the parent. */
  lemma CopiedPages(mem: seq<Page>, tp: seq<int>, tq: seq<int>, mem1: seq<Page>, tq1: seq<int>, mem': seq<Page>,
                    tq': seq<int>, v: int)
    requires 0 <= v <= USERPAGES && Copied(mem, tp, tq, mem1, tq1, v) && SameLook(mem1, tq1, mem', tq')
    requires forall w {:trigger Look(mem, tq, w)} | 0 <= w < v :: !IsValid(Look(mem, tq, w))
    ensures NewPages(mem, tq, mem', tq') == ValidPages(mem, tp, v)
  {
    forall u
      ensures u in NewPages(mem, tq, mem', tq') <==> u in ValidPages(mem, tp, v)
    {
      assert 0 <= u < SPAN ==> Look(mem', tq', u) == Look(mem1, tq1, u);
      assert 0 <= u < v ==> !IsValid(Look(mem, tq, u));
      assert Look(mem, tp, u) == Look(mem, tp, u);
    }
  }

  lemma CopyEnough(mem: seq<Page>, use: seq<Use>, free: seq<int>, tp: seq<int>, tq: seq<int>, mem': seq<Page>,
                   use': seq<Use>, free': seq<int>, tq': seq<int>, q: int, v: int)
    requires PtOk(mem, use, q, tq) && PtOk(mem', use', q, tq') && FreeOk(use, free) && FreeOk(use', free')
    requires 0 <= v <= USERPAGES && Copied(mem, tp, tq, mem', tq', v) && Claimed(q, 0, v, mem, use, mem', use')
    requires forall w {:trigger Look(mem, tq, w)} | 0 <= w < v :: !IsValid(Look(mem, tq, w))
    requires NewFor(tq, tq', ValidPages(mem, tp, v))
    ensures |free'| + FramesFor(tq, ValidPages(mem, tp, v)) == |free|
  {
    CopiedPages(mem, tp, tq, mem', tq', mem', tq', v);
    JustEnough(mem, use, free, tq, mem', use', free', tq', q, ValidPages(mem, tp, v));
  }

  /** uvmcopy gives up at page v: the frames do not suffice for the pages up to v. */
  lemma CopyTooFew(mem: seq<Page>, use: seq<Use>, free: seq<int>, tp: seq<int>, tq: seq<int>, mem1: seq<Page>,
                   use1: seq<Use>, tq1: seq<int>, mem': seq<Page>, use': seq<Use>, free': seq<int>, tq': seq<int>,
                   q: int, v: int)
    requires PtOk(mem, use, q, tq) && PtOk(mem', use', q, tq') && FreeOk(use, free) && FreeOk(use', free')
    requires 0 <= v < USERPAGES && Copied(mem, tp, tq, mem1, tq1, v) && Claimed(q, 0, v, mem, use, mem1, use1)
    requires Grown(q, mem1, use1, mem', use') && SameLook(mem1, tq1, mem', tq')
    requires NewFor(tq, tq', ValidPages(mem, tp, v) + {v}) && 0 <= Low(v) < NODES
    requires forall w {:trigger Look(mem, tq, w)} | 0 <= w <= v :: !IsValid(Look(mem, tq, w))
    requires |free'| <= 1 && (|free'| == 1 ==> tq'[Low(v)] == 0)
    ensures |free| < FramesFor(tq, ValidPages(mem, tp, v) + {v})
  {
    CopiedPages(mem, tp, tq, mem1, tq1, mem', tq', v);
    ValidStep(mem, tp, v);
    TooFew(mem, use, free, tq, mem', use', free', tq', q, ValidPages(mem, tp, v), v);
  }

  class Memory {
    var mem: seq<Page>
    var free: seq<int>            // kmem.freelist, first to be handed out first
    const first: int              // frame of the first address after the kernel
    ghost var use: seq<Use>

    ghost predicate Good()
      reads this
    {
      PoolOk(first, mem, use, free)
    }

    /** kinit: the frames from first on are freed one by one. */
    constructor (first: int, total: int)
      requires 0 < first <= total
      ensures Good() && this.first == first && |mem| == total
      ensures forall f | 0 <= f < total :: use[f] == if f < first then Other else Free
    {
      this.first, mem, free := first, seq(total, _ => ZeroPage()), [];
      use := seq(total, _ => Other);
      new;
      FreeRange(first, total);
    }

    method FreeRange(lo: int, hi: int)
      requires Good() && first <= lo <= hi == |mem| && forall f | lo <= f < hi :: use[f] == Other
      modifies this
      ensures Good() && |mem| == hi
      ensures forall f | 0 <= f < hi :: use[f] == if f < lo then old(use)[f] else Free
    {
      var f := lo;
      while f < hi
        invariant lo <= f <= hi && Good() && |mem| == hi
        invariant forall g | 0 <= g < hi :: use[g] == if lo <= g < f then Free else old(use)[g]
      {
        Kfree(f);
        f := f + 1;
      }
    }

    method Kalloc() returns (f: int)
      requires Good()
      modifies this
      ensures Good()
      ensures old(free) == [] ==> f == 0 && mem == old(mem) && use == old(use) && free == []
      ensures old(free) != [] ==> first <= f < |old(mem)| == |old(use)| && old(use)[f] == Free && free == old(free)[1..]
      ensures old(free) != [] ==> mem == old(mem)[f := AllocJunk()] && use == old(use)[f := Other]
    {
      if free == [] {
        return 0;
      }
      f := free[0];
      ghost var was, had := use, free;
      free := free[1..];
      mem := mem[f := AllocJunk()];
      use := use[f := Other];
      assert forall g | 0 <= g < |use| && use[g] == Free :: g in had && g != f;
      assert had == [f] + free;
    }

    method Kfree(f: int)
      requires Good() && first <= f < |mem| && use[f] == Other
      modifies this
      ensures Good() && free == [f] + old(free)
      ensures mem == old(mem)[f := FreeJunk()] && use == old(use)[f := Free]
    {
      mem := mem[f := FreeJunk()];
      free := [f] + free;
      use := use[f := Free];
    }

    method Walk(ghost p: int, ghost tbl: seq<int>, root: int, va: int, alloc: bool)
      returns (pt: int, ghost tbl': seq<int>)
      requires Good() && TablesOk(mem, use, p, tbl) && root == tbl[0] && 0 <= va < MAXVA
      modifies this
      ensures Good() && TablesOk(mem, use, p, tbl') && tbl'[0] == root
      ensures SameLook(old(mem), tbl, mem, tbl') && Grown(p, old(mem), old(use), mem, use)
      ensures !alloc ==> mem == old(mem) && use == old(use) && free == old(free) && tbl' == tbl
      ensures 0 < Low(va / 4096) < NODES
      ensures pt == tbl'[Low(va / 4096)]
      ensures alloc && pt == 0 ==> free == []
      ensures NewFor(tbl, tbl', {va / 4096})
    {
      var vpn := va / 4096;
      var level := 2;
      pt := root;
      tbl' := tbl;
      Path(vpn);
      NothingNew(tbl, {vpn});
      while level > 0
        invariant 0 <= level <= 2 && Good() && TablesOk(mem, use, p, tbl') && tbl'[0] == root
        invariant 0 < pt < |mem| && pt == tbl'[NodeAt(level, vpn)]
        invariant SameLook(old(mem), tbl, mem, tbl') && Grown(p, old(mem), old(use), mem, use)
        invariant !alloc ==> mem == old(mem) && use == old(use) && free == old(free) && tbl' == tbl
        invariant NewFor(tbl, tbl', {vpn})
      {
        ghost var mem1, use1, tbl1 := mem, use, tbl';
        NodeStep(level, vpn);
        pt, tbl' := Descend(p, tbl', pt, Px(level, vpn), NodeAt(level - 1, vpn), alloc);
        NewTableFor(tbl, tbl1, vpn, NodeAt(level - 1, vpn), pt);
        GrownTwice(p, old(mem), old(use), mem1, use1, mem, use);
        if pt == 0 {
          assert tbl'[Parent(Low(vpn))] == 0 ==> tbl'[Low(vpn)] == 0;
          return;
        }
        level := level - 1;
      }
    }

    /** One pass of walk's loop: entry i of a table leads to table c. */
    method Descend(ghost p: int, ghost tbl: seq<int>, table: int, i: int, ghost c: int, alloc: bool)
      returns (pt: int, ghost tbl': seq<int>)
      requires Good() && TablesOk(mem, use, p, tbl) && 0 < c < NODES && 0 <= Parent(c) < c && table == tbl[Parent(c)]
      requires 0 < table < |mem|
      requires 0 <= i < 512 && i == IndexIn(c)
      modifies this
      ensures Good() && TablesOk(mem, use, p, tbl') && tbl'[0] == tbl[0] && pt == tbl'[c]
      ensures SameLook(old(mem), tbl, mem, tbl') && Grown(p, old(mem), old(use), mem, use)
      ensures !alloc ==> mem == old(mem) && use == old(use) && free == old(free) && tbl' == tbl
      ensures alloc && pt == 0 ==> free == []
      ensures tbl' == tbl || tbl' == tbl[c := pt]
    {
      tbl' := tbl;
      var pte := mem[table][i];
      TableEntry(mem, tbl, c);
      if IsValid(pte) {
        pt := FrameOf(pte);
      } else if !alloc {
        pt := 0;
      } else {
        pt, tbl' := NewTable(p, tbl, table, i, c);
      }
    }

    /** The allocating branch of walk. */
    method NewTable(ghost p: int, ghost tbl: seq<int>, table: int, i: int, ghost c: int)
      returns (f: int, ghost tbl': seq<int>)
      requires Good() && TablesOk(mem, use, p, tbl) && 0 < c < NODES && 0 <= Parent(c) < c && table == tbl[Parent(c)]
      requires 0 < table < |mem| && 0 <= i < 512 && i == IndexIn(c) && tbl[c] == 0
      modifies this
      ensures Good() && TablesOk(mem, use, p, tbl') && tbl'[0] == tbl[0]
      ensures SameLook(old(mem), tbl, mem, tbl') && Grown(p, old(mem), old(use), mem, use)
      ensures f == tbl'[c] && (f == 0 ==> free == [] && tbl' == tbl) && (f != 0 ==> tbl' == tbl[c := f])
    {
      tbl' := tbl;
      f := Kalloc();
      if f == 0 {
        return;
      }
      var mem' := mem[f := ZeroPage()];
      mem' := mem'[table := mem'[table][i := MakePte(f, 0)]];
      ghost var use' := use[f := Table(p, c)];
      tbl' := tbl[c := f];
      NewTableOk(first, old(mem), old(use), p, tbl, c, f, mem', use', tbl', mem, use, free);
      mem, use := mem', use';
    }

    method Walkaddr(ghost p: int, ghost tbl: seq<int>, root: int, va: int) returns (frame: int)
      requires Good() && TablesOk(mem, use, p, tbl) && root == tbl[0] && 0 <= va
      modifies this
      ensures mem == old(mem) && use == old(use) && free == old(free)
      ensures frame == (if va < MAXVA && IsValid(Look(mem, tbl, va / 4096))
                           && Look(mem, tbl, va / 4096) / PTE_U % 2 == 1
                        then FrameOf(Look(mem, tbl, va / 4096)) else 0)
    {
      if va >= MAXVA {
        return 0;
      }
      var pte := Entry(p, tbl, root, va, va / 4096);
      if !IsValid(pte) {
        return 0;
      }
      if pte / PTE_U % 2 == 0 {
        return 0;
      }
      frame := FrameOf(pte);
    }

    method MapPages(ghost p: int, ghost tbl: seq<int>, root: int, va: int, size: int, pa: int, perm: int)
      returns (r: MapResult, ghost tbl': seq<int>, ghost k: int, ghost w: set<int>)
      requires Good() && TablesOk(mem, use, p, tbl) && root == tbl[0]
      requires 0 <= va && 0 <= size && 0 <= pa && 0 <= perm < 1024
      modifies this
      ensures Good() && TablesOk(mem, use, p, tbl') && tbl'[0] == root && Grown(p, old(mem), old(use), mem, use)
      ensures 0 <= k && RangeMapped(old(mem), tbl, mem, tbl', va / 4096, k, pa / 4096, perm)
      ensures r == Mapped ==> va % 4096 == 0 && k > 0 && size == k * 4096 && va + size <= MAXVA
      ensures r == OutOfMemory ==> free == []
      ensures r == OutOfMemory ==> 0 <= Low(va / 4096 + k) < NODES && tbl'[Low(va / 4096 + k)] == 0
      ensures NewFor(tbl, tbl', w) && (r == Mapped ==> IsRange(w, va / 4096, va / 4096 + k))
      ensures r == OutOfMemory ==> IsRange(w, va / 4096, va / 4096 + k + 1)
      ensures r != Mapped ==> k == 0 || k * 4096 < size
      ensures r == Panic ==> va % 4096 != 0 || size % 4096 != 0 || size == 0 || va + k * 4096 >= MAXVA
                             || IsValid(Look(old(mem), tbl, va / 4096 + k))
    {
      tbl', k, w := tbl, 0, {};
      NothingNew(tbl, {});
      if va % 4096 != 0 || size % 4096 != 0 || size == 0 {
        return Panic, tbl', 0, w;
      }
      var a, last, frame := va, va + size - 4096, pa / 4096;
      while true
        invariant 0 <= k && va <= a <= last && a == va + k * 4096 && frame == pa / 4096 + k
        invariant Good() && TablesOk(mem, use, p, tbl') && tbl'[0] == root && Grown(p, old(mem), old(use), mem, use)
        invariant RangeMapped(old(mem), tbl, mem, tbl', va / 4096, k, pa / 4096, perm)
        invariant NewFor(tbl, tbl', w) && IsRange(w, va / 4096, va / 4096 + k)
        decreases last - a
      {
        if a >= MAXVA {
          return Panic, tbl', k, w;
        }
        var done;
        MapPosition(va, size, k, a);
        done, tbl' := MapNext(p, tbl', root, a / 4096, frame, perm, old(mem), old(use), tbl, va / 4096, k, pa / 4096,
                              w);
        w := w + {a / 4096};
        if done != Mapped {
          return done, tbl', k, w;
        }
        k := k + 1;
        if a == last {
          return Mapped, tbl', k, w;
        }
        a, frame := a + 4096, frame + 1;
      }
    }

    /** One pass of mappages' loop; mem0, use0 and tbl0 are from before the first pass. */
    method MapNext(ghost p: int, ghost tbl: seq<int>, root: int, vpn: int, frame: int, perm: int, ghost mem0: seq<Page>,
                   ghost use0: seq<Use>, ghost tbl0: seq<int>, ghost v: int, ghost k: int, ghost f: int,
                   ghost w: set<int>)
      returns (r: MapResult, ghost tbl': seq<int>)
      requires Good() && TablesOk(mem, use, p, tbl) && root == tbl[0] && 0 <= vpn < 0x400_0000
      requires NewFor(tbl0, tbl, w)
      requires Grown(p, mem0, use0, mem, use) && RangeMapped(mem0, tbl0, mem, tbl, v, k, f, perm)
      requires 0 <= v && 0 <= k && vpn == v + k && frame == f + k
      modifies this
      ensures Good() && TablesOk(mem, use, p, tbl') && tbl'[0] == root && Grown(p, mem0, use0, mem, use)
      ensures RangeMapped(mem0, tbl0, mem, tbl', v, if r == Mapped then k + 1 else k, f, perm)
      ensures r == OutOfMemory ==> free == [] && 0 <= Low(vpn) < NODES && tbl'[Low(vpn)] == 0
      ensures NewFor(tbl0, tbl', w + {vpn})
      ensures r == Panic ==> IsValid(Look(mem0, tbl0, vpn))
    {
      ghost var mem1, use1 := mem, use;
      assert Look(mem, tbl, vpn) == Look(mem0, tbl0, vpn);
      r, tbl' := MapOne(p, tbl, root, vpn, frame, perm);
      NewForMore(tbl0, tbl, tbl', w, {vpn}, w + {vpn});
      GrownTwice(p, mem0, use0, mem1, use1, mem, use);
      if r == Mapped {
        RangeMore(mem0, tbl0, mem1, tbl, mem, tbl', v, k, f, perm);
      } else {
        RangeKept(mem0, tbl0, mem1, tbl, mem, tbl', v, k, f, perm);
      }
    }

    method MapOne(ghost p: int, ghost tbl: seq<int>, root: int, vpn: int, frame: int, perm: int)
      returns (r: MapResult, ghost tbl': seq<int>)
      requires Good() && TablesOk(mem, use, p, tbl) && root == tbl[0] && 0 <= vpn < 0x400_0000
      modifies this
      ensures Good() && TablesOk(mem, use, p, tbl') && tbl'[0] == root && Grown(p, old(mem), old(use), mem, use)
      ensures r == Mapped ==> !IsValid(Look(old(mem), tbl, vpn))
      ensures r == Mapped ==> LookSet(old(mem), tbl, mem, tbl', vpn, MakePte(frame, perm))
      ensures r != Mapped ==> SameLook(old(mem), tbl, mem, tbl')
      ensures r == OutOfMemory ==> free == [] && 0 <= Low(vpn) < NODES && tbl'[Low(vpn)] == 0
      ensures NewFor(tbl, tbl', {vpn})
      ensures r == Panic ==> IsValid(Look(old(mem), tbl, vpn))
    {
      var pt;
      pt, tbl' := Walk(p, tbl, root, vpn * 4096, true);
      if pt == 0 {
        return OutOfMemory, tbl';
      }
      var i := vpn % 512;
      assert Look(mem, tbl', vpn) == mem[pt][i];
      if IsValid(mem[pt][i]) {
        return Panic, tbl';
      }
      ghost var mem1 := mem;
      mem := mem[pt := mem[pt][i := MakePte(frame, perm)]];
      SetLeaf(mem1, use, p, tbl', vpn, MakePte(frame, perm), mem);
      GrownTwice(p, old(mem), old(use), mem1, use, mem, use);
      r := Mapped;
    }

    method Uvmunmap(ghost p: int, ghost tbl: seq<int>, root: int, va: int, npages: int, doFree: bool)
      requires Good() && PtOk(mem, use, p, tbl) && root == tbl[0]
      requires 0 <= va && va % 4096 == 0 && 0 <= npages && va + npages * 4096 <= (if doFree then TRAPFRAME else MAXVA)
      modifies this
      ensures Good() && PtOk(mem, use, p, tbl)
      ensures Unmapped(p, tbl, va / 4096, va / 4096 + npages, doFree, old(mem), old(use), mem, use)
    {
      var a := va;
      ghost var v := va / 4096;
      ghost var k := v;
      while a < va + npages * 4096
        invariant v <= k <= v + npages && a == 4096 * k
        invariant Good() && PtOk(mem, use, p, tbl)
        invariant Unmapped(p, tbl, v, k, doFree, old(mem), old(use), mem, use)
      {
        ghost var mem1, use1 := mem, use;
        UnmapOne(p, tbl, root, a, k, doFree);
        UnmappedMore(p, tbl, v, k, doFree, old(mem), old(use), mem1, use1, mem, use);
        a, k := a + 4096, k + 1;
      }
    }

    /** One pass of uvmunmap's loop. */
    method UnmapOne(ghost p: int, ghost tbl: seq<int>, root: int, a: int, ghost vpn: int, doFree: bool)
      requires Good() && PtOk(mem, use, p, tbl) && root == tbl[0] && a == 4096 * vpn
      requires 0 <= vpn < (if doFree then USERPAGES else 0x400_0000)
      modifies this
      ensures Good() && PtOk(mem, use, p, tbl)
      ensures Unmapped(p, tbl, vpn, vpn + 1, doFree, old(mem), old(use), mem, use)
    {
      var pt := Locate(p, tbl, root, a, vpn);
      if pt == 0 || !IsValid(mem[pt][a / 4096 % 512]) {
        NothingUnmapped(p, tbl, vpn, doFree, mem, use);
        return;
      }
      ClearEntry(p, tbl, vpn, pt, a / 4096 % 512, doFree);
    }

    /** walk without allocating. */
    method Locate(ghost p: int, ghost tbl: seq<int>, root: int, a: int, ghost v: int) returns (pt: int)
      requires Good() && TablesOk(mem, use, p, tbl) && root == tbl[0] && 0 <= a < MAXVA && v == a / 4096
      modifies this
      ensures mem == old(mem) && use == old(use) && free == old(free)
      ensures 0 < Low(v) < NODES && pt == tbl[Low(v)] && 0 <= pt < |mem|
    {
      ghost var tbl';
      pt, tbl' := Walk(p, tbl, root, a, false);
    }

    /** The end of that pass: the page's entry i of table pt is valid. */
    method ClearEntry(ghost p: int, ghost tbl: seq<int>, ghost vpn: int, pt: int, i: int, doFree: bool)
      requires Good() && PtOk(mem, use, p, tbl) && 0 <= vpn < (if doFree then USERPAGES else 0x400_0000)
      requires 0 < Low(vpn) < NODES && pt == tbl[Low(vpn)] && 0 < pt < |mem| && i == vpn % 512 && IsValid(mem[pt][i])
      modifies this
      ensures Good() && PtOk(mem, use, p, tbl)
      ensures Unmapped(p, tbl, vpn, vpn + 1, doFree, old(mem), old(use), mem, use)
    {
      var f := FrameOf(mem[pt][i]);
      EntryUse(mem, use, p, tbl, vpn, pt, f);
      ReleaseFrame(f, vpn < USERPAGES, doFree);
      mem := mem[pt := mem[pt][i := 0]];
      UnmapEntry(old(mem), old(use), p, tbl, vpn, pt, f, doFree, mem, use);
    }

    /** The frame of a user page goes to the caller or back to the pool. */
    method ReleaseFrame(f: int, ghost user: bool, doFree: bool)
      requires Good() && (doFree ==> user) && (user ==> 0 <= f < |use| && use[f].Leaf?)
      modifies this
      ensures Good() && mem == if doFree then old(mem)[f := FreeJunk()] else old(mem)
      ensures use == if user then old(use)[f := if doFree then Free else Other] else old(use)
    {
      use := if user then use[f := Other] else use;
      if doFree {
        Kfree(f);
        assert use == old(use)[f := Free];
      }
    }

    /** uvmcreate: an empty page table p, 0 exactly if memory is exhausted. */
    method Uvmcreate(ghost p: int) returns (root: int, ghost tbl: seq<int>)
      requires Good() && forall f | 0 <= f < |use| :: !IsTable(use[f], p) && !IsLeaf(use[f], p)
      modifies this
      ensures Good() && (root == 0 <==> old(free) == [])
      ensures root == 0 ==> mem == old(mem) && use == old(use)
      ensures root != 0 ==> PtOk(mem, use, p, tbl) && tbl[0] == root
      ensures root != 0 ==> forall v {:trigger Look(mem, tbl, v)} | 0 <= v < SPAN :: Look(mem, tbl, v) == 0
      ensures root != 0 ==> 0 < root < |old(use)| && old(use)[root] == Free && use == old(use)[root := Table(p, 0)]
    {
      tbl := [];
      root := Kalloc();
      if root != 0 {
        mem := mem[root := ZeroPage()];
        use := use[root := Table(p, 0)];
        tbl := seq(NODES, _ => 0)[0 := root];
        EmptyTable(mem, use, p, root, tbl);
        assert use == old(use)[root := Table(p, 0)];
      }
    }

    method Uvmdealloc(ghost p: int, ghost tbl: seq<int>, root: int, oldsz: int, newsz: int) returns (sz: int)
      requires Good() && PtOk(mem, use, p, tbl) && root == tbl[0] && 0 <= oldsz <= TRAPFRAME && 0 <= newsz
      modifies this
      ensures Good() && PtOk(mem, use, p, tbl)
      ensures sz == if newsz < oldsz then newsz else oldsz
      ensures Unmapped(p, tbl, Pages(newsz), Pages(oldsz), true, old(mem), old(use), mem, use)
    {
      if newsz >= oldsz {
        return oldsz;
      }
      if PgRoundUp(newsz) < PgRoundUp(oldsz) {
        var npages := (PgRoundUp(oldsz) - PgRoundUp(newsz)) / 4096;
        Uvmunmap(p, tbl, root, PgRoundUp(newsz), npages, true);
      }
      sz := newsz;
    }

    /** mappages for the one page of an unmapped address. */
    method MapFresh(ghost p: int, ghost tbl: seq<int>, root: int, v: int, frame: int, perm: int)
      returns (ok: bool, ghost tbl': seq<int>)
      requires Good() && TablesOk(mem, use, p, tbl) && root == tbl[0] && 0 <= perm < 1024 && 0 < frame
      requires 0 <= v < 0x400_0000 && !IsValid(Look(mem, tbl, v))
      modifies this
      ensures Good() && TablesOk(mem, use, p, tbl') && tbl'[0] == root && Grown(p, old(mem), old(use), mem, use)
      ensures if ok then RangeMapped(old(mem), tbl, mem, tbl', v, 1, frame, perm)
          else SameLook(old(mem), tbl, mem, tbl')
      ensures NewFor(tbl, tbl', {v}) && 0 <= Low(v) < NODES && (!ok ==> free == [] && tbl'[Low(v)] == 0)
    {
      var r;
      ghost var k, w;
      Path(v);
      var va, pa := v * 4096, frame * 4096;
      r, tbl', k, w := MapPages(p, tbl, root, va, 4096, pa, perm);
      ok := r == Mapped;
      assert va / 4096 == v && pa / 4096 == frame;
      assert !ok ==> k == 0;
      OneRange(w, v);
    }

    /** The step uvmalloc and uvmcopy share: a new frame with the given contents is mapped
        at page v; if a frame or a table is missing, what was taken is returned. */
    method AttachPage(ghost p: int, ghost tbl: seq<int>, root: int, v: int, contents: Page, perm: int)
      returns (ok: bool, ghost tbl': seq<int>, ghost f: int)
      requires Good() && PtOk(mem, use, p, tbl) && root == tbl[0] && 0 <= perm < 1024
      requires 0 <= v < USERPAGES && !IsValid(Look(mem, tbl, v))
      modifies this
      ensures Good() && PtOk(mem, use, p, tbl') && tbl'[0] == root
      ensures ok ==> LookSet(old(mem), tbl, mem, tbl', v, MakePte(f, perm))
      ensures ok ==> Claimed(p, v, v + 1, old(mem), old(use), mem, use)
      ensures ok ==> 0 < f < |mem| && use[f] == Leaf(p, v) && mem[f] == contents
      ensures !ok ==> SameLook(old(mem), tbl, mem, tbl') && Grown(p, old(mem), old(use), mem, use)
      ensures NewFor(tbl, tbl', {v}) && 0 <= Low(v) < NODES
      ensures !ok ==> |free| <= 1 && (|free| == 1 ==> tbl'[Low(v)] == 0)
    {
      Path(v);
      NothingNew(tbl, {v});
      tbl' := tbl;
      var frame := Kalloc();
      f := frame;
      if frame == 0 {
        return false, tbl', f;
      }
      mem := mem[frame := contents];
      ok, tbl' := AttachFrame(p, tbl, root, v, frame, perm, old(mem), old(use));
    }

    /** ... once the frame is there; mem0 and use0 are from before it was taken. */
    method AttachFrame(ghost p: int, ghost tbl: seq<int>, root: int, v: int, frame: int, perm: int,
                       ghost mem0: seq<Page>, ghost use0: seq<Use>)
      returns (ok: bool, ghost tbl': seq<int>)
      requires Good() && PtOk(mem0, use0, p, tbl) && root == tbl[0] && 0 <= perm < 1024
      requires 0 <= v < USERPAGES && !IsValid(Look(mem0, tbl, v))
      requires first <= frame < |mem0| == |mem| && use0[frame] == Free && use == use0[frame := Other]
      requires forall g | 0 <= g < |mem| && g != frame :: mem[g] == mem0[g]
      modifies this
      ensures Good() && PtOk(mem, use, p, tbl') && tbl'[0] == root
      ensures ok ==> LookSet(mem0, tbl, mem, tbl', v, MakePte(frame, perm))
      ensures ok ==> Claimed(p, v, v + 1, mem0, use0, mem, use)
      ensures ok ==> frame < |mem| && use[frame] == Leaf(p, v) && mem[frame] == old(mem)[frame]
      ensures !ok ==> SameLook(mem0, tbl, mem, tbl') && Grown(p, mem0, use0, mem, use)
      ensures NewFor(tbl, tbl', {v}) && 0 <= Low(v) < NODES && (!ok ==> |free| == 1 && tbl'[Low(v)] == 0)
    {
      Taken(mem0, use0, p, tbl, frame, mem, use);
      ok, tbl' := MapFresh(p, tbl, root, v, frame, perm);
      ghost var mem2, use2 := mem, use;
      if ok {
        use := use[frame := Leaf(p, v)];
        AttachOk(mem0, use0, p, tbl, v, frame, perm, old(mem), old(use), mem, use2, use, tbl');
      } else {
        Kfree(frame);
        AttachFailed(mem0, use0, p, tbl, frame, old(mem), old(use), mem2, use2, mem, use, tbl');
      }
    }

    method Uvmalloc(ghost p: int, ghost tbl: seq<int>, root: int, oldsz: int, newsz: int, xperm: int)
      returns (sz: int, ghost ok: bool, ghost tbl': seq<int>)
      requires Good() && PtOk(mem, use, p, tbl) && root == tbl[0] && 0 <= oldsz && 0 <= newsz <= TRAPFRAME
      requires 0 <= xperm < 1024
      requires forall w {:trigger Look(mem, tbl, w)} | Pages(oldsz) <= w < Pages(newsz) :: !IsValid(Look(mem, tbl, w))
      modifies this
      ensures Good() && PtOk(mem, use, p, tbl') && tbl'[0] == root
      ensures sz == if newsz < oldsz then oldsz else if ok then newsz else 0
      ensures newsz < oldsz ==> mem == old(mem) && use == old(use) && tbl' == tbl
      ensures ok ==> ZeroFilled(old(mem), tbl, mem, tbl', Pages(oldsz), Pages(newsz),
          Flags(MakePte(0, SetBit(SetBit(xperm, PTE_R), PTE_U))))
      ensures ok ==> Claimed(p, Pages(oldsz), Pages(newsz), old(mem), old(use), mem, use)
      ensures !ok ==> SameMapped(old(mem), tbl, mem, tbl') && Grown(p, old(mem), old(use), mem, use)
      ensures ok ==> |free| + FramesFor(tbl, PageSet(Pages(oldsz), Pages(newsz))) == |old(free)|
      ensures !ok && newsz >= oldsz ==> |old(free)| < FramesFor(tbl, PageSet(Pages(oldsz), Pages(newsz)))
    {
      tbl' := tbl;
      if newsz < oldsz {
        return oldsz, false, tbl';
      }
      var perm := SetBit(SetBit(xperm, PTE_R), PTE_U);
      var done;
      ghost var hi;
      PageBounds(oldsz, newsz);
      done, tbl', hi := GrowPages(p, tbl, root, PgRoundUp(oldsz), newsz, perm, Pages(oldsz), Pages(newsz));
      sz, ok := if done then newsz else 0, done;
      if done {
        ZeroEnough(old(mem), old(use), old(free), tbl, mem, use, free, tbl', p, Pages(oldsz), Pages(newsz),
                   Flags(MakePte(0, perm)));
      } else {
        RangeMonotone(tbl, Pages(oldsz), hi, Pages(newsz));
      }
    }

    /** The loop of uvmalloc over pages l .. h, starting at address lo; hi is the page it got to. */
    method GrowPages(ghost p: int, ghost tbl: seq<int>, root: int, lo: int, newsz: int, perm: int, ghost l: int,
                     ghost h: int)
      returns (ok: bool, ghost tbl': seq<int>, ghost hi: int)
      requires Good() && PtOk(mem, use, p, tbl) && root == tbl[0] && 0 <= perm < 1024
      requires 0 <= l <= h <= USERPAGES && lo == 4096 * l && 4096 * (h - 1) < newsz <= 4096 * h
      requires forall w {:trigger Look(mem, tbl, w)} | l <= w < h :: !IsValid(Look(mem, tbl, w))
      modifies this
      ensures Good() && PtOk(mem, use, p, tbl') && tbl'[0] == root
      ensures ok ==> ZeroFilled(old(mem), tbl, mem, tbl', l, h, Flags(MakePte(0, perm)))
      ensures ok ==> Claimed(p, l, h, old(mem), old(use), mem, use) && NewFor(tbl, tbl', PageSet(l, h))
      ensures !ok ==> SameMapped(old(mem), tbl, mem, tbl') && Grown(p, old(mem), old(use), mem, use)
      ensures !ok ==> l <= hi <= h && |old(free)| < FramesFor(tbl, PageSet(l, hi))
    {
      tbl' := tbl;
      ghost var flags := Flags(MakePte(0, perm));
      var a := lo;
      hi := l;
      GrowStart(mem, use, p, tbl, l, flags);
      while a < newsz
        invariant l <= hi <= h && a == 4096 * hi
        invariant Good() && PtOk(mem, use, p, tbl') && tbl'[0] == root
        invariant Claimed(p, l, hi, old(mem), old(use), mem, use)
        invariant ZeroFilled(old(mem), tbl, mem, tbl', l, hi, flags) && NewFor(tbl, tbl', PageSet(l, hi))
      {
        ok, tbl' := GrowOne(p, tbl', root, lo, a, perm, l, hi, old(mem), old(use), old(free), tbl);
        a, hi := a + 4096, hi + 1;
        if !ok {
          return;
        }
      }
      ok := true;
    }

    /** One pass of uvmalloc's loop; mem0, use0 and tbl0 are from before the first pass. */
    method GrowOne(ghost p: int, ghost tbl: seq<int>, root: int, lo: int, a: int, perm: int, ghost l: int, ghost k: int,
                   ghost mem0: seq<Page>, ghost use0: seq<Use>, ghost free0: seq<int>, ghost tbl0: seq<int>)
      returns (ok: bool, ghost tbl': seq<int>)
      requires Good() && PtOk(mem, use, p, tbl) && root == tbl[0] && 0 <= perm < 1024
      requires 0 <= l <= k < USERPAGES && lo == 4096 * l && a == 4096 * k && PtOk(mem0, use0, p, tbl0)
      requires FreeOk(use0, free0) && NewFor(tbl0, tbl, PageSet(l, k))
      requires Claimed(p, l, k, mem0, use0, mem, use)
      requires ZeroFilled(mem0, tbl0, mem, tbl, l, k, Flags(MakePte(0, perm)))
      requires forall w {:trigger Look(mem0, tbl0, w)} | l <= w <= k :: !IsValid(Look(mem0, tbl0, w))
      modifies this
      ensures Good() && PtOk(mem, use, p, tbl') && tbl'[0] == root
      ensures ok ==> Claimed(p, l, k + 1, mem0, use0, mem, use)
      ensures ok ==> ZeroFilled(mem0, tbl0, mem, tbl', l, k + 1, Flags(MakePte(0, perm)))
      ensures ok ==> NewFor(tbl0, tbl', PageSet(l, k + 1))
      ensures !ok ==> SameMapped(mem0, tbl0, mem, tbl') && Grown(p, mem0, use0, mem, use)
      ensures !ok ==> |free0| < FramesFor(tbl0, PageSet(l, k + 1))
    {
      ghost var f := 0;
      assert Look(mem, tbl, k) == Look(mem0, tbl0, k);
      ok, tbl', f := AttachPage(p, tbl, root, a / 4096, ZeroPage(), perm);
      RangeNewFor(tbl0, tbl, tbl', l, k);
      if !ok {
        GrowFailed(p, tbl', root, lo, a, perm, l, k, mem0, use0, free0, tbl0, old(mem), old(use), tbl);
      } else {
        ClaimedMore(p, l, k, mem0, use0, old(mem), old(use), mem, use);
        ZeroMore(p, mem0, tbl0, old(mem), old(use), tbl, mem, use, tbl', l, k, f, perm);
      }
    }

    /** Its error exit: the pages mapped so far are unmapped again. */
    method GrowFailed(ghost p: int, ghost tbl: seq<int>, root: int, lo: int, a: int, ghost perm: int, ghost l: int,
                      ghost k: int, ghost mem0: seq<Page>, ghost use0: seq<Use>, ghost free0: seq<int>,
                      ghost tbl0: seq<int>, ghost mem1: seq<Page>, ghost use1: seq<Use>, ghost tbl1: seq<int>)
      requires Good() && PtOk(mem, use, p, tbl) && root == tbl[0]
      requires 0 <= l <= k < USERPAGES && lo == 4096 * l && a == 4096 * k && PtOk(mem0, use0, p, tbl0)
      requires FreeOk(use0, free0) && NewFor(tbl0, tbl, PageSet(l, k + 1)) && 0 <= Low(k) < NODES
      requires |free| <= 1 && (|free| == 1 ==> tbl[Low(k)] == 0)
      requires Claimed(p, l, k, mem0, use0, mem1, use1) && Grown(p, mem1, use1, mem, use)
      requires ZeroFilled(mem0, tbl0, mem1, tbl1, l, k, Flags(MakePte(0, perm))) && SameLook(mem1, tbl1, mem, tbl)
      requires forall w {:trigger Look(mem0, tbl0, w)} | l <= w <= k :: !IsValid(Look(mem0, tbl0, w))
      modifies this
      ensures Good() && PtOk(mem, use, p, tbl) && SameMapped(mem0, tbl0, mem, tbl) && Grown(p, mem0, use0, mem, use)
      ensures |free0| < FramesFor(tbl0, PageSet(l, k + 1))
    {
      GrowTooFew(mem0, use0, free0, tbl0, mem1, use1, tbl1, mem, use, free, tbl, p, l, k, Flags(MakePte(0, perm)));
      GrowUndo(p, tbl, root, lo, a, perm, l, k, mem0, use0, tbl0, mem1, use1, tbl1);
    }

    method GrowUndo(ghost p: int, ghost tbl: seq<int>, root: int, lo: int, a: int, ghost perm: int, ghost l: int,
                    ghost k: int, ghost mem0: seq<Page>, ghost use0: seq<Use>, ghost tbl0: seq<int>,
                    ghost mem1: seq<Page>, ghost use1: seq<Use>, ghost tbl1: seq<int>)
      requires Good() && PtOk(mem, use, p, tbl) && root == tbl[0]
      requires 0 <= l <= k < USERPAGES && lo == 4096 * l && a == 4096 * k && LeavesOk(mem0, use0, p, tbl0)
      requires Claimed(p, l, k, mem0, use0, mem1, use1) && Grown(p, mem1, use1, mem, use)
      requires ZeroFilled(mem0, tbl0, mem1, tbl1, l, k, Flags(MakePte(0, perm))) && SameLook(mem1, tbl1, mem, tbl)
      requires forall w {:trigger Look(mem0, tbl0, w)} | l <= w <= k :: !IsValid(Look(mem0, tbl0, w))
      modifies this
      ensures Good() && PtOk(mem, use, p, tbl) && SameMapped(mem0, tbl0, mem, tbl) && Grown(p, mem0, use0, mem, use)
    {
      ghost var mem2, use2 := mem, use;
      assert forall w {:trigger Look(mem2, tbl, w)} | 0 <= w < SPAN && !(l <= w < k) ::
          Look(mem2, tbl, w) == Look(mem1, tbl1, w) == Look(mem0, tbl0, w);
      var _ := Uvmdealloc(p, tbl, root, a, lo);
      Undone(p, l, k, mem0, use0, tbl0, mem1, use1, mem2, use2, tbl, mem, use);
    }

    /** walk without allocating, and the entry it finds. */
    method Entry(ghost p: int, ghost tbl: seq<int>, root: int, a: int, ghost v: int) returns (pte: int)
      requires Good() && TablesOk(mem, use, p, tbl) && root == tbl[0] && 0 <= a < MAXVA && v == a / 4096
      modifies this
      ensures pte == Look(mem, tbl, v) && mem == old(mem) && use == old(use) && free == old(free)
    {
      var pt := Locate(p, tbl, root, a, v);
      pte := if pt == 0 then 0 else mem[pt][a / 4096 % 512];
    }

    method Uvmcopy(ghost p: int, ghost tp: seq<int>, rp: int, ghost q: int, ghost tq: seq<int>, rq: int, sz: int)
      returns (ok: bool, ghost tq': seq<int>)
      requires Good() && p != q && PtOk(mem, use, p, tp) && PtOk(mem, use, q, tq) && rp == tp[0] && rq == tq[0]
      requires 0 <= sz <= TRAPFRAME
      requires forall w {:trigger Look(mem, tq, w)} | 0 <= w < Pages(sz) :: !IsValid(Look(mem, tq, w))
      modifies this
      ensures Good() && PtOk(mem, use, p, tp) && PtOk(mem, use, q, tq') && tq'[0] == rq
      ensures SameLook(old(mem), tp, mem, tp)
      ensures ok ==> Copied(old(mem), tp, tq, mem, tq', Pages(sz))
      ensures ok ==> Claimed(q, 0, Pages(sz), old(mem), old(use), mem, use)
      ensures !ok ==> SameMapped(old(mem), tq, mem, tq') && Grown(q, old(mem), old(use), mem, use)
      ensures ok ==> |free| + FramesFor(tq, ValidPages(old(mem), tp, Pages(sz))) == |old(free)|
      ensures !ok ==> |old(free)| < FramesFor(tq, ValidPages(old(mem), tp, Pages(sz)))
    {
      ghost var hi;
      ok, tq', hi := CopyPages(p, tp, rp, q, tq, rq, sz);
      if ok {
        CopyEnough(old(mem), old(use), old(free), tp, tq, mem, use, free, tq', q, hi);
      } else {
        ValidMonotone(old(mem), tp, tq, hi, Pages(sz));
      }
      Bystander(p, q, 0, if ok then Pages(sz) else 0, old(mem), old(use), mem, use, tp);
    }

    /** uvmcopy as far as the child is concerned; hi is the page it got to. */
    method CopyPages(ghost p: int, ghost tp: seq<int>, rp: int, ghost q: int, ghost tq: seq<int>, rq: int, sz: int)
      returns (ok: bool, ghost tq': seq<int>, ghost hi: int)
      requires Good() && p != q && PtOk(mem, use, p, tp) && PtOk(mem, use, q, tq) && rp == tp[0] && rq == tq[0]
      requires 0 <= sz <= TRAPFRAME
      requires forall w {:trigger Look(mem, tq, w)} | 0 <= w < Pages(sz) :: !IsValid(Look(mem, tq, w))
      modifies this
      ensures Good() && PtOk(mem, use, q, tq') && tq'[0] == rq
      ensures ok ==> Copied(old(mem), tp, tq, mem, tq', Pages(sz))
      ensures ok ==> Claimed(q, 0, Pages(sz), old(mem), old(use), mem, use)
      ensures !ok ==> SameMapped(old(mem), tq, mem, tq') && Grown(q, old(mem), old(use), mem, use)
      ensures hi <= Pages(sz) && (ok ==> hi == Pages(sz) && NewFor(tq, tq', ValidPages(old(mem), tp, hi)))
      ensures !ok ==> |old(free)| < FramesFor(tq, ValidPages(old(mem), tp, hi))
    {
      tq' := tq;
      var i := 0;
      ghost var v := 0;
      NothingNew(tq, ValidPages(mem, tp, 0));
      while i < sz
        invariant 0 <= v <= Pages(sz) && i == 4096 * v
        invariant Good() && PtOk(mem, use, q, tq') && tq'[0] == rq
        invariant Copied(old(mem), tp, tq, mem, tq', v) && Claimed(q, 0, v, old(mem), old(use), mem, use)
        invariant NewFor(tq, tq', ValidPages(old(mem), tp, v))
      {
        ok, tq' := CopyOne(p, tp, rp, q, tq', rq, i, v, old(mem), old(use), old(free), tq);
        if !ok {
          hi := v + 1;
          return;
        }
        i, v := i + 4096, v + 1;
      }
      ok, hi := true, v;
    }

    /** One pass of uvmcopy's loop, and its error exit; mem0, use0 and tq0 are from before
        the first pass. */
    method CopyOne(ghost p: int, ghost tp: seq<int>, rp: int, ghost q: int, ghost tq: seq<int>, rq: int, i: int,
                   ghost v: int, ghost mem0: seq<Page>, ghost use0: seq<Use>, ghost free0: seq<int>,
                   ghost tq0: seq<int>)
      returns (ok: bool, ghost tq': seq<int>)
      requires Good() && p != q && PtOk(mem0, use0, p, tp) && PtOk(mem, use, q, tq) && rp == tp[0] && rq == tq[0]
      requires 0 <= v < USERPAGES && i == 4096 * v && PtOk(mem0, use0, q, tq0) && FreeOk(use0, free0)
      requires NewFor(tq0, tq, ValidPages(mem0, tp, v))
      requires Copied(mem0, tp, tq0, mem, tq, v) && Claimed(q, 0, v, mem0, use0, mem, use)
      requires forall w {:trigger Look(mem0, tq0, w)} | 0 <= w <= v :: !IsValid(Look(mem0, tq0, w))
      modifies this
      ensures Good() && PtOk(mem, use, q, tq') && tq'[0] == rq
      ensures ok ==> Copied(mem0, tp, tq0, mem, tq', v + 1) && Claimed(q, 0, v + 1, mem0, use0, mem, use)
      ensures !ok ==> SameMapped(mem0, tq0, mem, tq') && Grown(q, mem0, use0, mem, use)
      ensures ok ==> NewFor(tq0, tq', ValidPages(mem0, tp, v + 1))
      ensures !ok ==> |free0| < FramesFor(tq0, ValidPages(mem0, tp, v + 1))
    {
      ValidStep(mem0, tp, v);
      Bystander(p, q, 0, v, mem0, use0, mem, use, tp);
      tq' := tq;
      var pte := Entry(p, tp, rp, i, v);
      assert Look(mem, tp, v) == Look(mem0, tp, v);
      if !IsValid(pte) {
        return true, tq';
      }
      assert use0[FrameOf(pte)] == Leaf(p, v);
      ok, tq' := CopyPage(p, tp, q, tq, rq, i, v, FrameOf(pte), Flags(pte), mem0, use0, free0, tq0);
    }

    method CopyPage(ghost p: int, ghost tp: seq<int>, ghost q: int, ghost tq: seq<int>, rq: int, i: int, ghost v: int,
                    frame: int, flags: int, ghost mem0: seq<Page>, ghost use0: seq<Use>, ghost free0: seq<int>,
                    ghost tq0: seq<int>)
      returns (ok: bool, ghost tq': seq<int>)
      requires Good() && PtOk(mem, use, q, tq) && rq == tq[0] && 0 <= v < USERPAGES && i == 4096 * v
      requires PtOk(mem0, use0, q, tq0) && FreeOk(use0, free0) && NewFor(tq0, tq, ValidPages(mem0, tp, v))
      requires var e := Look(mem0, tp, v); IsValid(e) && frame == FrameOf(e) && flags == Flags(e)
      requires 0 < frame < |mem0| == |use0| == |mem| && use0[frame] == Leaf(p, v) && mem[frame] == mem0[frame]
      requires Copied(mem0, tp, tq0, mem, tq, v) && Claimed(q, 0, v, mem0, use0, mem, use)
      requires forall w {:trigger Look(mem0, tq0, w)} | 0 <= w <= v :: !IsValid(Look(mem0, tq0, w))
      modifies this
      ensures Good() && PtOk(mem, use, q, tq') && tq'[0] == rq
      ensures ok ==> Copied(mem0, tp, tq0, mem, tq', v + 1) && Claimed(q, 0, v + 1, mem0, use0, mem, use)
      ensures !ok ==> SameMapped(mem0, tq0, mem, tq') && Grown(q, mem0, use0, mem, use)
      ensures ok ==> NewFor(tq0, tq', ValidPages(mem0, tp, v) + {v})
      ensures !ok ==> |free0| < FramesFor(tq0, ValidPages(mem0, tp, v) + {v})
    {
      ghost var f, mem1, use1 := 0, mem, use;
      ok, tq', f := AttachPage(q, tq, rq, i / 4096, mem[frame], flags);
      NewForMore(tq0, tq, tq', ValidPages(mem0, tp, v), {v}, ValidPages(mem0, tp, v) + {v});
      if !ok {
        CopyFailed(tp, q, tq', rq, i, v, mem0, use0, free0, tq0, mem1, use1, tq);
      } else {
        ClaimedMore(q, 0, v, mem0, use0, mem1, use1, mem, use);
        CopiedMore(p, q, mem0, use0, tp, tq0, mem1, use1, tq, mem, use, tq', v, Look(mem0, tp, v), f);
      }
    }

    /** Its error exit: the pages copied so far are unmapped again. */
    method CopyFailed(ghost tp: seq<int>, ghost q: int, ghost tq: seq<int>, rq: int, i: int, ghost v: int,
                      ghost mem0: seq<Page>, ghost use0: seq<Use>, ghost free0: seq<int>, ghost tq0: seq<int>,
                      ghost mem1: seq<Page>, ghost use1: seq<Use>, ghost tq1: seq<int>)
      requires Good() && PtOk(mem, use, q, tq) && rq == tq[0] && 0 <= v < USERPAGES && i == 4096 * v
      requires PtOk(mem0, use0, q, tq0) && FreeOk(use0, free0) && NewFor(tq0, tq, ValidPages(mem0, tp, v) + {v})
      requires Copied(mem0, tp, tq0, mem1, tq1, v) && Claimed(q, 0, v, mem0, use0, mem1, use1)
      requires Grown(q, mem1, use1, mem, use) && SameLook(mem1, tq1, mem, tq) && 0 <= Low(v) < NODES
      requires |free| <= 1 && (|free| == 1 ==> tq[Low(v)] == 0)
      requires forall w {:trigger Look(mem0, tq0, w)} | 0 <= w <= v :: !IsValid(Look(mem0, tq0, w))
      modifies this
      ensures Good() && PtOk(mem, use, q, tq) && SameMapped(mem0, tq0, mem, tq) && Grown(q, mem0, use0, mem, use)
      ensures |free0| < FramesFor(tq0, ValidPages(mem0, tp, v) + {v})
    {
      ghost var mem2, use2 := mem, use;
      CopyTooFew(mem0, use0, free0, tp, tq0, mem1, use1, tq1, mem, use, free, tq, q, v);
      Uvmunmap(q, tq, rq, 0, i / 4096, true);
      Undone(q, 0, v, mem0, use0, tq0, mem1, use1, mem2, use2, tq, mem, use);
    }

    method FreeWalk(ghost p: int, ghost tbl: seq<int>, ghost n: int, table: int)
      requires Good() && 0 <= n < NODES && SubOk(mem, use, p, tbl, n) && table == tbl[n] && table != 0
      modifies this
      ensures Good() && SubFreed(p, n, old(mem), old(use), mem, use)
      decreases NODES - n, 1
    {
      var i := 0;
      while i < 512
        invariant 0 <= i <= 512 && Good() && 0 < table < |mem|
        invariant Freed(p, n, i, table, old(mem), old(use), mem, use)
      {
        FreeEntry(p, tbl, n, table, i, old(mem), old(use));
        i := i + 1;
      }
      FreeTable(table);
    }

    /** One pass of freewalk's loop; mem0 and use0 are from before the first pass. */
    method FreeEntry(ghost p: int, ghost tbl: seq<int>, ghost n: int, table: int, i: int, ghost mem0: seq<Page>,
                     ghost use0: seq<Use>)
      requires Good() && 0 <= n < NODES && SubOk(mem0, use0, p, tbl, n) && table == tbl[n] && 0 < table < |mem|
      requires 0 <= i < 512 && Freed(p, n, i, table, mem0, use0, mem, use)
      modifies this
      ensures Good() && |mem| == |mem0| && Freed(p, n, i + 1, table, mem0, use0, mem, use)
      decreases NODES - n, 0
    {
      var pte := mem[table][i];
      EntryKind(mem0, use0, p, tbl, n, i);
      assert pte == mem0[table][i];
      if IsValid(pte) && !HasPerm(pte) {
        FreeChild(p, tbl, n, table, i, mem0, use0, FrameOf(pte));
      } else {
        NoChild(mem0, use0, p, tbl, n, i, table, mem, use);
      }
    }

    /** ... which is a table. */
    method FreeChild(ghost p: int, ghost tbl: seq<int>, ghost n: int, table: int, i: int, ghost mem0: seq<Page>,
                     ghost use0: seq<Use>, child: int)
      requires Good() && 0 <= n <= 512 && SubOk(mem0, use0, p, tbl, n) && table == tbl[n] && 0 < table < |mem|
      requires 0 <= i < 512 && Freed(p, n, i, table, mem0, use0, mem, use) && n < Child(n, i) < NODES
      requires child == tbl[Child(n, i)] && 0 < child < |mem|
      modifies this
      ensures Good() && |mem| == |mem0| && Freed(p, n, i + 1, table, mem0, use0, mem, use)
      decreases NODES - Child(n, i), 2
    {
      ChildIntact(mem0, use0, p, tbl, n, i, mem, use);
      FreeWalk(p, tbl, Child(n, i), child);
      ghost var mem2 := mem;
      mem := mem[table := mem[table][i := 0]];
      ChildFreed(mem0, use0, p, tbl, n, i, table, old(mem), old(use), mem2, use, mem);
    }

    method FreeTable(f: int)
      requires Good() && 0 <= f < |use| && use[f].Table?
      modifies this
      ensures Good() && mem == old(mem)[f := FreeJunk()] && use == old(use)[f := Free]
    {
      use := use[f := Other];
      Kfree(f);
      assert use == old(use)[f := Free];
    }

    method Uvmfree(ghost p: int, ghost tbl: seq<int>, root: int, sz: int)
      requires Good() && PtOk(mem, use, p, tbl) && root == tbl[0] && 0 <= sz <= TRAPFRAME && LeafFormat(mem, tbl)
      modifies this
      ensures Good() && |use| == |old(use)| == |mem|
      ensures forall f | 0 <= f < |use| :: use[f] == UseAfterFree(old(use)[f], p, Pages(sz))
      ensures forall f | 0 <= f < |use| && use[f] != Free :: mem[f] == old(mem)[f]
      ensures (forall f | 0 <= f < |use| :: !IsTable(use[f], p) && !IsLeaf(use[f], p))
         <==> (forall v {:trigger Look(old(mem), tbl, v)} | Pages(sz) <= v < USERPAGES ::
             !IsValid(Look(old(mem), tbl, v)))
    {
      if sz > 0 {
        Uvmunmap(p, tbl, root, 0, PgRoundUp(sz) / 4096, true);
      }
      ghost var mem1, use1 := mem, use;
      RootIntact(old(mem), old(use), p, tbl, Pages(sz), mem, use);
      FreeWalk(p, tbl, 0, root);
      FreedUses(old(mem), old(use), p, tbl, Pages(sz), mem1, use1, mem, use);
      LeakedPages(old(mem), old(use), p, tbl, Pages(sz), use);
    }
  }
}
