/** Sv39 page tables as kernel/vm.c builds them (section 4.4 of the RISC-V Privileged
    Architecture, version 20211203), and who uses each physical frame. Frames are numbered
    by physical address / 4096, virtual pages by virtual address / 4096. */
module PageTable {

  const SPAN: int := 0x800_0000              // pages the three levels can name; MAXVA allows half of them
  const USERPAGES: int := 0x3FF_FFFE         // pages below TRAPFRAME and TRAMPOLINE
  const NODES: int := 0x4_0201               // 1 + 512 + 512 * 512

  type Page = p: seq<int> | |p| == 512 witness seq(512, _ => 0)

  function ZeroPage(): Page { seq(512, _ => 0) }

  // ---------------------------------------------------------------- entries

  predicate IsValid(pte: int) { pte % 2 == 1 }

  /** PTE2PA, as a frame number. */
  function FrameOf(pte: int): int { pte / 1024 }

  /** PTE_FLAGS */
  function Flags(pte: int): int { pte % 1024 }

  /** PA2PTE(pa) | perm | PTE_V */
  function MakePte(frame: int, perm: int): int {
    1024 * frame + (if perm % 2 == 1 then perm else perm + 1)
  }

  lemma PteRoundTrip(frame: int, perm: int)
    requires 0 <= frame && 0 <= perm < 1024
    ensures IsValid(MakePte(frame, perm)) && FrameOf(MakePte(frame, perm)) == frame
    ensures Flags(MakePte(frame, perm)) == if perm % 2 == 1 then perm else perm + 1
  {
    var low := if perm % 2 == 1 then perm else perm + 1;
    SplitPte(frame, low);
    PteParity(frame, low);
  }

  lemma SplitPte(frame: int, low: int)
    requires 0 <= low < 1024
    ensures (1024 * frame + low) / 1024 == frame && (1024 * frame + low) % 1024 == low
  {
  }

  lemma PteParity(frame: int, low: int)
    ensures (1024 * frame + low) % 2 == low % 2
  {
    var k := 512 * frame;
    assert 1024 * frame + low == 2 * k + low;
  }

  /** PX(level, va) in terms of the virtual page. */
  function Px(level: int, vpn: int): int {
    if level == 2 then vpn / 0x4_0000 % 512 else if level == 1 then vpn / 512 % 512 else vpn % 512
  }

  lemma PxRecompose(v: int)
    requires 0 <= v < SPAN
    ensures v == 0x4_0000 * Px(2, v) + 512 * Px(1, v) + Px(0, v)
  {
    var a, r := v / 512, v % 512;
    var q, s := a / 512, a % 512;
    assert v == 0x4_0000 * q + (512 * s + r);
    assert v / 0x4_0000 == q;
  }

  lemma SameTop(v: int, w: int)
    requires v / 512 == w / 512
    ensures Px(2, v) == Px(2, w) && Px(1, v) == Px(1, w)
  {
    assert v / 0x4_0000 == v / 512 / 512 && w / 0x4_0000 == w / 512 / 512;
  }

  /** The three indices identify the page. */
  lemma PxInjective(v: int, w: int)
    requires 0 <= v < SPAN && 0 <= w < SPAN
    requires Px(2, v) == Px(2, w) && Px(1, v) == Px(1, w) && Px(0, v) == Px(0, w)
    ensures v == w
  {
    PxRecompose(v);
    PxRecompose(w);
  }

  // ---------------------------------------------------------------- the tree

  /** Tables are numbered: 0 is the root, 1 + i its child i, 513 + 512 * i + j the child j
      of that one. tbl[n] is the frame of table n, 0 if there is none. */
  function Child(n: int, i: int): int { if n == 0 then 1 + i else 1 + 512 * n + i }

  function Parent(n: int): int { if n <= 512 then 0 else (n - 1) / 512 }

  function IndexIn(n: int): int { if n <= 512 then n - 1 else (n - 1) % 512 }

  /** The lowest-level table and the level-1 table for a page. */
  function Low(vpn: int): int { 1 + 512 + vpn / 512 }

  function Mid(vpn: int): int { 1 + vpn / 0x4_0000 }

  lemma Path(vpn: int)
    requires 0 <= vpn < SPAN
    ensures 0 < Mid(vpn) <= 512 && 512 < Low(vpn) < NODES
    ensures Parent(Mid(vpn)) == 0 && IndexIn(Mid(vpn)) == Px(2, vpn) && Child(0, Px(2, vpn)) == Mid(vpn)
    ensures Parent(Low(vpn)) == Mid(vpn) && IndexIn(Low(vpn)) == Px(1, vpn) && Child(Mid(vpn), Px(1, vpn)) == Low(vpn)
  {
  }

  lemma ChildParent(n: int, i: int)
    requires 0 <= n <= 512 && 0 <= i < 512
    ensures 0 < Child(n, i) < NODES && Parent(Child(n, i)) == n && IndexIn(Child(n, i)) == i
  {
  }

  lemma ParentChild(n: int)
    requires 0 < n < NODES
    ensures 0 <= Parent(n) <= 512 && Parent(n) < n && 0 <= IndexIn(n) < 512 && Child(Parent(n), IndexIn(n)) == n
  {
  }

  /** What the entry for a child table must be. */
  predicate EntryIs(pte: int, frame: int) {
    if frame == 0 then !IsValid(pte) else pte == MakePte(frame, 0)
  }

  ghost predicate Tree(mem: seq<Page>, tbl: seq<int>) {
    && |tbl| == NODES
    && tbl[0] != 0
    && (forall n | 0 <= n < NODES && tbl[n] != 0 :: 0 < tbl[n] < |mem|)
    && (forall n | 0 < n < NODES ::
          if tbl[Parent(n)] == 0 then tbl[n] == 0 else EntryIs(mem[tbl[Parent(n)]][IndexIn(n)], tbl[n]))
  }

  /** The flat map: the leaf entry of a page, 0 if its table does not exist. */
  function Look(mem: seq<Page>, tbl: seq<int>, vpn: int): int {
    if 0 <= Low(vpn) < |tbl| && 0 < tbl[Low(vpn)] < |mem| then mem[tbl[Low(vpn)]][vpn % 512] else 0
  }

  // ---------------------------------------------------------------- frames

  /** What a frame is used for: table n or user page v of page table p. */
  datatype Use = Free | Table(p: int, n: int) | Leaf(p: int, v: int) | Other

  /** The free list holds exactly the free frames, each once. */
  ghost predicate FreeOk(use: seq<Use>, free: seq<int>) {
    && (forall i | 0 <= i < |free| :: 0 < free[i] < |use| && use[free[i]] == Free)
    && (forall i, j | 0 <= i < j < |free| :: free[i] != free[j])
    && (forall f | 0 <= f < |use| && use[f] == Free :: f in free)
  }

  predicate IsTable(u: Use, p: int) { u.Table? && u.p == p }

  predicate IsLeaf(u: Use, p: int) { u.Leaf? && u.p == p }

  /** The tables of page table p form the tree tbl, each in a frame accounted to it. */
  ghost predicate TablesOk(mem: seq<Page>, use: seq<Use>, p: int, tbl: seq<int>) {
    && |use| == |mem| && Tree(mem, tbl)
    && (forall n | 0 <= n < NODES && tbl[n] != 0 :: use[tbl[n]] == Table(p, n))
    && (forall f | 0 <= f < |use| && IsTable(use[f], p) :: 0 <= use[f].n < NODES && tbl[use[f].n] == f && f != 0)
  }

  /** The user pages of page table p have frames of their own, and no other frame is
      accounted to p as a user page. */
  ghost predicate LeavesOk(mem: seq<Page>, use: seq<Use>, p: int, tbl: seq<int>) {
    && (forall v {:trigger Look(mem, tbl, v)} | 0 <= v < USERPAGES && IsValid(Look(mem, tbl, v)) ::
          0 < FrameOf(Look(mem, tbl, v)) < |use| && use[FrameOf(Look(mem, tbl, v))] == Leaf(p, v))
    && (forall f | 0 <= f < |use| && IsLeaf(use[f], p) ::
          0 <= use[f].v < USERPAGES && IsValid(Look(mem, tbl, use[f].v)) && FrameOf(Look(mem, tbl, use[f].v)) == f)
  }

  ghost predicate PtOk(mem: seq<Page>, use: seq<Use>, p: int, tbl: seq<int>) {
    TablesOk(mem, use, p, tbl) && LeavesOk(mem, use, p, tbl)
  }

  ghost predicate SameLook(mem: seq<Page>, tbl: seq<int>, mem': seq<Page>, tbl': seq<int>) {
    forall v {:trigger Look(mem', tbl', v)} | 0 <= v < SPAN :: Look(mem', tbl', v) == Look(mem, tbl, v)
  }

  /** Frames not accounted to p do not matter to it. */
  lemma OtherFramesIrrelevant(mem: seq<Page>, use: seq<Use>, p: int, tbl: seq<int>, mem': seq<Page>, use': seq<Use>)
    requires TablesOk(mem, use, p, tbl) && |mem'| == |use'| == |mem|
    requires forall f | 0 <= f < |use| && IsTable(use[f], p) :: mem'[f] == mem[f] && use'[f] == use[f]
    requires forall f | 0 <= f < |use| && IsTable(use'[f], p) :: use[f] == use'[f]
    ensures TablesOk(mem', use', p, tbl) && SameLook(mem, tbl, mem', tbl)
  {
    forall v | 0 <= v < SPAN
      ensures Look(mem', tbl, v) == Look(mem, tbl, v)
    {
      Path(v);
    }
  }

  lemma KeepLeaves(mem: seq<Page>, use: seq<Use>, p: int, tbl: seq<int>, mem': seq<Page>, use': seq<Use>,
                   tbl': seq<int>)
    requires LeavesOk(mem, use, p, tbl) && |use'| == |use|
    requires forall v {:trigger Look(mem', tbl', v)} | 0 <= v < USERPAGES :: Look(mem', tbl', v) == Look(mem, tbl, v)
    requires forall f | 0 <= f < |use| && IsLeaf(use[f], p) :: use'[f] == use[f]
    requires forall f | 0 <= f < |use| && IsLeaf(use'[f], p) :: use'[f] == use[f]
    ensures LeavesOk(mem', use', p, tbl')
  {
  }

  /** Only tables were added to p: free frames may become tables of p, whose contents may
      change; nothing else does. */
  ghost predicate Grown(p: int, mem: seq<Page>, use: seq<Use>, mem': seq<Page>, use': seq<Use>) {
    && |mem| == |use| == |mem'| == |use'|
    && (forall f | 0 <= f < |use| :: use'[f] == use[f] || (use[f] == Free && IsTable(use'[f], p)))
    && (forall f | 0 <= f < |use| && use'[f] == use[f] && use[f] != Free && !IsTable(use[f], p) :: mem'[f] == mem[f])
  }

  /** A new empty table f for node n of page table p, whose parent exists. */
  ghost predicate TableAdded(mem: seq<Page>, use: seq<Use>, p: int, tbl: seq<int>, n: int, f: int, mem': seq<Page>,
                             use': seq<Use>, tbl': seq<int>) {
    && TablesOk(mem, use, p, tbl) && 0 < n < NODES && 0 <= Parent(n) < n && 0 <= IndexIn(n) < 512
    && tbl[n] == 0 && 0 < tbl[Parent(n)] < |mem|
    && 0 < f < |mem| && (use[f] == Free || use[f] == Other)
    && mem' == mem[f := ZeroPage()][tbl[Parent(n)] := mem[tbl[Parent(n)]][IndexIn(n) := MakePte(f, 0)]]
    && use' == use[f := Table(p, n)] && tbl' == tbl[n := f]
  }

  lemma AddTableLook(mem: seq<Page>, use: seq<Use>, p: int, tbl: seq<int>, n: int, f: int, mem': seq<Page>,
                     use': seq<Use>, tbl': seq<int>, v: int)
    requires TableAdded(mem, use, p, tbl, n, f, mem', use', tbl') && 0 <= v < SPAN
    ensures Look(mem', tbl', v) == Look(mem, tbl, v)
  {
    Path(v);
    var m := Low(v);
    ParentChild(n);
    assert tbl[Parent(n)] != f && (tbl[m] != 0 ==> tbl[m] != f && tbl[m] != tbl[Parent(n)]);
  }

  lemma AddTableTree(mem: seq<Page>, use: seq<Use>, p: int, tbl: seq<int>, n: int, f: int, mem': seq<Page>,
                     use': seq<Use>, tbl': seq<int>)
    requires TableAdded(mem, use, p, tbl, n, f, mem', use', tbl')
    ensures Tree(mem', tbl')
  {
    forall m | 0 < m < NODES
      ensures if tbl'[Parent(m)] == 0 then tbl'[m] == 0 else EntryIs(mem'[tbl'[Parent(m)]][IndexIn(m)], tbl'[m])
    {
      ParentChild(m);
      ParentChild(n);
      if m != n && Parent(m) == n {
        assert tbl[m] == 0;
      } else if m != n && tbl[Parent(m)] != 0 {
        assert tbl[Parent(m)] != f;
        assert Parent(m) == Parent(n) ==> IndexIn(m) != IndexIn(n);
        assert Parent(m) != Parent(n) ==> tbl[Parent(m)] != tbl[Parent(n)];
      }
    }
  }

  lemma AddTable(mem: seq<Page>, use: seq<Use>, p: int, tbl: seq<int>, n: int, f: int, mem': seq<Page>, use': seq<Use>,
                 tbl': seq<int>)
    requires TableAdded(mem, use, p, tbl, n, f, mem', use', tbl')
    ensures TablesOk(mem', use', p, tbl')
    ensures SameLook(mem, tbl, mem', tbl')
  {
    AddTableTree(mem, use, p, tbl, n, f, mem', use', tbl');
    forall v | 0 <= v < SPAN
      ensures Look(mem', tbl', v) == Look(mem, tbl, v)
    {
      AddTableLook(mem, use, p, tbl, n, f, mem', use', tbl', v);
    }
  }

  /** Writing the leaf entry of page v: the flat map changes at v only. */
  lemma SetLeafLook(mem: seq<Page>, use: seq<Use>, p: int, tbl: seq<int>, v: int, pte: int, mem': seq<Page>, w: int)
    requires TablesOk(mem, use, p, tbl) && 0 <= v < SPAN && 0 <= w < SPAN
    requires 0 < Low(v) < NODES && 0 < tbl[Low(v)] < |mem|
    requires mem' == mem[tbl[Low(v)] := mem[tbl[Low(v)]][v % 512 := pte]]
    ensures Look(mem', tbl, w) == if w == v then pte else Look(mem, tbl, w)
  {
    Path(w);
    if Low(w) == Low(v) && w % 512 == v % 512 {
      assert v / 512 == w / 512;
      SameTop(v, w);
      PxInjective(v, w);
    }
  }

  lemma SetLeafTree(mem: seq<Page>, use: seq<Use>, p: int, tbl: seq<int>, v: int, pte: int, mem': seq<Page>)
    requires TablesOk(mem, use, p, tbl) && 0 <= v < SPAN
    requires 0 < Low(v) < NODES && 0 < tbl[Low(v)] < |mem|
    requires mem' == mem[tbl[Low(v)] := mem[tbl[Low(v)]][v % 512 := pte]]
    ensures Tree(mem', tbl)
  {
    Path(v);
    forall m | 0 < m < NODES
      ensures if tbl[Parent(m)] == 0 then tbl[m] == 0 else EntryIs(mem'[tbl[Parent(m)]][IndexIn(m)], tbl[m])
    {
      ParentChild(m);
    }
  }

  /** The flat map after a change of the entry of page v. */
  ghost predicate LookSet(mem: seq<Page>, tbl: seq<int>, mem': seq<Page>, tbl': seq<int>, v: int, pte: int) {
    forall w {:trigger Look(mem', tbl', w)} | 0 <= w < SPAN ::
        Look(mem', tbl', w) == if w == v then pte else Look(mem, tbl, w)
  }

  lemma SetLeaf(mem: seq<Page>, use: seq<Use>, p: int, tbl: seq<int>, v: int, pte: int, mem': seq<Page>)
    requires TablesOk(mem, use, p, tbl) && 0 <= v < SPAN
    requires 0 < Low(v) < NODES && 0 < tbl[Low(v)] < |mem|
    requires mem' == mem[tbl[Low(v)] := mem[tbl[Low(v)]][v % 512 := pte]]
    ensures TablesOk(mem', use, p, tbl) && LookSet(mem, tbl, mem', tbl, v, pte)
  {
    SetLeafTree(mem, use, p, tbl, v, pte, mem');
    forall w | 0 <= w < SPAN
      ensures Look(mem', tbl, w) == if w == v then pte else Look(mem, tbl, w)
    {
      SetLeafLook(mem, use, p, tbl, v, pte, mem', w);
    }
  }

  /** Accounting a frame to the user page just mapped to it. */
  lemma MapLeaf(mem: seq<Page>, use: seq<Use>, p: int, tbl: seq<int>, v: int, pte: int, f: int, mem': seq<Page>,
                use': seq<Use>, tbl': seq<int>)
    requires LeavesOk(mem, use, p, tbl) && 0 <= v < USERPAGES && LookSet(mem, tbl, mem', tbl', v, pte)
    requires !IsValid(Look(mem, tbl, v)) && IsValid(pte) && FrameOf(pte) == f && 0 < f < |use|
    requires |use'| == |use| && use[f] == Other && use'[f] == Leaf(p, v)
    requires forall g | 0 <= g < |use| && g != f && (IsLeaf(use[g], p) || IsLeaf(use'[g], p)) :: use'[g] == use[g]
    ensures LeavesOk(mem', use', p, tbl')
  {
    assert Look(mem', tbl', v) == pte;
  }

  lemma UnmapLeaf(mem: seq<Page>, use: seq<Use>, p: int, tbl: seq<int>, v: int, f: int, mem': seq<Page>, use': seq<Use>)
    requires LeavesOk(mem, use, p, tbl) && 0 <= v < USERPAGES && LookSet(mem, tbl, mem', tbl, v, 0)
    requires IsValid(Look(mem, tbl, v)) && f == FrameOf(Look(mem, tbl, v)) && 0 <= f < |use|
    requires |use'| == |use| && (use'[f] == Other || use'[f] == Free)
    requires forall g | 0 <= g < |use| && g != f :: use'[g] == use[g]
    ensures LeavesOk(mem', use', p, tbl)
  {
    assert Look(mem', tbl, v) == 0;
  }
}
