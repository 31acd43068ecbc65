/** A page table that uvmfree of kernel/vm.c does not free completely: page 5 is mapped, but
    the size given is one page. freewalk meets the leaf, warns and goes on. */
module PageLeak {
  import opened PageTable
  import opened VirtualMemory

  /** Frames 1, 2 and 3 are the tables on the path to page 5, frame 4 is the page. */
  function Frames(): seq<Page> {
    [ZeroPage(), ZeroPage()[0 := MakePte(2, 0)], ZeroPage()[0 := MakePte(3, 0)], ZeroPage()[5 := MakePte(4, 22)],
        ZeroPage()]
  }

  function Uses(): seq<Use> { [Other, Table(0, 0), Table(0, 1), Table(0, 513), Leaf(0, 5)] }

  function TableAt(n: int): int { if n == 0 then 1 else if n == 1 then 2 else if n == 513 then 3 else 0 }

  ghost predicate Example(mem: seq<Page>, use: seq<Use>, tbl: seq<int>) {
    mem == Frames() && use == Uses() && |tbl| == NODES && forall n | 0 <= n < NODES :: tbl[n] == TableAt(n)
  }

  lemma ExampleTree(mem: seq<Page>, use: seq<Use>, tbl: seq<int>)
    requires Example(mem, use, tbl)
    ensures TablesOk(mem, use, 0, tbl)
  {
    PteRoundTrip(2, 0);
    PteRoundTrip(3, 0);
    forall n | 0 < n < NODES
      ensures if tbl[Parent(n)] == 0 then tbl[n] == 0 else EntryIs(mem[tbl[Parent(n)]][IndexIn(n)], tbl[n])
    {
      ParentChild(n);
    }
  }

  lemma ExampleLook(mem: seq<Page>, use: seq<Use>, tbl: seq<int>, v: int)
    requires Example(mem, use, tbl) && 0 <= v < SPAN
    ensures Look(mem, tbl, v) == if v == 5 then MakePte(4, 22) else 0
  {
    Path(v);
  }

  lemma ExampleOk(mem: seq<Page>, use: seq<Use>, tbl: seq<int>)
    requires Example(mem, use, tbl)
    ensures PtOk(mem, use, 0, tbl) && LeafFormat(mem, tbl) && PoolOk(1, mem, use, [])
  {
    ExampleTree(mem, use, tbl);
    PteRoundTrip(4, 22);
    forall v | 0 <= v < SPAN
      ensures Look(mem, tbl, v) == if v == 5 then MakePte(4, 22) else 0
    {
      ExampleLook(mem, use, tbl, v);
    }
  }

  /** After uvmfree with a size of one page the tables are free, but frame 4 still belongs to
      page 5: nothing refers to it any more. */
  method UvmfreeLeavesPage() returns (m: Memory)
    ensures m.Good() && m.use == [Other, Free, Free, Free, Leaf(0, 5)]
  {
    m := new Memory(1, 5);
    m.mem, m.free := Frames(), [];
    m.use := Uses();
    ghost var tbl := seq(NODES, n => TableAt(n));
    ExampleOk(m.mem, m.use, tbl);
    m.Uvmfree(0, tbl, 1, 4096);
  }
}
