/** The user-level allocator of user/umalloc.c: a circular, address-ordered, coalescing free
    list threaded through the blocks themselves. Addresses count Header units. */
module Malloc {

  const NULL: int := 0
  const UNIT: int := 16                       // sizeof(Header)
  const MINCORE: int := 4096
  const INT_LIMIT: int := 0x8000_0000         // sbrk takes an int

  /** Units for nbytes of payload plus the header. */
  function Units(nbytes: int): (u: int)
    requires 0 <= nbytes
    ensures u >= 1 && (u - 1) * UNIT >= nbytes && (u == 1 || (u - 2) * UNIT < nbytes)
  {
    (nbytes + UNIT - 1) / UNIT + 1
  }

  /** The free list: its blocks lie in increasing address order above the empty base
      without overlap; every link leads to the next block upwards, the last to the base. */
  ghost predicate ListOk(base: int, free: set<int>, ptr: seq<int>, size: seq<int>) {
    && 0 <= base < |ptr| == |size| && base in free && size[base] == 0
    && (forall x | x in free :: base <= x < |ptr|)
    && (forall x {:trigger ptr[x]} | x in free :: ptr[x] in free && (x < ptr[x] || ptr[x] == base))
    && (forall x, z {:trigger ptr[x], z in free} | x in free && z in free && x < z :: x < ptr[x] <= z)
    && (forall x | x in free && x != base :: size[x] >= 1)
    && (forall x, z | x in free && z in free && base < x < z :: x + size[x] <= z)
  }

  /** The block reached from x by following n links. */
  ghost function Walk(free: set<int>, ptr: seq<int>, x: int, n: nat): (y: int)
    requires x in free && forall z | z in free :: 0 <= z < |ptr|
    requires forall z {:trigger ptr[z]} | z in free :: ptr[z] in free
    ensures y in free
  {
    if n == 0 then x else ptr[Walk(free, ptr, x, n - 1)]
  }

  ghost function UpTo(free: set<int>, y: int, x: int): set<int> {
    set z | z in free && y < z <= x
  }

  /** Following the links from `from`, once y has been reached every block above it is. */
  lemma {:induction false} Upwards(base: int, free: set<int>, ptr: seq<int>, size: seq<int>, from: int, y: int, n: nat,
                                   x: int)
    returns (k: nat)
    requires ListOk(base, free, ptr, size) && from in free && y in free && x in free && y <= x
    requires Walk(free, ptr, from, n) == y
    ensures Walk(free, ptr, from, k) == x
    decreases UpTo(free, y, x)
  {
    if y == x {
      k := n;
    } else {
      assert Walk(free, ptr, from, n + 1) == ptr[y];
      assert ptr[y] in UpTo(free, y, x) && UpTo(free, ptr[y], x) <= UpTo(free, y, x);
      k := Upwards(base, free, ptr, size, from, ptr[y], n + 1, x);
    }
  }

  ghost function Above(free: set<int>, y: int): set<int> {
    set z | z in free && y < z
  }

  /** ... and then the base again. */
  lemma {:induction false} BackToBase(base: int, free: set<int>, ptr: seq<int>, size: seq<int>, from: int, y: int,
                                      n: nat)
    returns (k: nat)
    requires ListOk(base, free, ptr, size) && from in free && y in free && Walk(free, ptr, from, n) == y
    ensures Walk(free, ptr, from, k) == base
    decreases Above(free, y)
  {
    assert Walk(free, ptr, from, n + 1) == ptr[y];
    if ptr[y] == base {
      k := n + 1;
    } else {
      assert y < ptr[y] && ptr[y] in Above(free, y) && ptr[y] !in Above(free, ptr[y])
          && Above(free, ptr[y]) <= Above(free, y);
      k := BackToBase(base, free, ptr, size, from, ptr[y], n + 1);
    }
  }

  /** Circularity: the links form one ring, on which every free block is reached from every
      other. */
  lemma EveryBlockOnTheRing(base: int, free: set<int>, ptr: seq<int>, size: seq<int>, from: int, x: int)
    requires ListOk(base, free, ptr, size) && from in free && x in free
    ensures exists k :: Walk(free, ptr, from, k) == x
  {
    var n := BackToBase(base, free, ptr, size, from, from, 0);
    var k := Upwards(base, free, ptr, size, from, base, n, x);
  }

  /** Free block x ends exactly where the following one begins. */
  predicate Touching(base: int, ptr: seq<int>, size: seq<int>, x: int) {
    0 <= x < |ptr| && x < |size| && x != base && x + size[x] == ptr[x]
  }

  predicate Apart(a: int, n: int, b: int, m: int) { a + n <= b || b + m <= a }

  /** Allocated blocks carry their size in their header and overlap neither each other nor
      a free block. */
  ghost predicate LiveOk(base: int, free: set<int>, size: seq<int>, live: map<int, int>) {
    && (forall x | x in free :: 0 <= x < |size|)
    && (forall a | a in live :: 0 <= base < a < |size| && size[a] == live[a] >= 1)
    && (forall a, b | a in live && b in live && a != b :: Apart(a, live[a], b, live[b]))
    && (forall a, x | a in live && x in free && x != base :: Apart(a, live[a], x, size[x]))
  }

  ghost predicate InFree(free: set<int>, size: seq<int>, u: int) {
    exists x :: x in free && 0 <= x < |size| && x <= u < x + size[x]
  }

  ghost predicate InLive(live: map<int, int>, u: int) {
    exists a :: a in live && a <= u < a + live[a]
  }

  /** Conservation: the units obtained from sbrk are exactly those of free and live blocks. */
  ghost predicate Conserved(arena: set<int>, free: set<int>, size: seq<int>, live: map<int, int>) {
    forall u :: u in arena <==> InFree(free, size, u) || InLive(live, u)
  }

  // ---------------------------------------------------------------- the list updates

  /** Linking the allocated block bp in after p, before any merging. */
  lemma InsertKeepsList(base: int, free: set<int>, ptr: seq<int>, size: seq<int>, p: int, bp: int, free': set<int>,
                        ptr': seq<int>)
    requires ListOk(base, free, ptr, size) && p in free && p < bp && (ptr[p] == base || bp < ptr[p])
    requires base < bp < |size| && size[bp] >= 1
    requires forall x | x in free && x != base :: Apart(bp, size[bp], x, size[x])
    requires free' == free + {bp} && ptr' == ptr[bp := ptr[p]][p := bp]
    ensures ListOk(base, free', ptr', size)
  {
  }

  lemma InsertKeepsLive(base: int, free: set<int>, size: seq<int>, live: map<int, int>, bp: int)
    requires LiveOk(base, free, size, live) && bp in live
    ensures LiveOk(base, free + {bp}, size, live - {bp})
  {
  }

  lemma InsertConserves(arena: set<int>, free: set<int>, size: seq<int>, live: map<int, int>, bp: int)
    requires Conserved(arena, free, size, live) && bp in live && 0 <= bp < |size| && size[bp] == live[bp]
    ensures Conserved(arena, free + {bp}, size, live - {bp})
  {
    forall u
      ensures InFree(free, size, u) || InLive(live, u) <==> InFree(free + {bp}, size, u) || InLive(live - {bp}, u)
    {
      if InFree(free, size, u) {
        var x :| x in free && 0 <= x < |size| && x <= u < x + size[x];
        assert x in free + {bp};
      }
      if InLive(live, u) {
        var a :| a in live && a <= u < a + live[a];
        assert a == bp || a in live - {bp};
        assert a == bp ==> bp in free + {bp};
      }
    }
  }

  /** Merging a block x with the block that follows it, which it touches. */
  lemma MergeKeepsList(base: int, free: set<int>, ptr: seq<int>, size: seq<int>, x: int, y: int, free': set<int>,
                       ptr': seq<int>, size': seq<int>)
    requires ListOk(base, free, ptr, size) && x in free && Touching(base, ptr, size, x) && y == ptr[x]
    requires free' == free - {y} && 0 <= y < |ptr| && ptr' == ptr[x := ptr[y]] && size' == size[x := size[x] + size[y]]
    ensures y in free && y != base && size[y] >= 1 && ListOk(base, free', ptr', size')
  {
    assert y in free && base < x < y;
    MergeSizes(base, free, ptr, size, x, y, free', size');
    forall a, z | a in free' && z in free' && a < z
      ensures a < ptr'[a] <= z
    {
      assert a < ptr[a] <= z;
    }
  }

  lemma MergeSizes(base: int, free: set<int>, ptr: seq<int>, size: seq<int>, x: int, y: int, free': set<int>,
                   size': seq<int>)
    requires ListOk(base, free, ptr, size) && x in free && y in free && base < x < y && y == ptr[x] == x + size[x]
    requires free' == free - {y} && size' == size[x := size[x] + size[y]]
    ensures forall a, z | a in free' && z in free' && base < a < z :: a + size'[a] <= z
  {
    forall a, z | a in free' && z in free' && base < a < z
      ensures a + size'[a] <= z
    {
      assert a + size[a] <= z;
      if a == x {
        assert ptr[x] <= z;
      }
    }
  }

  lemma MergeKeepsLive(base: int, free: set<int>, size: seq<int>, live: map<int, int>, x: int, y: int, free': set<int>,
                       size': seq<int>)
    requires 0 <= base && LiveOk(base, free, size, live) && x in free && y in free && x != base && y != base
    requires y == x + size[x] && size[x] >= 1 && size[y] >= 1
    requires free' == free - {y} && size' == size[x := size[x] + size[y]]
    ensures LiveOk(base, free', size', live)
  {
    assert forall a | a in live :: Apart(a, live[a], x, size[x]) && Apart(a, live[a], y, size[y]);
  }

  lemma MergeConserves(arena: set<int>, free: set<int>, size: seq<int>, live: map<int, int>, x: int, y: int)
    requires Conserved(arena, free, size, live) && x in free && y in free && 0 <= x < |size| && 0 <= y < |size|
    requires y == x + size[x] && size[x] >= 1 && size[y] >= 1
    ensures Conserved(arena, free - {y}, size[x := size[x] + size[y]], live)
  {
    var size' := size[x := size[x] + size[y]];
    forall u
      ensures InFree(free - {y}, size', u) <==> InFree(free, size, u)
    {
      if InFree(free, size, u) {
        var z :| z in free && 0 <= z < |size| && z <= u < z + size[z];
        if z == y {
          assert x in free - {y} && x <= u < x + size'[x];
        } else {
          assert z in free - {y} && z <= u < z + size'[z];
        }
      }
      if InFree(free - {y}, size', u) {
        var z :| z in free - {y} && 0 <= z < |size'| && z <= u < z + size'[z];
        if z == x && u >= y {
          assert y in free && y <= u < y + size[y];
        } else {
          assert z in free && z <= u < z + size[z];
        }
      }
    }
  }

  /** The whole heap invariant, except that the blocks in `loose` may touch their successor. */
  ghost predicate Good(base: int, free: set<int>, ptr: seq<int>, size: seq<int>, live: map<int, int>, arena: set<int>,
                       loose: set<int>) {
    && ListOk(base, free, ptr, size) && LiveOk(base, free, size, live) && Conserved(arena, free, size, live)
    && forall x {:trigger ptr[x]} | x in free && x !in loose && x != base :: x + size[x] != ptr[x]
  }

  lemma InsertOk(base: int, free: set<int>, ptr: seq<int>, size: seq<int>, live: map<int, int>, arena: set<int>, p: int,
                 bp: int, free': set<int>, ptr': seq<int>, live': map<int, int>)
    requires Good(base, free, ptr, size, live, arena, {}) && Slot(base, free, ptr, live, p, bp)
    requires free' == free + {bp} && ptr' == ptr[bp := ptr[p]][p := bp] && live' == live - {bp}
    ensures Good(base, free', ptr', size, live', arena, {p, bp})
  {
    InsertKeepsList(base, free, ptr, size, p, bp, free', ptr');
    InsertKeepsLive(base, free, size, live, bp);
    InsertConserves(arena, free, size, live, bp);
    assert bp !in free;
  }

  lemma MergeOk(base: int, free: set<int>, ptr: seq<int>, size: seq<int>, live: map<int, int>, arena: set<int>,
                loose: set<int>, x: int, y: int, free': set<int>, ptr': seq<int>, size': seq<int>, loose': set<int>)
    requires Good(base, free, ptr, size, live, arena, loose)
    requires x in free && Touching(base, ptr, size, x) && y == ptr[x] && y !in loose && 0 <= y < |ptr|
    requires free' == free - {y} && ptr' == ptr[x := ptr[y]] && size' == size[x := size[x] + size[y]]
    requires loose' == loose - {x}
    ensures Good(base, free', ptr', size', live, arena, loose')
  {
    MergeKeepsList(base, free, ptr, size, x, y, free', ptr', size');
    MergeKeepsLive(base, free, size, live, x, y, free', size');
    MergeConserves(arena, free, size, live, x, y);
  }

  lemma Tighten(base: int, free: set<int>, ptr: seq<int>, size: seq<int>, live: map<int, int>, arena: set<int>,
                loose: set<int>, x: int)
    requires Good(base, free, ptr, size, live, arena, loose + {x}) && !Touching(base, ptr, size, x)
    ensures Good(base, free, ptr, size, live, arena, loose)
  {
  }

  /** p is the free block after which the allocated block bp belongs. */
  ghost predicate Slot(base: int, free: set<int>, ptr: seq<int>, live: map<int, int>, p: int, bp: int) {
    p in free && bp in live && 0 <= p < bp && p < |ptr| && ptr[p] in free && (ptr[p] == base || bp < ptr[p])
  }

  /** First half of free(): bp absorbs the block nxt after p if it touches it; p is linked
      to bp and may still touch it. */
  lemma AbsorbNextOk(base: int, free: set<int>, ptr: seq<int>, size: seq<int>, live: map<int, int>, arena: set<int>,
                     p: int, bp: int, free': set<int>, ptr': seq<int>, size': seq<int>, live': map<int, int>)
    requires Good(base, free, ptr, size, live, arena, {}) && Slot(base, free, ptr, live, p, bp) && live' == live - {bp}
    requires var nxt := ptr[p];
      if bp + size[bp] == nxt then
        free' == free + {bp} - {nxt} && ptr' == ptr[bp := ptr[nxt]][p := bp]
            && size' == size[bp := size[bp] + size[nxt]]
      else free' == free + {bp} && ptr' == ptr[bp := nxt][p := bp] && size' == size
    ensures Good(base, free', ptr', size', live', arena, {p})
  {
    var nxt := ptr[p];
    var ptr1 := ptr[bp := nxt][p := bp];
    InsertOk(base, free, ptr, size, live, arena, p, bp, free + {bp}, ptr1, live');
    if bp + size[bp] == nxt {
      assert ptr1[bp := ptr1[nxt]] == ptr';
      MergeOk(base, free + {bp}, ptr1, size, live', arena, {p, bp}, bp, nxt, free', ptr', size', {p});
    } else {
      assert {p} + {bp} == {p, bp};
      Tighten(base, free', ptr', size', live', arena, {p}, bp);
    }
  }

  /** Second half of free(): p absorbs bp if it touches it. */
  lemma JoinPreviousOk(base: int, free: set<int>, ptr: seq<int>, size: seq<int>, live: map<int, int>, arena: set<int>,
                       p: int, bp: int, free': set<int>, ptr': seq<int>, size': seq<int>)
    requires Good(base, free, ptr, size, live, arena, {p}) && p in free && bp in free && p < bp && ptr[p] == bp
    requires if p + size[p] == bp then
               free' == free - {bp} && ptr' == ptr[p := ptr[bp]] && size' == size[p := size[p] + size[bp]]
             else free' == free && ptr' == ptr && size' == size
    ensures Good(base, free', ptr', size', live, arena, {})
  {
    if p + size[p] == bp {
      MergeOk(base, free, ptr, size, live, arena, {p}, p, bp, free', ptr', size', {});
    } else {
      Tighten(base, free, ptr, size, live, arena, {}, p);
    }
  }

  /** Both halves: the list after free() holds all units of bp in one block. */
  lemma FreeOk(base: int, free: set<int>, ptr: seq<int>, size: seq<int>, live: map<int, int>, arena: set<int>, p: int,
               bp: int, free1: set<int>, ptr1: seq<int>, size1: seq<int>, free': set<int>, ptr': seq<int>,
               size': seq<int>)
    requires Good(base, free, ptr, size, live, arena, {}) && Slot(base, free, ptr, live, p, bp)
    requires var nxt := ptr[p];
      if bp + size[bp] == nxt then
        free1 == free + {bp} - {nxt} && ptr1 == ptr[bp := ptr[nxt]] && size1 == size[bp := size[bp] + size[nxt]]
      else free1 == free + {bp} && ptr1 == ptr[bp := nxt] && size1 == size
    requires if p + size1[p] == bp then
               free' == free1 - {bp} && ptr' == ptr1[p := ptr1[bp]] && size' == size1[p := size1[p] + size1[bp]]
             else free' == free1 && ptr' == ptr1[p := bp] && size' == size1
    ensures Good(base, free', ptr', size', live - {bp}, arena, {})
    ensures p in free' && |ptr'| == |size'| == |ptr|
    ensures exists x :: x in free' && x != base && x <= bp && bp + live[bp] <= x + size'[x]
  {
    var linked := ptr1[p := bp];
    AbsorbNextOk(base, free, ptr, size, live, arena, p, bp, free1, linked, size1, live - {bp});
    if p + size1[p] == bp {
      assert linked[p := linked[bp]] == ptr';
    }
    JoinPreviousOk(base, free1, linked, size1, live - {bp}, arena, p, bp, free', ptr', size');
    var x := if p + size1[p] == bp then p else bp;
    assert x in free' && x != base && x <= bp && bp + live[bp] <= x + size'[x];
  }

  /** Free blocks still to be passed on the way from p up to bp, or up to the last block. */
  ghost function Ahead(free: set<int>, p: int, bp: int): set<int> {
    set x | x in free && p < x && (p < bp ==> x < bp)
  }

  // ---------------------------------------------------------------- malloc: taking a block

  /** Exact fit: p leaves the list. */
  lemma UnlinkKeepsList(base: int, free: set<int>, ptr: seq<int>, size: seq<int>, prevp: int, p: int)
    requires ListOk(base, free, ptr, size) && prevp in free && p == ptr[prevp] && p != base
    ensures p in free && ListOk(base, free - {p}, ptr[prevp := ptr[p]], size)
  {
  }

  lemma UnlinkKeepsLive(base: int, free: set<int>, size: seq<int>, live: map<int, int>, p: int)
    requires LiveOk(base, free, size, live) && p in free && 0 <= base < p && size[p] >= 1
    requires forall x | x in free && x != p && x != base :: Apart(p, size[p], x, size[x])
    ensures p !in live && LiveOk(base, free - {p}, size, live[p := size[p]])
  {
    assert forall a | a in live :: Apart(a, live[a], p, size[p]);
  }

  lemma UnlinkConserves(arena: set<int>, free: set<int>, size: seq<int>, live: map<int, int>, p: int)
    requires Conserved(arena, free, size, live) && p in free && 0 <= p < |size| && p !in live
    ensures Conserved(arena, free - {p}, size, live[p := size[p]])
  {
    var free', live' := free - {p}, live[p := size[p]];
    forall u
      ensures InFree(free, size, u) || InLive(live, u) <==> InFree(free', size, u) || InLive(live', u)
    {
      if InFree(free, size, u) {
        var x :| x in free && 0 <= x < |size| && x <= u < x + size[x];
        assert x in free' || (x == p && p in live');
      }
      if InLive(live, u) {
        var a :| a in live && a <= u < a + live[a];
        assert a in live' && live'[a] == live[a];
      }
    }
  }

  lemma TakeWholeOk(base: int, free: set<int>, ptr: seq<int>, size: seq<int>, live: map<int, int>, arena: set<int>,
                    prevp: int, p: int, free': set<int>, ptr': seq<int>, live': map<int, int>)
    requires Good(base, free, ptr, size, live, arena, {}) && prevp in free && p == ptr[prevp] && p != base
    requires p in free && free' == free - {p} && ptr' == ptr[prevp := ptr[p]] && live' == live[p := size[p]]
    ensures p !in live && Good(base, free', ptr', size, live', arena, {})
  {
    UnlinkKeepsList(base, free, ptr, size, prevp, p);
    UnlinkKeepsLive(base, free, size, live, p);
    UnlinkConserves(arena, free, size, live, p);
  }

  /** Larger block: its tail q is handed out, the block itself stays in place. */
  lemma SplitKeepsLive(base: int, free: set<int>, size: seq<int>, live: map<int, int>, p: int, n: int, q: int,
                       size': seq<int>, live': map<int, int>)
    requires LiveOk(base, free, size, live) && p in free && 0 <= base < p && 1 <= n < size[p]
    requires forall x | x in free && x != p && x != base :: Apart(p, size[p], x, size[x])
    requires forall x | x in free && x != base :: size[x] >= 1
    requires q == p + size[p] - n && q < |size|
    requires size' == size[p := size[p] - n][q := n] && live' == live[q := n]
    ensures q !in live && (q !in free || q == base) && LiveOk(base, free, size', live')
  {
    assert forall a | a in live :: Apart(a, live[a], p, size[p]);
    forall a | a in live
      ensures a != q && size'[a] == live'[a] == live[a] && Apart(a, live[a], q, n)
    {
    }
    forall x | x in free && x != base
      ensures Apart(q, n, x, size'[x]) && size'[x] <= size[x]
    {
    }
  }

  lemma SplitConserves(arena: set<int>, free: set<int>, size: seq<int>, live: map<int, int>, p: int, n: int, q: int)
    requires Conserved(arena, free, size, live) && p in free && 0 <= p < |size| && 1 <= n < size[p]
    requires q == p + size[p] - n && q < |size| && q !in live && q !in free
    ensures Conserved(arena, free, size[p := size[p] - n][q := n], live[q := n])
  {
    var size', live' := size[p := size[p] - n][q := n], live[q := n];
    forall u
      ensures InFree(free, size, u) || InLive(live, u) <==> InFree(free, size', u) || InLive(live', u)
    {
      if InFree(free, size, u) {
        var x :| x in free && 0 <= x < |size| && x <= u < x + size[x];
        assert (x == p && u >= q) || x <= u < x + size'[x];
        assert q in live';
      }
      if InLive(live, u) {
        var a :| a in live && a <= u < a + live[a];
        assert a in live' && live'[a] == live[a];
      }
      if InFree(free, size', u) {
        var x :| x in free && 0 <= x < |size'| && x <= u < x + size'[x];
        assert x <= u < x + size[x];
      }
      if InLive(live', u) {
        var a :| a in live' && a <= u < a + live'[a];
        assert a == q ==> p <= u < p + size[p];
      }
    }
  }

  lemma TakeTailOk(base: int, free: set<int>, ptr: seq<int>, size: seq<int>, live: map<int, int>, arena: set<int>,
                   p: int, n: int, q: int, size': seq<int>, live': map<int, int>)
    requires Good(base, free, ptr, size, live, arena, {}) && p in free && 1 <= n < size[p] && p != base
    requires q == p + size[p] - n && q < |size|
    requires size' == size[p := size[p] - n][q := n] && live' == live[q := n]
    ensures q !in live && Good(base, free, ptr, size', live', arena, {})
  {
    SplitKeepsLive(base, free, size, live, p, n, q, size', live');
    SplitConserves(arena, free, size, live, p, n, q);
  }

  /** The addresses lo .. lo + n - 1. */
  ghost function Range(lo: int, n: nat): (r: set<int>)
    ensures forall u :: u in r <==> lo <= u < lo + n
  {
    if n == 0 then {} else Range(lo, n - 1) + {lo + n - 1}
  }

  /** Everything obtained so far lies below hp. */
  lemma BlocksBelow(base: int, free: set<int>, ptr: seq<int>, size: seq<int>, live: map<int, int>, arena: set<int>,
                    hp: int)
    requires Good(base, free, ptr, size, live, arena, {}) && forall u | u in arena :: u < hp
    ensures forall x | x in free && x != base :: x + size[x] <= hp
    ensures forall a | a in live :: a + live[a] <= hp
  {
    forall x | x in free && x != base
      ensures x + size[x] <= hp
    {
      assert InFree(free, size, x + size[x] - 1);
    }
    forall a | a in live
      ensures a + live[a] <= hp
    {
      assert InLive(live, a + live[a] - 1);
    }
  }

  lemma NewCoreConserves(arena: set<int>, free: set<int>, size: seq<int>, live: map<int, int>, hp: int, n: nat)
    requires Conserved(arena, free, size, live) && 0 <= hp < |size| && hp !in live && hp !in free
    ensures Conserved(arena + Range(hp, n), free, size[hp := n], live[hp := n])
  {
    var size', live' := size[hp := n], live[hp := n];
    forall u
      ensures u in arena || hp <= u < hp + n <==> InFree(free, size', u) || InLive(live', u)
    {
      if InFree(free, size, u) {
        var x :| x in free && 0 <= x < |size| && x <= u < x + size[x];
        assert x <= u < x + size'[x];
      }
      if InLive(live, u) {
        var a :| a in live && a <= u < a + live[a];
        assert a in live' && live'[a] == live[a];
      }
      if hp <= u < hp + n {
        assert hp in live' && live'[hp] == n;
      }
      if InFree(free, size', u) {
        var x :| x in free && 0 <= x < |size'| && x <= u < x + size'[x];
        assert x <= u < x + size[x];
      }
    }
  }

  /** A fresh region from sbrk, above everything obtained before, becomes an allocated
      block (which morecore then frees). */
  lemma NewCoreOk(base: int, free: set<int>, ptr: seq<int>, size: seq<int>, live: map<int, int>, arena: set<int>,
                  hp: int, n: nat, size': seq<int>, live': map<int, int>, arena': set<int>)
    requires Good(base, free, ptr, size, live, arena, {}) && 1 <= n && base < hp < |size|
    requires forall u | u in arena :: u < hp
    requires size' == size[hp := n] && live' == live[hp := n] && arena' == arena + Range(hp, n)
    ensures hp !in live && Good(base, free, ptr, size', live', arena', {})
  {
    BlocksBelow(base, free, ptr, size, live, arena, hp);
    NewCoreLive(base, free, size, live, hp, n, size', live');
    NewCoreConserves(arena, free, size, live, hp, n);
  }

  lemma NewCoreLive(base: int, free: set<int>, size: seq<int>, live: map<int, int>, hp: int, n: nat, size': seq<int>,
                    live': map<int, int>)
    requires LiveOk(base, free, size, live) && 0 <= base < hp < |size| && 1 <= n
    requires forall x | x in free && x != base :: x + size[x] <= hp && size[x] >= 1
    requires forall a | a in live :: a + live[a] <= hp
    requires size' == size[hp := n] && live' == live[hp := n]
    ensures hp !in live && hp !in free && LiveOk(base, free, size', live')
  {
    assert forall a | a in live :: a < hp && live'[a] == live[a] && Apart(a, live[a], hp, n);
  }

  /** Blocks that malloc's scan will still look at, from p around to its end freep. */
  ghost function Rest(free: set<int>, p: int, freep: int): set<int> {
    if p <= freep then set x | x in free && p <= x <= freep else set x | x in free && (p <= x || x <= freep)
  }

  lemma ScanStep(base: int, free: set<int>, ptr: seq<int>, size: seq<int>, p: int, freep: int)
    requires ListOk(base, free, ptr, size) && p in free && freep in free
    ensures p in Rest(free, p, freep)
    ensures p != freep ==> Rest(free, ptr[p], freep) == Rest(free, p, freep) - {p}
    ensures p == freep ==> Rest(free, p, freep) == {p}
    ensures Rest(free, ptr[freep], freep) == free
  {
  }

  // ---------------------------------------------------------------- the allocator

  lemma AddRemove(live: map<int, int>, a: int, n: int)
    requires a !in live
    ensures live[a := n] - {a} == live
  {
  }

  /** What morecore asks sbrk for. */
  function CoreUnits(nu: int): int { if nu < MINCORE then MINCORE else nu }

  /** Some free block has n units. */
  ghost predicate HasFit(free: set<int>, size: seq<int>, n: int) {
    exists x :: x in free && 0 <= x < |size| && size[x] >= n
  }

  class Heap {
    const base: int                 // &base, below every sbrk'd address
    var ptr: seq<int>               // s.ptr of the header at each address
    var size: seq<int>              // s.size of the header at each address
    var freep: int
    var brk: int                    // first unit not yet handed out by sbrk
    ghost var free: set<int>        // blocks on the list, with the base
    ghost var live: map<int, int>   // blocks handed out, with their size in units
    ghost var arena: set<int>       // units obtained from sbrk
    ghost var asked: seq<(int, bool)>   // units asked of sbrk, and whether they were granted

    ghost predicate Valid()
      reads this
    {
      && NULL < base < brk <= |ptr| == |size|
      && (forall u | u in arena :: base < u < brk)
      && (freep == NULL ==> free == {} && live == map[] && arena == {})
      && (freep != NULL ==>
            freep in free && Good(base, free, ptr, size, live, arena, {}))
    }

    constructor (base: int, brk: int, limit: int)
      requires NULL < base < brk <= limit
      ensures Valid() && freep == NULL && live == map[] && arena == {}
    {
      this.base, this.brk, this.freep := base, brk, NULL;
      this.ptr, this.size := seq(limit, _ => 0), seq(limit, _ => 0);
      this.free, this.live, this.arena, this.asked := {}, map[], {}, [];
    }

    /** The search loop of free(): finds the free block after which bp belongs. */
    method FindSlot(bp: int) returns (p: int)
      requires Valid() && freep != NULL && bp in live
      ensures Slot(base, free, ptr, live, p, bp)
    {
      p := freep;
      assert bp !in free;
      while !(bp > p && bp < ptr[p])
        invariant p in free
        decreases if p < bp then 0 else 1, Ahead(free, p, bp)
      {
        if p >= ptr[p] && (bp > p || bp < ptr[p]) { break; }
        assert p < bp || p < ptr[p] ==> ptr[p] in Ahead(free, p, bp) && Ahead(free, ptr[p], bp) <= Ahead(free, p, bp);
        p := ptr[p];
      }
    }

    /** free(ap), with bp the header of ap: the block leaves the allocated ones and its
        units become part of one free block; the list stays ordered and coalesced. */
    method Free(ap: int)
      requires Valid() && ap - 1 in live
      modifies this`ptr, this`size, this`freep, this`free, this`live
      ensures Valid() && freep != NULL
      ensures live == old(live) - {ap - 1}
      ensures exists x :: x in free && x != base && x <= ap - 1 && ap - 1 + old(live)[ap - 1] <= x + size[x]
    {
      var bp := ap - 1;
      var p := FindSlot(bp);
      LinkIn(p, bp);
    }

    /** The second part of free(): link bp in after p and coalesce on both sides. */
    method LinkIn(p: int, bp: int)
      requires Valid() && freep != NULL && Slot(base, free, ptr, live, p, bp)
      modifies this`ptr, this`size, this`freep, this`free, this`live
      ensures Valid() && freep != NULL
      ensures live == old(live) - {bp}
      ensures exists x :: x in free && x != base && x <= bp && bp + old(live)[bp] <= x + size[x]
    {
      var pt, sz := ptr, size;
      var nxt := pt[p];
      ghost var free1, free' := free + {bp}, {};
      if bp + sz[bp] == nxt {
        sz := sz[bp := sz[bp] + sz[nxt]];
        pt := pt[bp := pt[nxt]];
        free1 := free1 - {nxt};
      } else {
        pt := pt[bp := nxt];
      }
      ghost var pt1, sz1 := pt, sz;
      if p + sz[p] == bp {
        sz := sz[p := sz[p] + sz[bp]];
        pt := pt[p := pt[bp]];
        free' := free1 - {bp};
      } else {
        pt := pt[p := bp];
        free' := free1;
      }
      FreeOk(base, free, ptr, size, live, arena, p, bp, free1, pt1, sz1, free', pt, sz);
      ptr, size, freep := pt, sz, p;
      free, live := free', live - {bp};
    }

    /** sbrk(n units): refused, or a region above everything handed out so far. */
    method Sbrk(n: int) returns (p: int)
      requires 0 <= n && NULL < brk
      modifies this`brk, this`asked
      ensures asked == old(asked) + [(n, p != -1)] && (p == -1 ==> brk == old(brk))
      ensures p != -1 ==> old(brk) <= p && brk == p + n && brk <= |ptr|
    {
      var granted: bool, at: int := *, *;
      if granted && brk <= at && at + n <= |ptr| {
        p, brk := at, at + n;
      } else {
        p := -1;
      }
      asked := asked + [(n, p != -1)];
    }

    /** hp->s.size = n for a region just obtained; for the model it becomes an allocated block. */
    method Adopt(hp: int, n: int)
      requires Valid() && freep != NULL && 1 <= n && base < hp && hp + n <= brk
      requires forall u | u in arena :: u < hp
      modifies this`size, this`live, this`arena
      ensures Valid() && hp !in old(live) && live == old(live)[hp := n] && arena == old(arena) + Range(hp, n)
    {
      NewCoreOk(base, free, ptr, size, live, arena, hp, n, size[hp := n], live[hp := n], arena + Range(hp, n));
      size := size[hp := n];
      live := live[hp := n];
      arena := arena + Range(hp, n);
    }

    /** morecore(nu): on success some free block holds at least nu units. */
    method Morecore(nu: int) returns (r: int, ghost hp: int)
      requires Valid() && freep != NULL && 1 <= nu && nu * UNIT < INT_LIMIT
      modifies this`ptr, this`size, this`freep, this`brk, this`free, this`live, this`arena, this`asked
      ensures Valid() && freep != NULL && live == old(live) && old(arena) <= arena
      ensures asked == old(asked) + [(CoreUnits(nu), r != NULL)]
      ensures r != NULL ==> arena == old(arena) + Range(hp, CoreUnits(nu))
      ensures r == NULL ==> arena == old(arena) && free == old(free) && size == old(size) && ptr == old(ptr)
      ensures r == NULL ==> freep == old(freep)
      ensures r != NULL ==> r == freep && exists x :: x in free && x != base && size[x] >= nu
    {
      var n := if nu < MINCORE then MINCORE else nu;
      var p := Sbrk(n);
      hp := p;
      if p == -1 { return NULL, hp; }
      AddCore(p, n);
      r := freep;
    }

    /** The new region goes to the free list through free(). */
    method AddCore(hp: int, n: int)
      requires Valid() && freep != NULL && 1 <= n && base < hp && hp + n <= brk
      requires forall u | u in arena :: u < hp
      modifies this`ptr, this`size, this`freep, this`free, this`live, this`arena
      ensures Valid() && freep != NULL && live == old(live) && arena == old(arena) + Range(hp, n)
      ensures exists x :: x in free && x != base && size[x] >= n
    {
      Adopt(hp, n);
      AddRemove(old(live), hp, n);
      FreeBack(hp, n);
    }

    method FreeBack(hp: int, n: int)
      requires Valid() && freep != NULL && hp in live && live[hp] == n
      modifies this`ptr, this`size, this`freep, this`free, this`live
      ensures Valid() && freep != NULL && live == old(live) - {hp}
      ensures exists x :: x in free && x != base && size[x] >= n
    {
      Free(hp + 1);
    }

    /** malloc's exact fit: p is unlinked. */
    method TakeWhole(prevp: int, p: int)
      requires Valid() && freep != NULL && prevp in free && p == ptr[prevp] && p in free && p != base
      modifies this`ptr, this`freep, this`free, this`live
      ensures Valid() && freep != NULL && p !in old(live) && live == old(live)[p := size[p]]
    {
      ghost var free', live' := free - {p}, live[p := size[p]];
      var pt := ptr[prevp := ptr[p]];
      TakeWholeOk(base, free, ptr, size, live, arena, prevp, p, free', pt, live');
      assert prevp in free';
      ptr, freep := pt, prevp;
      free, live := free', live';
    }

    /** malloc's larger block: the tail hp is cut off and handed out. */
    method TakeTail(prevp: int, p: int, nunits: int) returns (hp: int)
      requires Valid() && freep != NULL && prevp in free && p in free && 1 <= nunits < size[p]
      modifies this`size, this`freep, this`live
      ensures Valid() && freep != NULL && NULL < hp && hp !in old(live) && live == old(live)[hp := nunits]
    {
      hp := p + size[p] - nunits;
      BlocksBelow(base, free, ptr, size, live, arena, brk);
      var sz := size[p := size[p] - nunits][hp := nunits];
      ghost var live' := live[hp := nunits];
      TakeTailOk(base, free, ptr, size, live, arena, p, nunits, hp, sz, live');
      size, freep := sz, prevp;
      live := live';
    }

    /** First use: the list is the base alone. */
    method Init()
      requires Valid() && freep == NULL
      modifies this`ptr, this`size, this`freep, this`free
      ensures Valid() && freep != NULL && free == {base} && size == old(size)[base := 0]
    {
      ptr, size, freep := ptr[base := base], size[base := 0], base;
      free := {base};
    }

    /** malloc's search: once round the list from freep, first fit. */
    method Round(nunits: int) returns (found: bool, prevp: int, p: int)
      requires Valid() && freep != NULL
      ensures prevp in free && p == ptr[prevp] && p in free
      ensures found ==> size[p] >= nunits
      ensures !found ==> p == freep && forall x | x in free :: size[x] < nunits
    {
      prevp := freep;
      p := ptr[prevp];
      ScanStep(base, free, ptr, size, freep, freep);
      ghost var rest := free;
      while size[p] < nunits
        invariant prevp in free && p == ptr[prevp] && p in free && rest == Rest(free, p, freep)
        invariant forall x | x in free && x !in rest :: size[x] < nunits
        decreases rest
      {
        ScanStep(base, free, ptr, size, p, freep);
        if p == freep {
          return false, prevp, p;
        }
        prevp, p, rest := p, ptr[p], rest - {p};
      }
      found := true;
    }

    /** A round without success grows the heap and starts another one from freep, which
        then succeeds: the heap grows at most once. */
    method Scan(nunits: int) returns (found: bool, prevp: int, p: int, ghost grown: nat)
      requires Valid() && freep != NULL && 1 <= nunits && nunits * UNIT < INT_LIMIT
      modifies this`ptr, this`size, this`freep, this`brk, this`free, this`live, this`arena, this`asked
      ensures Valid() && freep != NULL && live == old(live) && old(arena) <= arena
      ensures asked == if HasFit(old(free), old(size), nunits) then old(asked)
                       else old(asked) + [(CoreUnits(nunits), found)]
      ensures HasFit(old(free), old(size), nunits) ==> found
      ensures grown <= 1 && (grown == 0 ==> arena == old(arena))
      ensures found ==> prevp in free && p == ptr[prevp] && p in free && size[p] >= nunits
      ensures !found ==> arena == old(arena) && forall x | x in free :: size[x] < nunits
    {
      grown := 0;
      found, prevp, p := Round(nunits);
      if !found {
        var core;
        ghost var hp;
        core, hp := Morecore(nunits);
        if core != NULL {
          grown := 1;
          found, prevp, p := Round(nunits);
        }
      }
    }

    /** malloc(nbytes): a block of Units(nbytes) units that overlapped nothing allocated, or
        NULL after one refused sbrk when no free block is large enough. The heap is asked
        to grow at most once. */
    method Malloc(nbytes: int) returns (ap: int, ghost grown: nat)
      requires Valid() && 0 <= nbytes && Units(nbytes) * UNIT < INT_LIMIT
      modifies this
      ensures Valid() && old(arena) <= arena && grown <= 1 && (grown == 0 ==> arena == old(arena))
      ensures HasFit(old(free), old(size), Units(nbytes)) ==> ap != NULL && asked == old(asked)
      ensures !HasFit(old(free), old(size), Units(nbytes)) ==>
        asked == old(asked) + [(CoreUnits(Units(nbytes)), ap != NULL)]
      ensures ap == NULL ==> live == old(live) && arena == old(arena) && forall x | x in free :: size[x] < Units(nbytes)
      ensures ap != NULL ==> NULL < ap - 1 && ap - 1 !in old(live) && live == old(live)[ap - 1 := Units(nbytes)]
    {
      var nunits := Units(nbytes);
      Start(nunits);
      var found, prevp, p;
      found, prevp, p, grown := Scan(nunits);
      if !found { return NULL, grown; }
      ap := Take(prevp, p, nunits);
    }

    method Start(ghost nunits: int)
      requires Valid() && 1 <= nunits
      modifies this`ptr, this`size, this`freep, this`free
      ensures Valid() && freep != NULL && (HasFit(free, size, nunits) <==> HasFit(old(free), old(size), nunits))
    {
      if freep == NULL { Init(); }
    }

    /** The block that was found is handed out, whole or its tail. */
    method Take(prevp: int, p: int, nunits: int) returns (ap: int)
      requires Valid() && freep != NULL && prevp in free && p == ptr[prevp] && p in free && 1 <= nunits <= size[p]
      modifies this`ptr, this`size, this`freep, this`free, this`live
      ensures Valid() && NULL < ap - 1 && ap - 1 !in old(live) && live == old(live)[ap - 1 := nunits]
    {
      if size[p] == nunits {
        TakeWhole(prevp, p);
        ap := p + 1;
      } else {
        var hp := TakeTail(prevp, p, nunits);
        ap := hp + 1;
      }
    }
  }

  /** Truncation to the int that sbrk takes. */
  function Int32(n: int): int {
    var m := n % 0x1_0000_0000;
    if m < INT_LIMIT then m else m - 0x1_0000_0000
  }

  /** Exactly the requests up to 2^31 - 32 bytes reach sbrk unchanged; larger ones are
      truncated, so that morecore records more units than it obtained. */
  lemma RequestReachesSbrk(nbytes: int)
    requires 0 <= nbytes < 0x1_0000_0000
    ensures Int32(Units(nbytes) * UNIT) == Units(nbytes) * UNIT <==> nbytes <= INT_LIMIT - 32
    ensures Units(nbytes) * UNIT < INT_LIMIT <==> nbytes <= INT_LIMIT - 32
    ensures Int32(Units(INT_LIMIT) * UNIT) == 16 - INT_LIMIT
  {
  }
}
