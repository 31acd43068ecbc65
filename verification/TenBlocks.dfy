/** A call of writei that logs MAXOPBLOCKS blocks, so that the bound of kernel/file.c on the
    size of a chunk cannot be better: an unaligned write at the end of a file with twelve
    blocks, on a disk whose few free blocks lie in different bitmap blocks. */
module TenBlocks {
  import opened FsBlocks
  import opened FileSystem

  // ---------------------------------------------------------------- the call

  /** No two free blocks have their bits in the same bitmap block, and there are five. */
  ghost predicate Scattered(used: seq<bool>, fs: seq<int>) {
    && (forall a, b | 0 <= a < b < |used| && !used[a] && !used[b] :: a / BPB != b / BPB)
    && |fs| == 5 && (forall i | 0 <= i < 5 :: 0 <= fs[i] < |used| && !used[fs[i]])
    && (forall i, j | 0 <= i < j < 5 :: fs[i] < fs[j])
  }

  /** Inode 0 has twelve blocks of zeros and no indirect block. */
  ghost predicate TwelveBlocks(s: Fs)
    requires s.Valid()
    reads s
  {
    |s.isize| > 0 && s.isize[0] == 12 * BSIZE && s.addrs[0][NDIRECT] == 0
    && forall o | 0 <= o < 12 * BSIZE :: s.Bytes(0)[o] == 0
  }

  /** A slot that was filled holds a block that was free. */
  lemma FilledFromFree(tab: seq<int>, used: seq<bool>, tab': seq<int>, used': seq<bool>, datastart: int, s: int)
    requires OwnOk(tab, used, datastart) && OwnOk(tab', used', datastart) && Grows(tab, tab') && |used'| == |used|
    requires 0 <= s < |tab| && tab[s] == 0 && tab'[s] != 0
    ensures 0 <= tab'[s] < |used| && !used[tab'[s]] && used'[tab'[s]]
  {
    assert Sole(tab', s);
  }

  lemma AllocationLogged(v: Logs, w: Logs, bmapstart: int, b: int)
    requires Logged(v, w, bmapstart) && 0 <= b < |v.used| && !v.used[b] && w.used[b]
    ensures b in w.blocks && b / BPB + bmapstart in w.bits
  {
    assert BitLogged(v, w, bmapstart, b);
  }

  /** Five allocations would be too many. */
  lemma NotFive(v: Logs, w: Logs, bmapstart: int, fs: seq<int>)
    requires Logged(v, w, bmapstart) && Scattered(v.used, fs) && forall i | 0 <= i < 5 :: w.used[fs[i]]
    ensures |w.bits| + |w.blocks| + 1 > MAXOPBLOCKS
  {
    forall i | 0 <= i < 5
      ensures fs[i] in w.blocks && fs[i] / BPB + bmapstart in w.bits
    {
      AllocationLogged(v, w, bmapstart, fs[i]);
    }
    Five(w.blocks, fs[0], fs[1], fs[2], fs[3], fs[4]);
    var m := bmapstart;
    Five(w.bits, fs[0] / BPB + m, fs[1] / BPB + m, fs[2] / BPB + m, fs[3] / BPB + m, fs[4] / BPB + m);
  }

  lemma Five(s: set<int>, a: int, b: int, c: int, d: int, e: int)
    requires {a, b, c, d, e} <= s && a != b && a != c && a != d && a != e && b != c && b != d && b != e
    requires c != d && c != e && d != e
    ensures |s| >= 5
  {
    SubsetCard({a, b, c, d, e}, s);
  }

  lemma Four(s: set<int>, a: int, b: int, c: int, d: int)
    requires {a, b, c, d} <= s && a != b && a != c && a != d && b != c && b != d && c != d
    ensures |s| >= 4
  {
    SubsetCard({a, b, c, d}, s);
  }

  /** Four new blocks and a change to one that was in use. */
  lemma AllTen(v: Logs, w: Logs, bmapstart: int, fs: seq<int>, n: seq<int>, c: int)
    requires Logged(v, w, bmapstart) && Scattered(v.used, fs) && |v.disk| == |v.used| && |n| == 4
    requires forall i | 0 <= i < 4 :: 0 <= n[i] < |v.used| && !v.used[n[i]] && w.used[n[i]]
    requires forall i, j | 0 <= i < j < 4 :: n[i] != n[j]
    requires 0 <= c < |v.used| && v.used[c] && w.disk[c] != v.disk[c]
    ensures |w.bits| + |w.blocks| + 1 >= MAXOPBLOCKS
  {
    forall i | 0 <= i < 4
      ensures n[i] in w.blocks && n[i] / BPB + bmapstart in w.bits
    {
      AllocationLogged(v, w, bmapstart, n[i]);
    }
    assert BlockLogged(v, w, c);
    Five(w.blocks, n[0], n[1], n[2], n[3], c);
    var m := bmapstart;
    Four(w.bits, n[0] / BPB + m, n[1] / BPB + m, n[2] / BPB + m, n[3] / BPB + m);
  }

  /** Where the new blocks of the file are: the indirect block and its first three entries. */
  lemma Extended(tab: seq<int>, addrs: seq<seq<int>>, disk: seq<Block>, isize: seq<int>)
    requires TabOk(tab, addrs, disk) && FileOk(tab, isize) && |isize| == |addrs| > 0 && isize[0] > 14 * BSIZE
    ensures |tab| > 15 && forall s | 12 <= s < 16 :: tab[s] != 0
  {
    assert DataSlot(0, 12) == EntrySlot(0, 0) == 13 && DataSlot(0, 13) == 14 && DataSlot(0, 14) == 15;
    assert tab[Slot(0, NDIRECT)] == addrs[0][NDIRECT];
    assert tab[EntrySlot(0, 0)] == Entry(disk, addrs[0][NDIRECT], 0);
  }

  /** ... and where they are not yet. */
  lemma NotExtended(tab: seq<int>, addrs: seq<seq<int>>, disk: seq<Block>)
    requires TabOk(tab, addrs, disk) && |addrs| > 0 && addrs[0][NDIRECT] == 0
    ensures |tab| > 15 && forall s | 12 <= s < 16 :: tab[s] == 0
  {
    assert tab[Slot(0, NDIRECT)] == addrs[0][NDIRECT];
    assert EntrySlot(0, 0) == 13 && EntrySlot(0, 1) == 14 && EntrySlot(0, 2) == 15;
  }

  /** Byte 1 of block 11 of the file is where the write starts. */
  lemma StartByte(disk: seq<Block>, tab: seq<int>, size: int)
    requires |tab| > 15 && 0 <= tab[11] < |disk| && size >= 12 * BSIZE
    ensures Content(disk, tab, 0, size)[11 * BSIZE + 1] == disk[tab[11]][1]
  {
    assert DataSlot(0, (11 * BSIZE + 1) / BSIZE) == 11 && (11 * BSIZE + 1) % BSIZE == 1;
  }

  lemma Spliced(c: seq<byte>, src: seq<byte>)
    requires |c| == 12 * BSIZE && |src| == 3 * BSIZE
    ensures var c' := SpliceContent(c, 11 * BSIZE + 1, src[..3 * BSIZE]);
      |c'| == 14 * BSIZE + 1 && c'[11 * BSIZE + 1] == src[0]
  {
    assert src[..3 * BSIZE] == src;
  }

  /** Three blocks' worth of ones at offset 11 * BSIZE + 1. The inode's own block is the +1. */
  method WriteTen(s: Fs, ghost fs: seq<int>) returns (r: int)
    requires s.Valid() && TwelveBlocks(s) && Scattered(s.used, fs) && s.logBits == {} && s.logBlocks == {}
    modifies s
    ensures s.Valid() && r == 3 * BSIZE && |s.logBits| + |s.logBlocks| + 1 == MAXOPBLOCKS
  {
    var src: seq<byte> := seq(3 * BSIZE, _ => 1);
    ghost var v, tab, used := s.LogNow(), s.tab, s.used;
    NotExtended(s.tab, s.addrs, s.disk);
    MappedBelowSize(s.tab, s.isize, 0, 11 * BSIZE + 1);
    assert DataSlot(0, (11 * BSIZE + 1) / BSIZE) == 11;
    StartByte(s.disk, s.tab, s.isize[0]);
    Spliced(s.Bytes(0), src);
    r := s.Writei(0, 11 * BSIZE + 1, src);
    ghost var w := s.LogNow();
    assert s.logBlocks - {} == s.logBlocks;
    if r < |src| {
      NotFive(v, w, s.bmapstart, fs);
      assert false;
    }
    Extended(s.tab, s.addrs, s.disk, s.isize);
    StartByte(s.disk, s.tab, s.isize[0]);
    Filled(tab, used, s.tab, s.used, s.datastart);
    AllTen(v, w, s.bmapstart, fs, s.tab[12..16], tab[11]);
  }

  lemma Filled(tab: seq<int>, used: seq<bool>, tab': seq<int>, used': seq<bool>, datastart: int)
    requires OwnOk(tab, used, datastart) && OwnOk(tab', used', datastart) && Grows(tab, tab') && |used'| == |used|
    requires |tab| > 15 && forall s | 12 <= s < 16 :: tab[s] == 0 && tab'[s] != 0
    ensures var n := tab'[12..16];
      && (forall i | 0 <= i < 4 :: 0 <= n[i] < |used| && !used[n[i]] && used'[n[i]])
      && (forall i, j | 0 <= i < j < 4 :: n[i] != n[j])
  {
    forall s | 12 <= s < 16
      ensures 0 <= tab'[s] < |used| && !used[tab'[s]] && used'[tab'[s]] && Sole(tab', s)
    {
      FilledFromFree(tab, used, tab', used', datastart, s);
    }
  }

  // ---------------------------------------------------------------- such a disk

  const SIZE: int := 32769
  const INODES: int := 2048
  const HELD: int := 24573                   // blocks in use by files

  predicate FreeBlock(b: int) { b == 8191 || b == 8192 || b == 16384 || b == 24576 || b == 32768 }

  /** The t'th block that a file holds: three runs of 8191 blocks between free ones. */
  function HeldBlock(t: int): int { 8193 + t + t / 8191 }

  /** Files hold these blocks in twelve direct slots each. */
  function Holds(s: int): int {
    if s % 269 < 12 && 12 * (s / 269) + s % 269 < HELD then HeldBlock(12 * (s / 269) + s % 269) else 0
  }

  lemma HeldInUse(t: int)
    requires 0 <= t < HELD
    ensures 8193 <= HeldBlock(t) < SIZE && !FreeBlock(HeldBlock(t))
  {
  }

  lemma HeldDistinct(t: int, u: int)
    requires HeldBlock(t) == HeldBlock(u)
    ensures t == u
  {
  }

  lemma HoldsDistinct(s: int, t: int)
    requires 0 <= s && 0 <= t && Holds(s) == Holds(t) != 0
    ensures s == t
  {
    var a, b := 12 * (s / 269) + s % 269, 12 * (t / 269) + t % 269;
    HeldDistinct(a, b);
    TwelveParts(s / 269, s % 269, t / 269, t % 269);
  }

  lemma TwelveParts(i: int, k: int, j: int, l: int)
    requires 12 * i + k == 12 * j + l && 0 <= k < 12 && 0 <= l < 12
    ensures i == j && k == l
  {
  }

  lemma HolderOf(b: int) returns (s: int)
    requires 8191 <= b < SIZE && !FreeBlock(b)
    ensures 0 <= s < 269 * INODES && Holds(s) == b
  {
    var t := b - 8193 - (b - 8193) / 8192;
    HeldAt(b, t);
    s := 269 * (t / 12) + t % 12;
    SlotAt(t, s);
  }

  lemma HeldAt(b: int, t: int)
    requires 8191 <= b < SIZE && !FreeBlock(b) && t == b - 8193 - (b - 8193) / 8192
    ensures 0 <= t < HELD && HeldBlock(t) == b
  {
  }

  lemma SlotAt(t: int, s: int)
    requires 0 <= t < HELD && s == 269 * (t / 12) + t % 12
    ensures 0 <= s < 269 * INODES && s / 269 == t / 12 && s % 269 == t % 12
  {
  }

  lemma HoldsOwn(tab: seq<int>, used: seq<bool>)
    requires |tab| == 269 * INODES && forall s | 0 <= s < |tab| :: tab[s] == Holds(s)
    requires |used| == SIZE && forall b | 0 <= b < |used| :: used[b] == !FreeBlock(b)
    ensures OwnOk(tab, used, 8191)
  {
    forall s | 0 <= s < |tab|
      ensures Sole(tab, s) && (tab[s] != 0 ==> 8191 <= tab[s] < |used| && used[tab[s]])
    {
      if tab[s] != 0 {
        HeldInUse(12 * (s / 269) + s % 269);
        forall t | 0 <= t < |tab| && tab[t] == tab[s]
          ensures t == s
        {
          HoldsDistinct(s, t);
        }
      }
    }
    forall b | 8191 <= b < |used| && used[b]
      ensures Referenced(tab, b)
    {
      var s := HolderOf(b);
      assert tab[s] == b;
    }
  }

  lemma HoldsTab(tab: seq<int>, addrs: seq<seq<int>>, disk: seq<Block>)
    requires |tab| == 269 * INODES && forall s | 0 <= s < |tab| :: tab[s] == Holds(s)
    requires |addrs| == INODES && forall i | 0 <= i < |addrs| :: |addrs[i]| == 13
    requires forall i, k | 0 <= i < |addrs| && 0 <= k < 13 :: addrs[i][k] == Holds(269 * i + k)
    ensures TabOk(tab, addrs, disk)
  {
    forall i, j | 0 <= i < |addrs| && 0 <= j < NINDIRECT
      ensures tab[EntrySlot(i, j)] == Entry(disk, addrs[i][NDIRECT], j)
    {
      SlotParts(i, 13 + j);
      SlotParts(i, 12);
    }
  }

  lemma SlotParts(i: int, k: int)
    requires 0 <= i && 0 <= k < 269
    ensures (269 * i + k) / 269 == i && (269 * i + k) % 269 == k
  {
  }

  lemma HoldsFile(tab: seq<int>, isize: seq<int>)
    requires |tab| == 269 * INODES && forall s | 0 <= s < |tab| :: tab[s] == Holds(s)
    requires |isize| == INODES && isize[0] == 12 * BSIZE && forall i | 0 < i < |isize| :: isize[i] == 0
    ensures FileOk(tab, isize)
  {
  }

  lemma FreeAreScattered(used: seq<bool>, fs: seq<int>)
    requires |used| == SIZE && forall b | 0 <= b < |used| :: used[b] == !FreeBlock(b)
    requires fs == [8191, 8192, 16384, 24576, 32768]
    ensures Scattered(used, fs)
  {
  }

  /** The bitmap of such a disk. */
  method MarkHeld(s: Fs)
    requires BitmapOk(s.bitmap, s.used) && |s.used| == SIZE && forall b | 0 <= b < SIZE :: s.used[b] <==> b < 8191
    modifies s`bitmap, s`used
    ensures BitmapOk(s.bitmap, s.used) && |s.used| == SIZE && forall b | 0 <= b < SIZE :: s.used[b] == !FreeBlock(b)
  {
    for b := 8191 to SIZE
      invariant BitmapOk(s.bitmap, s.used) && |s.used| == SIZE
      invariant forall a | 0 <= a < SIZE :: s.used[a] == (a < b && !FreeBlock(a))
    {
      if !FreeBlock(b) {
        s.Mark(b, true);
      }
    }
  }

  lemma ZeroContent(disk: seq<Block>, tab: seq<int>, size: int)
    requires 0 <= size && forall b | 0 <= b < |disk| :: disk[b] == ZeroBlock()
    ensures forall o | 0 <= o < size :: Content(disk, tab, 0, size)[o] == 0
  {
  }

  function Sizes(): seq<int> { seq(INODES, i => if i == 0 then 12 * BSIZE else 0) }

  function Addrs(): seq<seq<int>> { seq(INODES, i => seq(13, k => Holds(269 * i + k))) }

  function Tab(): seq<int> { seq(269 * INODES, s => Holds(s)) }

  lemma LayoutOk(used: seq<bool>, disk: seq<Block>)
    requires |used| == SIZE && forall b | 0 <= b < |used| :: used[b] == !FreeBlock(b)
    requires forall b | 0 <= b < |disk| :: disk[b] == ZeroBlock()
    ensures OwnOk(Tab(), used, 8191) && TabOk(Tab(), Addrs(), disk) && FileOk(Tab(), Sizes())
    ensures |Sizes()| == |Addrs()| == INODES && Sizes()[0] == 12 * BSIZE && Addrs()[0][NDIRECT] == 0
    ensures forall o | 0 <= o < Sizes()[0] :: Content(disk, Tab(), 0, Sizes()[0])[o] == 0
  {
    HoldsOwn(Tab(), used);
    HoldsTab(Tab(), Addrs(), disk);
    HoldsFile(Tab(), Sizes());
    ZeroContent(disk, Tab(), Sizes()[0]);
  }

  method ScatteredDisk() returns (s: Fs)
    ensures fresh(s) && s.Valid() && TwelveBlocks(s) && s.logBits == {} && s.logBlocks == {}
    ensures Scattered(s.used, [8191, 8192, 16384, 24576, 32768])
  {
    s := new Fs(SIZE, 8191, 1, INODES);
    MarkHeld(s);
    s.isize, s.addrs, s.tab := Sizes(), Addrs(), Tab();
    LayoutOk(s.used, s.disk);
    FreeAreScattered(s.used, [8191, 8192, 16384, 24576, 32768]);
  }

  method WriteiLogsTen() returns (s: Fs, r: int)
    ensures s.Valid() && r == 3 * BSIZE && |s.logBits| + |s.logBlocks| + 1 == MAXOPBLOCKS
  {
    s := ScatteredDisk();
    r := WriteTen(s, [8191, 8192, 16384, 24576, 32768]);
  }
}
