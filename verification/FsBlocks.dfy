/** Value-level vocabulary of kernel/fs.c: bytes and words of a block, the free bitmap, and
    the ownership of data blocks by inode slots. */
module FsBlocks {
  import LogFormat

  const BSIZE: int := 1024
  const NDIRECT: int := 12
  const NINDIRECT: int := 256                // BSIZE / sizeof(uint)
  const MAXFILE: int := 268                  // NDIRECT + NINDIRECT
  const NSLOTS: int := 269                   // direct slots, indirect root, indirect entries
  const BPB: int := 8192                     // bitmap bits per block
  const UINT: int := 0x1_0000_0000

  type byte = x: int | 0 <= x < 256
  type Block = b: seq<byte> | |b| == 1024 witness seq(1024, _ => 0)

  function ZeroBlock(): Block { seq(1024, _ => 0) }

  // ---------------------------------------------------------------- words of an indirect block

  /** The j'th little-endian uint of a block. */
  function Word(b: Block, j: int): (w: int)
    requires 0 <= j < NINDIRECT
    ensures 0 <= w < UINT
  {
    var b0: int, b1: int, b2: int, b3: int := b[4 * j], b[4 * j + 1], b[4 * j + 2], b[4 * j + 3];
    b0 + 0x100 * b1 + 0x1_0000 * b2 + 0x100_0000 * b3
  }

  function PutWord(b: Block, j: int, w: int): Block
    requires 0 <= j < NINDIRECT && 0 <= w < UINT
  {
    b[4 * j := w % 0x100][4 * j + 1 := w / 0x100 % 0x100]
     [4 * j + 2 := w / 0x1_0000 % 0x100][4 * j + 3 := w / 0x100_0000]
  }

  /** Splitting a uint into four bytes loses nothing. */
  lemma BytesOfWord(w: int)
    requires 0 <= w < UINT
    ensures w % 0x100 + 0x100 * (w / 0x100 % 0x100) + 0x1_0000 * (w / 0x1_0000 % 0x100)
        + 0x100_0000 * (w / 0x100_0000) == w
  {
  }

  lemma WordPut(b: Block, j: int, w: int, i: int)
    requires 0 <= w < UINT && 0 <= j < NINDIRECT && 0 <= i < NINDIRECT
    ensures Word(PutWord(b, j, w), i) == if i == j then w else Word(b, i)
  {
    var p := PutWord(b, j, w);
    if i == j {
      BytesOfWord(w);
    } else {
      assert p[4 * i] == b[4 * i] && p[4 * i + 1] == b[4 * i + 1] && p[4 * i + 2] == b[4 * i + 2]
          && p[4 * i + 3] == b[4 * i + 3];
    }
  }

  lemma WordZero(i: int)
    requires 0 <= i < NINDIRECT
    ensures Word(ZeroBlock(), i) == 0
  {
  }

  // ---------------------------------------------------------------- bitmap

  /** 1 << i */
  function Mask(i: int): bv8 {
    match i
    case 0 => 1
    case 1 => 2
    case 2 => 4
    case 3 => 8
    case 4 => 16
    case 5 => 32
    case 6 => 64
    case _ => 128
  }

  /** Setting (|= m) or clearing (&= ~m) a bit of a bitmap byte changes that bit and no other. */
  lemma MaskUpdate(i: int, j: int, x: bv8)
    requires 0 <= i < 8 && 0 <= j < 8
    ensures ((x | Mask(j)) & Mask(i) != 0) == (i == j || x & Mask(i) != 0)
    ensures ((x & !Mask(j)) & Mask(i) != 0) == (i != j && x & Mask(i) != 0)
  {
  }

  /** The byte of block b's bit: byte (b % BPB) / 8 of bitmap block b / BPB, which holds 1024. */
  function BitByte(b: int): int { b / 8192 * 1024 + b % 8192 / 8 }

  function BitMask(b: int): bv8 { Mask(b % 8192 % 8) }

  /** Byte and bit position identify a block. */
  lemma BitPosition(a: int, b: int)
    requires 0 <= a && 0 <= b && BitByte(a) == BitByte(b) && a % 8192 % 8 == b % 8192 % 8
    ensures a == b
  {
    var p, q, r, t := a / 8192, a % 8192, b / 8192, b % 8192;
    assert q / 8 < 1024 && t / 8 < 1024;
    assert p == r;
  }

  predicate Bit(bitmap: seq<bv8>, b: int) { 0 <= BitByte(b) < |bitmap| && bitmap[BitByte(b)] & BitMask(b) != 0 }

  /** The bytes of the bitmap say which blocks are in use. */
  ghost predicate BitmapOk(bitmap: seq<bv8>, used: seq<bool>) {
    && (forall b {:trigger BitByte(b)} | 0 <= b < |used| :: 0 <= BitByte(b) < |bitmap|)
    && (forall b {:trigger Bit(bitmap, b)} | 0 <= b < |used| :: used[b] <==> Bit(bitmap, b))
  }

  /** data[bi/8] |= m or data[bi/8] &= ~m */
  function MarkedByte(x: bv8, m: bv8, v: bool): bv8 { if v then x | m else x & !m }

  function Marked(bitmap: seq<bv8>, b: int, v: bool): seq<bv8>
    requires 0 <= BitByte(b) < |bitmap|
  {
    bitmap[BitByte(b) := MarkedByte(bitmap[BitByte(b)], BitMask(b), v)]
  }

  lemma ByteInMap(bitmap: seq<bv8>, used: seq<bool>, b: int)
    requires BitmapOk(bitmap, used) && 0 <= b < |used|
    ensures 0 <= BitByte(b) < |bitmap| && (used[b] <==> Bit(bitmap, b))
  {
  }

  /** The update seen from a block a whose bit is in the same byte, ... */
  lemma SameByte(bitmap: seq<bv8>, a: int, b: int, v: bool, bitmap': seq<bv8>)
    requires 0 <= a && 0 <= b && BitByte(a) == BitByte(b) && 0 <= BitByte(b) < |bitmap|
    requires bitmap' == Marked(bitmap, b, v)
    ensures Bit(bitmap', a) <==> if a == b then v else Bit(bitmap, a)
  {
    var i, j, x := a % 8192 % 8, b % 8192 % 8, bitmap[BitByte(b)];
    assert bitmap'[BitByte(b)] == MarkedByte(x, Mask(j), v);
    MarkedBit(i, j, x, v, bitmap'[BitByte(b)]);
    if i == j {
      BitPosition(a, b);
    }
  }

  lemma MarkedBit(i: int, j: int, x: bv8, v: bool, y: bv8)
    requires 0 <= i < 8 && 0 <= j < 8 && y == MarkedByte(x, Mask(j), v)
    ensures y & Mask(i) != 0 <==> if i == j then v else x & Mask(i) != 0
  {
    MaskUpdate(i, j, x);
  }

  /** ... or in another one. */
  lemma OtherByte(bitmap: seq<bv8>, a: int, b: int, v: bool, bitmap': seq<bv8>)
    requires BitByte(a) != BitByte(b) && 0 <= BitByte(b) < |bitmap|
    requires bitmap' == Marked(bitmap, b, v)
    ensures Bit(bitmap', a) == Bit(bitmap, a)
  {
  }

  /** The code's mask updates change the flag of one block. */
  lemma PutBit(bitmap: seq<bv8>, used: seq<bool>, b: int, v: bool, bitmap': seq<bv8>, used': seq<bool>)
    requires BitmapOk(bitmap, used) && 0 <= b < |used| && 0 <= BitByte(b) < |bitmap|
    requires bitmap' == Marked(bitmap, b, v) && used' == used[b := v]
    ensures BitmapOk(bitmap', used')
  {
    forall a | 0 <= a < |used'|
      ensures used'[a] <==> Bit(bitmap', a)
    {
      ByteInMap(bitmap, used, a);
      if BitByte(a) == BitByte(b) {
        SameByte(bitmap, a, b, v, bitmap');
      } else {
        OtherByte(bitmap, a, b, v, bitmap');
      }
    }
  }

  // ---------------------------------------------------------------- ownership

  /** Position of slot k of inode i in the table of all slots. */
  function Slot(i: int, k: int): int { NSLOTS * i + k }

  /** Some slot of some inode holds block b. */
  ghost predicate Referenced(tab: seq<int>, b: int) {
    exists s :: 0 <= s < |tab| && tab[s] == b
  }

  /** No other slot holds the block of slot s. */
  ghost predicate Sole(tab: seq<int>, s: int)
    requires 0 <= s < |tab|
  {
    tab[s] != 0 ==> forall t | 0 <= t < |tab| && tab[t] == tab[s] :: t == s
  }

  /** Every data block is either free or held by exactly one slot of one inode. */
  ghost predicate OwnOk(tab: seq<int>, used: seq<bool>, datastart: int) {
    && 0 < datastart <= |used|
    && (forall s {:trigger Sole(tab, s)} | 0 <= s < |tab| :: Sole(tab, s))
    && (forall s | 0 <= s < |tab| && tab[s] != 0 :: datastart <= tab[s] < |used| && used[tab[s]])
    && (forall b | datastart <= b < |used| && used[b] :: Referenced(tab, b))
    && (forall b | 0 <= b < datastart :: used[b])
  }

  /** Giving a free block to an empty slot. */
  lemma AssignKeepsOwn(tab: seq<int>, used: seq<bool>, datastart: int, s: int, b: int)
    requires OwnOk(tab, used, datastart) && 0 <= s < |tab| && tab[s] == 0
    requires 0 <= b < |used| && !used[b]
    ensures OwnOk(tab[s := b], used[b := true], datastart)
  {
    var tab', used' := tab[s := b], used[b := true];
    forall t | 0 <= t < |tab'|
      ensures Sole(tab', t)
    {
      assert Sole(tab, t);
    }
    forall a | datastart <= a < |used'| && used'[a]
      ensures Referenced(tab', a)
    {
      if a == b {
        assert tab'[s] == a;
      } else {
        var t :| 0 <= t < |tab| && tab[t] == a;
        assert tab'[t] == a;
      }
    }
  }

  /** Taking the block away from a slot and freeing it. */
  lemma DropKeepsOwn(tab: seq<int>, used: seq<bool>, datastart: int, s: int)
    requires OwnOk(tab, used, datastart) && 0 <= s < |tab| && tab[s] != 0
    ensures 0 < tab[s] < |used| && used[tab[s]]
    ensures OwnOk(tab[s := 0], used[tab[s] := false], datastart)
  {
    var tab', used' := tab[s := 0], used[tab[s] := false];
    assert Sole(tab, s);
    forall t | 0 <= t < |tab'|
      ensures Sole(tab', t)
    {
      assert Sole(tab, t);
    }
    forall a | datastart <= a < |used'| && used'[a]
      ensures Referenced(tab', a)
    {
      var t :| 0 <= t < |tab| && tab[t] == a;
      assert tab'[t] == a;
    }
  }

  // ---------------------------------------------------------------- inode block trees

  /** The slot of the bn'th content block of inode i: slot NDIRECT is the indirect root. */
  function DataSlot(i: int, bn: int): int {
    if bn < NDIRECT then Slot(i, bn) else Slot(i, bn + 1)
  }

  /** The slot of entry j of the indirect block of inode i. */
  function EntrySlot(i: int, j: int): int { Slot(i, NDIRECT + 1 + j) }

  function RootSlot(i: int): int { Slot(i, NDIRECT) }

  /** Entry j of the indirect block r, or 0 if there is none. */
  function Entry(disk: seq<Block>, r: int, j: int): int
    requires 0 <= j < NINDIRECT
  {
    if 0 < r < |disk| then Word(disk[r], j) else 0
  }

  /** `tab` is what the inodes and their indirect blocks say. */
  ghost predicate TabOk(tab: seq<int>, addrs: seq<seq<int>>, disk: seq<Block>) {
    && |tab| == NSLOTS * |addrs|
    && (forall i | 0 <= i < |addrs| :: |addrs[i]| == NDIRECT + 1)
    && (forall i, k | 0 <= i < |addrs| && 0 <= k <= NDIRECT :: tab[Slot(i, k)] == addrs[i][k])
    && (forall i, j | 0 <= i < |addrs| && 0 <= j < NINDIRECT ::
          tab[EntrySlot(i, j)] == Entry(disk, addrs[i][NDIRECT], j))
  }

  /** Files are within bounds and every block below their size is mapped. */
  ghost predicate FileOk(tab: seq<int>, isize: seq<int>) {
    && |tab| == NSLOTS * |isize|
    && (forall i | 0 <= i < |isize| :: 0 <= isize[i] <= MAXFILE * BSIZE)
    && (forall i, bn | 0 <= i < |isize| && 0 <= bn < MAXFILE && bn * BSIZE < isize[i] :: tab[DataSlot(i, bn)] != 0)
  }

  /** Byte o of the content of inode i. */
  function ByteAt(disk: seq<Block>, tab: seq<int>, i: int, o: int): byte {
    var s := DataSlot(i, o / BSIZE);
    if 0 <= s < |tab| && 0 <= tab[s] < |disk| then disk[tab[s]][o % BSIZE] else 0
  }

  /** The content of inode i as a flat byte sequence. */
  function Content(disk: seq<Block>, tab: seq<int>, i: int, size: int): (c: seq<byte>)
    requires 0 <= size
    ensures |c| == size && forall o | 0 <= o < size :: c[o] == ByteAt(disk, tab, i, o)
  {
    seq(size, o => ByteAt(disk, tab, i, o))
  }

  /** A new direct block (or an indirect root, whose entries must read as 0). */
  lemma AssignDirectKeepsTab(tab: seq<int>, addrs: seq<seq<int>>, disk: seq<Block>, i: int, k: int, b: int)
    requires TabOk(tab, addrs, disk) && 0 <= i < |addrs| && 0 <= k <= NDIRECT && addrs[i][k] == 0
    requires 0 < b < |disk| && forall j | 0 <= j < |addrs| :: addrs[j][NDIRECT] != b
    ensures TabOk(tab[Slot(i, k) := b], addrs[i := addrs[i][k := b]], disk[b := ZeroBlock()])
  {
    var tab', addrs', disk' := tab[Slot(i, k) := b], addrs[i := addrs[i][k := b]], disk[b := ZeroBlock()];
    forall j, e | 0 <= j < |addrs'| && 0 <= e < NINDIRECT
      ensures tab'[EntrySlot(j, e)] == Entry(disk', addrs'[j][NDIRECT], e)
    {
      WordZero(e);
    }
  }

  /** A new entry j in the indirect block r of inode i. */
  lemma AssignEntryKeepsTab(tab: seq<int>, addrs: seq<seq<int>>, disk: seq<Block>, i: int, j: int, b: int, r: int)
    requires TabOk(tab, addrs, disk) && 0 <= i < |addrs| && 0 <= j < NINDIRECT && r == addrs[i][NDIRECT]
    requires 0 < b < |disk| <= UINT && 0 < r < |disk| && b != r
    requires forall l | 0 <= l < |addrs| :: addrs[l][NDIRECT] != b && (l != i ==> addrs[l][NDIRECT] != r)
    ensures TabOk(tab[EntrySlot(i, j) := b], addrs, disk[b := ZeroBlock()][r := PutWord(disk[r], j, b)])
  {
    var tab', disk' := tab[EntrySlot(i, j) := b], disk[b := ZeroBlock()][r := PutWord(disk[r], j, b)];
    forall l, e | 0 <= l < |addrs| && 0 <= e < NINDIRECT
      ensures tab'[EntrySlot(l, e)] == Entry(disk', addrs[l][NDIRECT], e)
    {
      WordPut(disk[r], j, b, e);
    }
  }

  /** Writing a data block disturbs no indirect block. */
  lemma WriteKeepsTab(tab: seq<int>, addrs: seq<seq<int>>, disk: seq<Block>, b: int, data: Block)
    requires TabOk(tab, addrs, disk) && 0 <= b < |disk|
    requires forall l | 0 <= l < |addrs| :: addrs[l][NDIRECT] != b
    ensures TabOk(tab, addrs, disk[b := data])
  {
  }

  lemma AssignKeepsFile(tab: seq<int>, isize: seq<int>, s: int, b: int)
    requires FileOk(tab, isize) && 0 <= s < |tab| && b != 0
    ensures FileOk(tab[s := b], isize)
  {
    forall i, bn | 0 <= i < |isize| && 0 <= bn < MAXFILE && bn * BSIZE < isize[i]
      ensures tab[s := b][DataSlot(i, bn)] != 0
    {
      assert tab[DataSlot(i, bn)] != 0;
    }
  }

  /** A free block is no indirect root. */
  lemma FreeIsNoRoot(tab: seq<int>, addrs: seq<seq<int>>, disk: seq<Block>, used: seq<bool>, datastart: int, b: int)
    requires OwnOk(tab, used, datastart) && TabOk(tab, addrs, disk) && 0 <= b < |used| && !used[b]
    ensures forall l | 0 <= l < |addrs| :: addrs[l][NDIRECT] != b
  {
    forall l | 0 <= l < |addrs|
      ensures addrs[l][NDIRECT] != b
    {
      assert tab[Slot(l, NDIRECT)] == addrs[l][NDIRECT];
    }
  }

  /** A block held by slot s is the root of no inode, unless s is that root's slot. */
  lemma OwnedIsNoOtherRoot(tab: seq<int>, addrs: seq<seq<int>>, disk: seq<Block>, used: seq<bool>, datastart: int,
                           s: int)
    requires OwnOk(tab, used, datastart) && TabOk(tab, addrs, disk) && 0 <= s < |tab| && tab[s] != 0
    ensures forall l | 0 <= l < |addrs| && Slot(l, NDIRECT) != s :: addrs[l][NDIRECT] != tab[s]
  {
    assert Sole(tab, s);
    forall l | 0 <= l < |addrs| && Slot(l, NDIRECT) != s
      ensures addrs[l][NDIRECT] != tab[s]
    {
      assert tab[Slot(l, NDIRECT)] == addrs[l][NDIRECT];
    }
  }

  /** Every content block that was mapped is still mapped to the same, unchanged block. */
  ghost predicate Kept(tab: seq<int>, disk: seq<Block>, tab': seq<int>, disk': seq<Block>) {
    && |tab'| == |tab| && |disk'| == |disk|
    && forall i, bn {:trigger DataSlot(i, bn)}
         | 0 <= i && 0 <= bn < MAXFILE && DataSlot(i, bn) < |tab| && 0 < tab[DataSlot(i, bn)] < |disk|
         :: tab'[DataSlot(i, bn)] == tab[DataSlot(i, bn)] && disk'[tab[DataSlot(i, bn)]] == disk[tab[DataSlot(i, bn)]]
  }

  lemma KeptTransitive(tab: seq<int>, disk: seq<Block>, tab1: seq<int>, disk1: seq<Block>, tab2: seq<int>,
                       disk2: seq<Block>)
    requires Kept(tab, disk, tab1, disk1) && Kept(tab1, disk1, tab2, disk2)
    ensures Kept(tab, disk, tab2, disk2)
  {
  }

  lemma KeptBytes(tab: seq<int>, disk: seq<Block>, tab': seq<int>, disk': seq<Block>, i: int, o: int)
    requires Kept(tab, disk, tab', disk') && 0 <= i && 0 <= o < MAXFILE * BSIZE
    requires DataSlot(i, o / BSIZE) < |tab| && 0 < tab[DataSlot(i, o / BSIZE)] < |disk|
    ensures ByteAt(disk', tab', i, o) == ByteAt(disk, tab, i, o)
  {
  }

  /** Filling an empty slot with a free block, which may change indirect block r as well. */
  lemma AssignKeeps(tab: seq<int>, disk: seq<Block>, used: seq<bool>, datastart: int, s: int, b: int, r: int,
                    tab': seq<int>, disk': seq<Block>)
    requires OwnOk(tab, used, datastart) && |disk| == |used| && 0 <= s < |tab| && tab[s] == 0 && 0 <= b < |used|
    requires !used[b]
    requires tab' == tab[s := b] && |disk'| == |disk|
    requires forall a | 0 <= a < |disk| && a != b && a != r :: disk'[a] == disk[a]
    requires forall i, bn {:trigger DataSlot(i, bn)} | 0 <= i && 0 <= bn < MAXFILE && DataSlot(i, bn) < |tab|
        && tab[DataSlot(i, bn)] != 0 :: tab[DataSlot(i, bn)] != r
    ensures Kept(tab, disk, tab', disk')
  {
  }

  /** The root block of an inode is the content block of none. */
  lemma RootIsNoData(tab: seq<int>, used: seq<bool>, datastart: int, ino: int)
    requires OwnOk(tab, used, datastart) && 0 <= ino && RootSlot(ino) < |tab| && tab[RootSlot(ino)] != 0
    ensures forall i, bn {:trigger DataSlot(i, bn)} | 0 <= i && 0 <= bn < MAXFILE && DataSlot(i, bn) < |tab|
        && tab[DataSlot(i, bn)] != 0
              :: tab[DataSlot(i, bn)] != tab[RootSlot(ino)]
  {
    assert Sole(tab, RootSlot(ino));
  }

  /** A free block for an empty direct slot or indirect root. */
  lemma DirectAssigned(tab: seq<int>, addrs: seq<seq<int>>, disk: seq<Block>, used: seq<bool>, datastart: int,
                       isize: seq<int>, i: int, k: int, b: int, tab': seq<int>, disk': seq<Block>)
    requires OwnOk(tab, used, datastart) && TabOk(tab, addrs, disk) && FileOk(tab, isize) && |disk| == |used|
    requires 0 <= i < |addrs| && 0 <= k <= NDIRECT && addrs[i][k] == 0 && 0 < b < |used| && !used[b]
    requires 0 <= Slot(i, k) < |tab| && tab' == tab[Slot(i, k) := b] && disk' == disk[b := ZeroBlock()]
    ensures OwnOk(tab', used[b := true], datastart) && TabOk(tab', addrs[i := addrs[i][k := b]], disk')
    ensures FileOk(tab', isize) && Kept(tab, disk, tab', disk')
  {
    var s := Slot(i, k);
    FreeIsNoRoot(tab, addrs, disk, used, datastart, b);
    assert tab[s] == addrs[i][k];
    AssignKeepsOwn(tab, used, datastart, s, b);
    AssignDirectKeepsTab(tab, addrs, disk, i, k, b);
    AssignKeepsFile(tab, isize, s, b);
    AssignKeeps(tab, disk, used, datastart, s, b, 0, tab', disk');
  }

  /** A free block for an empty entry j of the indirect block r. */
  lemma EntryAssigned(tab: seq<int>, addrs: seq<seq<int>>, disk: seq<Block>, used: seq<bool>, datastart: int,
                      isize: seq<int>, i: int, j: int, b: int, r: int, tab': seq<int>, disk': seq<Block>)
    requires OwnOk(tab, used, datastart) && TabOk(tab, addrs, disk) && FileOk(tab, isize) && |disk| == |used| <= UINT
    requires 0 <= i < |addrs| && 0 <= j < NINDIRECT && 0 < r < |used| && r == addrs[i][NDIRECT] == tab[RootSlot(i)]
    requires 0 < b < |used| && !used[b] && 0 <= EntrySlot(i, j) < |tab| && tab[EntrySlot(i, j)] == 0
    requires tab' == tab[EntrySlot(i, j) := b] && disk' == disk[b := ZeroBlock()][r := PutWord(disk[r], j, b)]
    ensures OwnOk(tab', used[b := true], datastart) && TabOk(tab', addrs, disk')
    ensures FileOk(tab', isize) && Kept(tab, disk, tab', disk')
  {
    var s := EntrySlot(i, j);
    FreeIsNoRoot(tab, addrs, disk, used, datastart, b);
    OwnedIsNoOtherRoot(tab, addrs, disk, used, datastart, Slot(i, NDIRECT));
    RootIsNoData(tab, used, datastart, i);
    AssignKeepsOwn(tab, used, datastart, s, b);
    AssignEntryKeepsTab(tab, addrs, disk, i, j, b, r);
    AssignKeepsFile(tab, isize, s, b);
    AssignKeeps(tab, disk, used, datastart, s, b, r, tab', disk');
  }

  // ---------------------------------------------------------------- writing content

  function Splice(b: Block, o: int, d: seq<byte>): Block
    requires 0 <= o && o + |d| <= BSIZE
  {
    b[..o] + d + b[o + |d|..]
  }

  /** Writing d at offset o of inode i, within one block, changes these bytes of the content
      of i and no other byte of any file. */
  lemma WriteBytes(disk: seq<Block>, tab: seq<int>, used: seq<bool>, datastart: int, i: int, o: int, d: seq<byte>,
                   j: int, q: int)
    requires OwnOk(tab, used, datastart) && |disk| == |used|
    requires 0 <= i && 0 <= o < MAXFILE * BSIZE && o % BSIZE + |d| <= BSIZE
    requires DataSlot(i, o / BSIZE) < |tab| && tab[DataSlot(i, o / BSIZE)] != 0
    requires 0 <= j && 0 <= q < MAXFILE * BSIZE && DataSlot(j, q / BSIZE) < |tab| && tab[DataSlot(j, q / BSIZE)] != 0
    ensures var b := tab[DataSlot(i, o / BSIZE)];
      var disk' := disk[b := Splice(disk[b], o % BSIZE, d)];
      ByteAt(disk', tab, j, q) == if j == i && o <= q < o + |d| then d[q - o] else ByteAt(disk, tab, j, q)
  {
    assert Sole(tab, DataSlot(i, o / BSIZE));
    var b := tab[DataSlot(i, o / BSIZE)];
    if DataSlot(j, q / BSIZE) == DataSlot(i, o / BSIZE) {
      assert j == i && q / BSIZE == o / BSIZE;
    }
  }

  /** Content as a whole after such a change: d spliced in, extending the file if it reaches
      past the end. */
  function SpliceContent(c: seq<byte>, o: int, d: seq<byte>): seq<byte>
    requires 0 <= o <= |c|
  {
    c[..o] + d + (if o + |d| <= |c| then c[o + |d|..] else [])
  }

  // ---------------------------------------------------------------- reading content

  lemma MappedBelowSize(tab: seq<int>, isize: seq<int>, i: int, o: int)
    requires FileOk(tab, isize) && 0 <= i < |isize| && 0 <= o < isize[i]
    ensures 0 <= DataSlot(i, o / BSIZE) < |tab| && tab[DataSlot(i, o / BSIZE)] != 0 && 0 <= o / BSIZE < MAXFILE
  {
    var bn := o / BSIZE;
    assert bn * BSIZE < isize[i];
  }

  /** A stretch of the content that lies within one block. */
  lemma BlockBytes(disk: seq<Block>, tab: seq<int>, i: int, size: int, o: int, m: int)
    requires 0 <= o && 0 <= m && o + m <= size && o % BSIZE + m <= BSIZE
    requires 0 <= DataSlot(i, o / BSIZE) < |tab| && 0 <= tab[DataSlot(i, o / BSIZE)] < |disk|
    ensures Content(disk, tab, i, size)[o..o + m] == disk[tab[DataSlot(i, o / BSIZE)]][o % BSIZE..o % BSIZE + m]
  {
    var c, d := Content(disk, tab, i, size)[o..o + m], disk[tab[DataSlot(i, o / BSIZE)]][o % BSIZE..o % BSIZE + m];
    forall k | 0 <= k < m
      ensures c[k] == d[k]
    {
      assert (o + k) / BSIZE == o / BSIZE && (o + k) % BSIZE == o % BSIZE + k;
    }
  }

  /** The overflow test of readi and writei on uints. */
  lemma UintSum(off: int, n: int)
    requires 0 <= off < UINT && 0 <= n < UINT
    ensures (off + n) % UINT < off <==> off + n >= UINT
  {
  }

  /** Offset q of inode i lies in a mapped block. */
  ghost predicate Mapped(tab: seq<int>, i: int, q: int) {
    0 <= i && 0 <= q < MAXFILE * BSIZE && DataSlot(i, q / BSIZE) < |tab| && tab[DataSlot(i, q / BSIZE)] != 0
  }

  /** The bytes d were written at offset o of inode ino, and no other mapped byte of any
      file changed. */
  ghost predicate Wrote(disk: seq<Block>, tab: seq<int>, disk': seq<Block>, tab': seq<int>, ino: int, o: int,
                        d: seq<byte>) {
    && (forall i, q {:trigger Mapped(tab', i, q)} {:trigger Mapped(tab, i, q)} | Mapped(tab, i, q) ::
          && Mapped(tab', i, q)
          && ByteAt(disk', tab', i, q) == if i == ino && o <= q < o + |d| then d[q - o] else ByteAt(disk, tab, i, q))
    && (forall q {:trigger Mapped(tab', ino, q)} | o <= q < o + |d| ::
          Mapped(tab', ino, q) && ByteAt(disk', tab', ino, q) == d[q - o])
  }

  lemma WroteNothing(disk: seq<Block>, tab: seq<int>, ino: int, o: int)
    ensures Wrote(disk, tab, disk, tab, ino, o, [])
  {
  }

  lemma WroteMore(disk: seq<Block>, tab: seq<int>, disk1: seq<Block>, tab1: seq<int>, disk2: seq<Block>, tab2: seq<int>,
                  ino: int, o: int, d: seq<byte>, p: int, e: seq<byte>, de: seq<byte>)
    requires Wrote(disk, tab, disk1, tab1, ino, o, d) && Wrote(disk1, tab1, disk2, tab2, ino, p, e)
    requires p == o + |d| && de == d + e
    ensures Wrote(disk, tab, disk2, tab2, ino, o, de)
  {
    forall i, q | Mapped(tab, i, q)
      ensures Mapped(tab2, i, q)
      ensures ByteAt(disk2, tab2, i, q) == if i == ino && o <= q < o + |de| then de[q - o] else ByteAt(disk, tab, i, q)
    {
      assert Mapped(tab1, i, q);
    }
    forall q | o <= q < o + |de|
      ensures Mapped(tab2, ino, q) && ByteAt(disk2, tab2, ino, q) == de[q - o]
    {
      if q < o + |d| {
        assert Mapped(tab1, ino, q);
      } else {
        assert Mapped(tab2, ino, q);
      }
    }
  }

  /** bmap followed by the copy into the block. */
  lemma WroteBlock(disk: seq<Block>, tab: seq<int>, disk1: seq<Block>, tab1: seq<int>, used: seq<bool>, datastart: int,
                   ino: int, o: int, d: seq<byte>)
    requires Kept(tab, disk, tab1, disk1) && OwnOk(tab1, used, datastart) && |disk1| == |used|
    requires forall s | 0 <= s < |tab| && tab[s] != 0 :: 0 < tab[s] < |disk|
    requires 0 <= ino && 0 <= o < MAXFILE * BSIZE && o % BSIZE + |d| <= BSIZE && Mapped(tab1, ino, o)
    ensures var b := tab1[DataSlot(ino, o / BSIZE)];
      Wrote(disk, tab, disk1[b := Splice(disk1[b], o % BSIZE, d)], tab1, ino, o, d)
  {
    var b := tab1[DataSlot(ino, o / BSIZE)];
    var disk2 := disk1[b := Splice(disk1[b], o % BSIZE, d)];
    forall i, q | Mapped(tab, i, q)
      ensures Mapped(tab1, i, q)
      ensures ByteAt(disk2, tab1, i, q) == if i == ino && o <= q < o + |d| then d[q - o] else ByteAt(disk, tab, i, q)
    {
      KeptBytes(tab, disk, tab1, disk1, i, q);
      assert 0 < tab[DataSlot(i, q / BSIZE)] < |disk|;
      WriteBytes(disk1, tab1, used, datastart, ino, o, d, i, q);
    }
    forall q | o <= q < o + |d|
      ensures Mapped(tab1, ino, q) && ByteAt(disk2, tab1, ino, q) == d[q - o]
    {
      assert q / BSIZE == o / BSIZE;
      WriteBytes(disk1, tab1, used, datastart, ino, o, d, ino, q);
    }
  }

  /** The content after a write, as a whole sequence. */
  lemma WroteContent(disk: seq<Block>, tab: seq<int>, disk': seq<Block>, tab': seq<int>, isize: seq<int>, ino: int,
                     o: int, d: seq<byte>, i: int)
    requires FileOk(tab, isize) && Wrote(disk, tab, disk', tab', ino, o, d) && 0 <= i < |isize| && 0 <= ino < |isize|
    requires 0 <= o <= isize[ino]
    ensures i != ino ==> Content(disk', tab', i, isize[i]) == Content(disk, tab, i, isize[i])
    ensures var n := if o + |d| > isize[ino] then o + |d| else isize[ino];
      Content(disk', tab', ino, n) == SpliceContent(Content(disk, tab, ino, isize[ino]), o, d)
  {
    forall j, q | 0 <= j < |isize| && 0 <= q < isize[j]
      ensures Mapped(tab, j, q)
    {
      MappedBelowSize(tab, isize, j, q);
    }
    if i != ino {
      var c, c' := Content(disk, tab, i, isize[i]), Content(disk', tab', i, isize[i]);
      forall q | 0 <= q < isize[i]
        ensures c'[q] == c[q]
      {
        assert Mapped(tab, i, q);
      }
    }
    var n := if o + |d| > isize[ino] then o + |d| else isize[ino];
    var c, c' := SpliceContent(Content(disk, tab, ino, isize[ino]), o, d), Content(disk', tab', ino, n);
    forall q | 0 <= q < n
      ensures c'[q] == c[q]
    {
      if o <= q < o + |d| {
        assert Mapped(tab', ino, q);
      } else {
        assert Mapped(tab, ino, q);
      }
    }
  }

  lemma WroteContents(disk: seq<Block>, tab: seq<int>, disk': seq<Block>, tab': seq<int>, isize: seq<int>, ino: int,
                      o: int, d: seq<byte>)
    requires FileOk(tab, isize) && Wrote(disk, tab, disk', tab', ino, o, d) && 0 <= ino < |isize|
    requires 0 <= o <= isize[ino]
    ensures forall i | 0 <= i < |isize| && i != ino ::
      Content(disk', tab', i, isize[i]) == Content(disk, tab, i, isize[i])
    ensures var n := if o + |d| > isize[ino] then o + |d| else isize[ino];
      Content(disk', tab', ino, n) == SpliceContent(Content(disk, tab, ino, isize[ino]), o, d)
  {
    forall i | 0 <= i < |isize| && i != ino
      ensures Content(disk', tab', i, isize[i]) == Content(disk, tab, i, isize[i])
    {
      WroteContent(disk, tab, disk', tab', isize, ino, o, d, i);
    }
    WroteContent(disk, tab, disk', tab', isize, ino, o, d, ino);
  }

  lemma KeptIsWrote(tab: seq<int>, disk: seq<Block>, tab': seq<int>, disk': seq<Block>, ino: int, o: int)
    requires Kept(tab, disk, tab', disk') && forall s | 0 <= s < |tab| && tab[s] != 0 :: 0 < tab[s] < |disk|
    ensures Wrote(disk, tab, disk', tab', ino, o, [])
  {
    forall i, q | Mapped(tab, i, q)
      ensures Mapped(tab', i, q) && ByteAt(disk', tab', i, q) == ByteAt(disk, tab, i, q)
    {
      assert 0 < tab[DataSlot(i, q / BSIZE)] < |disk|;
      KeptBytes(tab, disk, tab', disk', i, q);
    }
  }

  /** A content slot is no root slot. */
  lemma NotARoot(i: int, bn: int)
    requires 0 <= bn < MAXFILE
    ensures forall l :: Slot(l, NDIRECT) != DataSlot(i, bn)
  {
    forall l
      ensures Slot(l, NDIRECT) != DataSlot(i, bn)
    {
      if l < i {
        assert Slot(l, NDIRECT) < NSLOTS * (l + 1) <= NSLOTS * i <= DataSlot(i, bn);
      } else if l > i {
        assert Slot(l, NDIRECT) > NSLOTS * l >= NSLOTS * (i + 1) > DataSlot(i, bn);
      }
    }
  }

  // ---------------------------------------------------------------- what has been logged

  /** The blocks and the flags of the bitmap, and the block numbers passed to log_write. */
  datatype Logs = Logs(disk: seq<Block>, used: seq<bool>, blocks: set<int>, bits: set<int>)

  ghost predicate BlockLogged(v: Logs, w: Logs, x: int) {
    0 <= x < |v.disk| && x < |w.disk| && w.disk[x] != v.disk[x] ==> x in w.blocks
  }

  /** Allocating a block logs the block as well, because it is zeroed. */
  ghost predicate BitLogged(v: Logs, w: Logs, bmapstart: int, x: int) {
    0 <= x < |v.used| && x < |w.used| && w.used[x] != v.used[x] ==>
      x / BPB + bmapstart in w.bits && (w.used[x] ==> x in w.blocks)
  }

  /** Every block and every bitmap block that changed from v to w has been logged. */
  ghost predicate Logged(v: Logs, w: Logs, bmapstart: int) {
    && |w.disk| == |v.disk| && |w.used| == |v.used| && v.blocks <= w.blocks && v.bits <= w.bits
    && (forall x {:trigger BlockLogged(v, w, x)} :: BlockLogged(v, w, x))
    && (forall x {:trigger BitLogged(v, w, bmapstart, x)} :: BitLogged(v, w, bmapstart, x))
  }

  lemma LoggedTransitive(u: Logs, v: Logs, w: Logs, bmapstart: int)
    requires Logged(u, v, bmapstart) && Logged(v, w, bmapstart)
    ensures Logged(u, w, bmapstart)
  {
    forall x
      ensures BlockLogged(u, w, x) && BitLogged(u, w, bmapstart, x)
    {
      assert BlockLogged(u, v, x) && BlockLogged(v, w, x);
      assert BitLogged(u, v, bmapstart, x) && BitLogged(v, w, bmapstart, x);
    }
  }

  /** Only block c was written, and it was logged. */
  lemma LoggedOne(v: Logs, w: Logs, bmapstart: int, c: int)
    requires 0 <= c < |v.disk| && |w.disk| == |v.disk| && w.disk == v.disk[c := w.disk[c]] && w.used == v.used
    requires w.blocks == v.blocks + {c} && w.bits == v.bits
    ensures Logged(v, w, bmapstart)
  {
  }

  /** Block c was allocated and zeroed. */
  lemma LoggedAlloc(v: Logs, w: Logs, bmapstart: int, c: int)
    requires 0 <= c < |v.disk| == |v.used| && w.disk == v.disk[c := ZeroBlock()] && w.used == v.used[c := true]
    requires w.blocks == v.blocks + {c} && w.bits == v.bits + {c / BPB + bmapstart}
    ensures Logged(v, w, bmapstart)
  {
  }

  /** Block c was freed. */
  lemma LoggedFree(v: Logs, w: Logs, bmapstart: int, c: int)
    requires 0 <= c < |v.used| && w.disk == v.disk && w.used == v.used[c := false]
    requires w.blocks == v.blocks && w.bits == v.bits + {c / BPB + bmapstart}
    ensures Logged(v, w, bmapstart)
  {
  }

  /** Slots that hold a block keep it. */
  ghost predicate Grows(tab: seq<int>, tab': seq<int>) {
    |tab'| == |tab| && forall s | 0 <= s < |tab| && tab[s] != 0 :: tab'[s] == tab[s]
  }

  // ---------------------------------------------------------------- log accounting

  /** What a write has logged after k blocks D, of which a were newly allocated: the blocks
      lb beyond lb0, and nb - nb0 bitmap blocks; root is the inode's indirect block. */
  ghost predicate LogAcct(lb0: set<int>, lb: set<int>, root0: int, root: int, nb0: nat, nb: nat, D: set<int>, k: nat,
                          a: nat) {
    && |D| <= k && a <= k
    && (0 in lb ==> 0 in lb0)
    && lb <= lb0 + D + {root}
    && (root0 != 0 ==> root == root0)
    && nb <= nb0 + a + (if root0 == 0 && root != 0 then 1 else 0)
  }

  lemma LogAcctStep(lb0: set<int>, lb: set<int>, lb': set<int>, root0: int, root: int, root': int, nb0: nat, nb: nat,
                    nb': nat, D: set<int>, k: nat, a: nat, x: int, filled: bool)
    requires LogAcct(lb0, lb, root0, root, nb0, nb, D, k, a)
    requires lb' <= lb + {x, root'} && (0 in lb' ==> 0 in lb) && (root != 0 ==> root' == root)
    requires nb' <= nb + (if filled then 1 else 0) + (if root == 0 && root' != 0 then 1 else 0)
    ensures LogAcct(lb0, lb', root0, root', nb0, nb', D + {x}, k + 1, if filled then a + 1 else a)
    ensures x == 0 && !filled ==> LogAcct(lb0, lb', root0, root', nb0, nb', D, k, a)
  {
  }

  /** The log bound of a chunk: 4 data blocks, 4 bitmap blocks, the indirect block and the
      inode's block at most. */
  lemma LogAcctBound(lb0: set<int>, lb: set<int>, root0: int, root: int, nb0: nat, nb: nat, D: set<int>, k: nat, a: nat,
                     off: int, n: int)
    requires LogAcct(lb0, lb, root0, root, nb0, nb, D, k, a) && 0 <= off && 0 <= n <= 3 * BSIZE
    requires k > 0 ==> (k - 1) * BSIZE < off % BSIZE + n && (off % BSIZE != 0 ==> a <= k - 1)
    ensures nb + |lb - lb0| + 1 <= nb0 + LogFormat.MAXOPBLOCKS
  {
    assert lb - lb0 <= D + {root};
    SubsetCard(lb - lb0, D + {root});
    assert |D + {root}| <= |D| + 1;
  }

  lemma SubsetCard(s: set<int>, t: set<int>)
    requires s <= t
    ensures |s| <= |t|
  {
    assert t == s + (t - s);
  }

  /** Position after writing m more bytes from offset off + tot: whole blocks are filled
      except possibly the last. */
  lemma BlockProgress(off: int, tot: int, m: int, n: int, k: nat)
    requires 0 <= off && 0 <= tot && 0 < m && tot + m <= n && m <= BSIZE - (off + tot) % BSIZE
    requires m == n - tot || (off + tot + m) % BSIZE == 0
    requires k == 0 <==> tot == 0
    requires k > 0 ==> k * BSIZE == off % BSIZE + tot
    ensures k * BSIZE < off % BSIZE + tot + m
    ensures tot + m < n ==> (k + 1) * BSIZE == off % BSIZE + tot + m
  {
    var q, r := off / BSIZE, off % BSIZE;
    assert off == q * BSIZE + r;
    if k > 0 {
      assert off + tot == (q + k) * BSIZE;
      assert (off + tot) % BSIZE == 0;
      if tot + m < n {
        assert (off + tot + m) % BSIZE == m % BSIZE;
      }
    } else if m < n {
      assert (off + m) % BSIZE == (r + m) % BSIZE;
    }
  }

  /** State that writei changes. */
  datatype Snap = Snap(disk: seq<Block>, tab: seq<int>, logBlocks: set<int>, nbits: nat)

  /** Invariant of writei's loop: from snapshot z to x, tot bytes of src were written in k
      blocks. */
  ghost predicate Writing(z: Snap, x: Snap, ino: int, off: int, src: seq<byte>, tot: int, D: set<int>, k: nat, a: nat) {
    && 0 <= tot <= |src| && 0 <= RootSlot(ino) < |z.tab| == |x.tab|
    && Wrote(z.disk, z.tab, x.disk, x.tab, ino, off, src[..tot]) && Grows(z.tab, x.tab)
    && LogAcct(z.logBlocks, x.logBlocks, z.tab[RootSlot(ino)], x.tab[RootSlot(ino)], z.nbits, x.nbits, D, k, a)
    && (k == 0 <==> tot == 0)
    && (k > 0 ==> (k - 1) * BSIZE < off % BSIZE + tot && (off % BSIZE != 0 ==> a <= k - 1))
    && (k > 0 && tot < |src| ==> k * BSIZE == off % BSIZE + tot)
  }

  /** What bmap does for slot s: it may fill s and the slot of the indirect root. */
  ghost predicate MapsTo(x: Snap, y: Snap, s: int, root: int) {
    && 0 <= s < |x.tab| && 0 <= root < |x.tab| && Grows(x.tab, y.tab)
    && (forall a | 0 <= a < |x.tab| && a != s && a != root :: y.tab[a] == x.tab[a])
    && y.logBlocks <= x.logBlocks + {y.tab[s], y.tab[root]} && (0 in y.logBlocks ==> 0 in x.logBlocks)
    && y.nbits <= x.nbits + NewlyFilled(x, y, s) + NewlyFilled(x, y, root)
  }

  /** A new indirect block b and, unless the disk is full then, an entry c in it. */
  lemma RootAndEntry(x: Snap, w: Snap, y: Snap, s: int, root: int, b: int, c: int)
    requires 0 <= s < |x.tab| && 0 <= root < |x.tab| && s != root && x.tab[s] == 0 && x.tab[root] == 0 && b != 0
    requires w.tab == x.tab[root := b] && w.logBlocks == x.logBlocks + {b} && w.nbits <= x.nbits + 1
    requires if c == 0 then y.tab == w.tab && y.logBlocks == w.logBlocks && y.nbits == w.nbits
             else y.tab == w.tab[s := c] && y.logBlocks == w.logBlocks + {c, b} && y.nbits <= w.nbits + 1
    ensures MapsTo(x, y, s, root)
  {
  }

  /** What one iteration (bmap and copy of m bytes of d at offset o) does. */
  ghost predicate WroteOne(x: Snap, y: Snap, ino: int, o: int, d: seq<byte>, m: int) {
    && 0 <= o && 0 <= DataSlot(ino, o / BSIZE) < |x.tab| == |y.tab| && 0 <= RootSlot(ino) < |x.tab|
    && 0 <= m <= |d| && m <= BSIZE - o % BSIZE
    && (m == 0 <==> y.tab[DataSlot(ino, o / BSIZE)] == 0)
    && (m == 0 || m == |d| || (o + m) % BSIZE == 0)
    && Wrote(x.disk, x.tab, y.disk, y.tab, ino, o, d[..m])
    && Grows(x.tab, y.tab)
    && y.logBlocks <= x.logBlocks + {y.tab[DataSlot(ino, o / BSIZE)], y.tab[RootSlot(ino)]}
    && (0 in y.logBlocks ==> 0 in x.logBlocks)
    && y.nbits <= x.nbits + NewlyFilled(x, y, DataSlot(ino, o / BSIZE)) + NewlyFilled(x, y, RootSlot(ino))
  }

  ghost function NewlyFilled(x: Snap, y: Snap, s: int): nat {
    if 0 <= s < |x.tab| && s < |y.tab| && x.tab[s] == 0 && y.tab[s] != 0 then 1 else 0
  }

  lemma WritingStep(z: Snap, x: Snap, y: Snap, ino: int, off: int, src: seq<byte>, tot: int, D: set<int>, k: nat,
                    a: nat, o: int, d: seq<byte>, m: int, s: int, tot': int, D': set<int>, k': nat, a': nat)
    requires Writing(z, x, ino, off, src, tot, D, k, a) && 0 <= off && tot < |src|
    requires o == off + tot && d == src[tot..] && s == DataSlot(ino, o / BSIZE) && WroteOne(x, y, ino, o, d, m)
    requires tot == 0 && off % BSIZE != 0 ==> x.tab[s] != 0
    requires if m == 0 then tot' == tot && D' == D && k' == k && a' == a
             else tot' == tot + m && D' == D + {y.tab[s]} && k' == k + 1 && a' == a + NewlyFilled(x, y, s)
    ensures Writing(z, y, ino, off, src, tot', D', k', a')
  {
    assert src[..tot + m] == src[..tot] + d[..m];
    WroteMore(z.disk, z.tab, x.disk, x.tab, y.disk, y.tab, ino, off, src[..tot], o, d[..m], src[..tot']);
    LogAcctStep(z.logBlocks, x.logBlocks, y.logBlocks, z.tab[RootSlot(ino)], x.tab[RootSlot(ino)], y.tab[RootSlot(ino)],
                z.nbits, x.nbits, y.nbits, D, k, a, y.tab[s], x.tab[s] == 0 && y.tab[s] != 0);
    if m > 0 {
      BlockProgress(off, tot, m, |src|, k);
    }
  }

  lemma WritingNext(z: Snap, x: Snap, y: Snap, ino: int, off: int, src: seq<byte>, tot: int, D: set<int>, k: nat,
                    a: nat, o: int, d: seq<byte>, m: int)
    returns (D': set<int>, k': nat, a': nat)
    requires Writing(z, x, ino, off, src, tot, D, k, a) && 0 <= off && tot < |src|
    requires o == off + tot && d == src[tot..] && WroteOne(x, y, ino, o, d, m)
    requires StartMapped(x.tab, ino, off, tot)
    ensures Writing(z, y, ino, off, src, tot + m, D', k', a')
  {
    var s := DataSlot(ino, o / BSIZE);
    D', k', a' := D, k, a;
    if m != 0 {
      D', k', a' := D + {y.tab[s]}, k + 1, a + NewlyFilled(x, y, s);
    }
    WritingStep(z, x, y, ino, off, src, tot, D, k, a, o, d, m, s, tot + m, D', k', a');
  }

  /** A write that starts inside a block starts in a mapped one. */
  ghost predicate StartMapped(tab: seq<int>, i: int, off: int, tot: int) {
    tot == 0 && off % BSIZE != 0 ==> 0 <= DataSlot(i, off / BSIZE) < |tab| && tab[DataSlot(i, off / BSIZE)] != 0
  }

  lemma FirstBlockMapped(tab: seq<int>, isize: seq<int>, i: int, off: int, tot: int)
    requires FileOk(tab, isize) && 0 <= i < |isize| && 0 <= off <= isize[i]
    ensures StartMapped(tab, i, off, tot)
  {
    if off % BSIZE != 0 {
      MappedBelowSize(tab, isize, i, off - 1);
      assert (off - 1) / BSIZE == off / BSIZE;
    }
  }

  lemma Extend(c: seq<byte>, off: int, tot: int, data: seq<byte>, d: seq<byte>)
    requires 0 <= off && 0 <= tot && off + tot + |d| <= |c| && data == c[off..off + tot]
    requires d == c[off + tot..off + tot + |d|]
    ensures data + d == c[off..off + tot + |d|]
  {
  }

  /** From bmap's effect (x to w) and the copy into its block to one iteration of writei. */
  lemma BlockWritten(x: Snap, w: Snap, y: Snap, used: seq<bool>, datastart: int, ino: int, o: int, d: seq<byte>, m: int)
    requires Kept(x.tab, x.disk, w.tab, w.disk) && OwnOk(w.tab, used, datastart) && |w.disk| == |used|
    requires forall s | 0 <= s < |x.tab| && x.tab[s] != 0 :: 0 < x.tab[s] < |x.disk|
    requires 0 <= ino && 0 <= o < MAXFILE * BSIZE && 0 < |d| && 0 <= RootSlot(ino) < |x.tab|
    requires 0 <= DataSlot(ino, o / BSIZE) < |x.tab| && y.tab == w.tab && y.nbits == w.nbits
    requires MapsTo(x, w, DataSlot(ino, o / BSIZE), RootSlot(ino))
    requires var b := w.tab[DataSlot(ino, o / BSIZE)];
      if b == 0 then m == 0 && y == w
      else 0 < b < |w.disk| && m == (if |d| < BSIZE - o % BSIZE then |d| else BSIZE - o % BSIZE)
           && y.disk == w.disk[b := Splice(w.disk[b], o % BSIZE, d[..m])] && y.logBlocks == w.logBlocks + {b}
    ensures WroteOne(x, y, ino, o, d, m)
  {
    if m == 0 {
      KeptIsWrote(x.tab, x.disk, w.tab, w.disk, ino, o);
      assert d[..m] == [];
    } else {
      WroteBlock(x.disk, x.tab, w.disk, w.tab, used, datastart, ino, o, d[..m]);
      assert (o + (BSIZE - o % BSIZE)) % BSIZE == 0;
    }
  }

  /** Extending a file over bytes just written keeps every block below its size mapped. */
  lemma GrowKeepsFile(disk: seq<Block>, tab: seq<int>, disk': seq<Block>, tab': seq<int>, isize: seq<int>, ino: int,
                      o: int, d: seq<byte>)
    requires FileOk(tab', isize) && Wrote(disk, tab, disk', tab', ino, o, d)
    requires 0 <= ino < |isize| && 0 <= o <= isize[ino] && isize[ino] < o + |d| <= MAXFILE * BSIZE
    ensures FileOk(tab', isize[ino := o + |d|])
  {
    forall bn | 0 <= bn < MAXFILE && bn * BSIZE < o + |d|
      ensures tab'[DataSlot(ino, bn)] != 0
    {
      var q := bn * BSIZE;
      assert q / BSIZE == bn;
      if q >= isize[ino] {
        assert Mapped(tab', ino, q);
      }
    }
  }

  // ---------------------------------------------------------------- truncation

  /** tab with the first n direct slots, the first m entries and (if `root`) the indirect
      root of inode ino emptied. */
  ghost predicate Truncating(tab: seq<int>, t: seq<int>, ino: int, n: int, m: int, root: bool) {
    && |t| == |tab| && 0 <= ino && 0 <= n <= NDIRECT && 0 <= m <= NINDIRECT && Slot(ino, NSLOTS) <= |tab|
    && forall s | 0 <= s < |tab| ::
         t[s] == if Slot(ino, 0) <= s < Slot(ino, n) || EntrySlot(ino, 0) <= s < EntrySlot(ino, m)
             || (root && s == RootSlot(ino))
                 then 0 else tab[s]
  }

  /** addrs with the first n direct addresses of inode ino cleared. */
  ghost predicate DirectCut(addrs: seq<seq<int>>, addrs': seq<seq<int>>, ino: int, n: int) {
    && |addrs'| == |addrs| && 0 <= ino < |addrs| && 0 <= n <= NDIRECT
    && |addrs[ino]| == NDIRECT + 1 && |addrs'[ino]| == NDIRECT + 1
    && (forall l | 0 <= l < |addrs| && l != ino :: addrs'[l] == addrs[l])
    && (forall k | 0 <= k <= NDIRECT :: addrs'[ino][k] == if k < n then 0 else addrs[ino][k])
  }

  lemma CutOne(addrs: seq<seq<int>>, a: seq<seq<int>>, a': seq<seq<int>>, ino: int, i: int)
    requires DirectCut(addrs, a, ino, i) && i < NDIRECT
    requires a' == (if a[ino][i] == 0 then a else a[ino := a[ino][i := 0]])
    ensures DirectCut(addrs, a', ino, i + 1)
  {
  }

  lemma TruncOne(tab: seq<int>, t: seq<int>, t': seq<int>, ino: int, i: int)
    requires Truncating(tab, t, ino, i, 0, false) && i < NDIRECT
    requires t' == (if t[Slot(ino, i)] == 0 then t else t[Slot(ino, i) := 0])
    ensures Truncating(tab, t', ino, i + 1, 0, false)
  {
  }

  /** What the bitmap says after all of an inode's blocks have been freed. */
  lemma TruncatedUsed(tab: seq<int>, used: seq<bool>, t: seq<int>, used': seq<bool>, datastart: int, ino: int, b: int)
    requires OwnOk(tab, used, datastart) && OwnOk(t, used', datastart) && |used'| == |used|
    requires Truncating(tab, t, ino, NDIRECT, NINDIRECT, true) && 0 < b < |used|
    ensures used'[b] <==> used[b] && forall k | 0 <= k < NSLOTS :: tab[Slot(ino, k)] != b
  {
    if b >= datastart {
      if used'[b] {
        var s :| 0 <= s < |t| && t[s] == b;
        assert tab[s] == b && Sole(tab, s);
      }
      if used[b] && forall k | 0 <= k < NSLOTS :: tab[Slot(ino, k)] != b {
        var s :| 0 <= s < |tab| && tab[s] == b;
        assert Slot(ino, s - Slot(ino, 0)) == s;
        assert t[s] == b;
      }
    }
  }

  /** The table after itrunc describes the truncated inodes. */
  lemma TruncatedTab(tab: seq<int>, t: seq<int>, addrs: seq<seq<int>>, addrs': seq<seq<int>>, disk: seq<Block>,
                     ino: int)
    requires TabOk(tab, addrs, disk) && 0 <= ino < |addrs| && Truncating(tab, t, ino, NDIRECT, NINDIRECT, true)
    requires |addrs'| == |addrs| && |addrs'[ino]| == NDIRECT + 1 && forall k | 0 <= k <= NDIRECT :: addrs'[ino][k] == 0
    requires forall l | 0 <= l < |addrs| && l != ino :: addrs'[l] == addrs[l]
    ensures TabOk(t, addrs', disk)
  {
    forall l, k | 0 <= l < |addrs'| && 0 <= k <= NDIRECT
      ensures t[Slot(l, k)] == addrs'[l][k]
    {
      assert tab[Slot(l, k)] == addrs[l][k];
    }
    forall l, j | 0 <= l < |addrs'| && 0 <= j < NINDIRECT
      ensures t[EntrySlot(l, j)] == Entry(disk, addrs'[l][NDIRECT], j)
    {
      assert tab[EntrySlot(l, j)] == Entry(disk, addrs[l][NDIRECT], j);
    }
  }

  lemma TruncatedFile(tab: seq<int>, t: seq<int>, isize: seq<int>, ino: int)
    requires FileOk(tab, isize) && 0 <= ino < |isize| && Truncating(tab, t, ino, NDIRECT, NINDIRECT, true)
    ensures FileOk(t, isize[ino := 0])
  {
    forall l, bn | 0 <= l < |isize| && 0 <= bn < MAXFILE && bn * BSIZE < isize[ino := 0][l]
      ensures t[DataSlot(l, bn)] != 0
    {
      assert tab[DataSlot(l, bn)] != 0;
    }
  }

  /** An inode without an indirect block has no entries to empty. */
  lemma NoEntries(tab: seq<int>, t: seq<int>, ino: int)
    requires Truncating(tab, t, ino, NDIRECT, 0, false) && tab[RootSlot(ino)] == 0
    requires forall j | 0 <= j < NINDIRECT :: tab[EntrySlot(ino, j)] == 0
    ensures Truncating(tab, t, ino, NDIRECT, NINDIRECT, true)
  {
    forall s | EntrySlot(ino, 0) <= s < EntrySlot(ino, NINDIRECT)
      ensures tab[s] == 0
    {
      assert s == EntrySlot(ino, s - EntrySlot(ino, 0));
    }
  }

  lemma TruncatedContent(disk: seq<Block>, tab: seq<int>, t: seq<int>, ino: int, i: int, size: int)
    requires Truncating(tab, t, ino, NDIRECT, NINDIRECT, true) && 0 <= i != ino && 0 <= size <= MAXFILE * BSIZE
    ensures Content(disk, t, i, size) == Content(disk, tab, i, size)
  {
    forall o | 0 <= o < size
      ensures ByteAt(disk, t, i, o) == ByteAt(disk, tab, i, o)
    {
      var s := DataSlot(i, o / BSIZE);
      assert 0 <= s < |tab| ==> t[s] == tab[s];
    }
  }

  lemma TruncatedAll(tab: seq<int>, used: seq<bool>, t: seq<int>, used': seq<bool>, datastart: int, disk: seq<Block>,
                     isize: seq<int>, ino: int)
    requires OwnOk(tab, used, datastart) && OwnOk(t, used', datastart) && |used'| == |used|
    requires Truncating(tab, t, ino, NDIRECT, NINDIRECT, true) && FileOk(tab, isize) && ino < |isize|
    ensures FileOk(t, isize[ino := 0])
    ensures forall b | 0 < b < |used| ::
      used'[b] <==> used[b] && forall k | 0 <= k < NSLOTS :: tab[Slot(ino, k)] != b
    ensures forall i | 0 <= i < |isize| && i != ino :: Content(disk, t, i, isize[i]) == Content(disk, tab, i, isize[i])
  {
    TruncatedFile(tab, t, isize, ino);
    forall b | 0 < b < |used|
      ensures used'[b] <==> used[b] && forall k | 0 <= k < NSLOTS :: tab[Slot(ino, k)] != b
    {
      TruncatedUsed(tab, used, t, used', datastart, ino, b);
    }
    forall i | 0 <= i < |isize| && i != ino
      ensures Content(disk, t, i, isize[i]) == Content(disk, tab, i, isize[i])
    {
      TruncatedContent(disk, tab, t, ino, i, isize[i]);
    }
  }

  /** Writing in two pieces is writing the whole. */
  lemma SpliceTwice(c: seq<byte>, o: int, d: seq<byte>, e: seq<byte>)
    requires 0 <= o <= |c|
    ensures o + |d| <= |SpliceContent(c, o, d)|
    ensures SpliceContent(SpliceContent(c, o, d), o + |d|, e) == SpliceContent(c, o, d + e)
  {
  }

  lemma SpliceNothing(c: seq<byte>, o: int)
    requires 0 <= o <= |c|
    ensures SpliceContent(c, o, []) == c
  {
  }
}
