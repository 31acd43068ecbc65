/** The block allocator, the inode block tree and file contents of kernel/fs.c, with the
    write-chunk loop of kernel/file.c. Buffers and the log are transparent here: a block
    is read and written directly, and log_write records its number. */
module FileSystem {
  import opened FsBlocks
  import LogFormat

  const MAXOPBLOCKS: int := LogFormat.MAXOPBLOCKS

  ghost predicate Full(used: seq<bool>) { forall b | 0 <= b < |used| :: used[b] }

  class Fs {
    const datastart: int            // first data block; everything below is in use forever
    const bmapstart: int
    var disk: seq<Block>
    var bitmap: seq<bv8>            // the bytes of the bitmap blocks
    ghost var used: seq<bool>       // what they say of each block
    var addrs: seq<seq<int>>        // ip->addrs of every inode
    var isize: seq<int>             // ip->size of every inode
    ghost var tab: seq<int>         // every slot of every inode
    ghost var logBits: set<int>     // bitmap blocks passed to log_write
    ghost var logBlocks: set<int>   // data and indirect blocks passed to log_write

    ghost predicate Valid()
      reads this
    {
      && |disk| == |used| <= UINT && |isize| == |addrs| && BitmapOk(bitmap, used)
      && OwnOk(tab, used, datastart)
      && TabOk(tab, addrs, disk)
      && FileOk(tab, isize)
    }

    /** A freshly made file system: no inode holds a block. */
    constructor (size: int, datastart: int, bmapstart: int, ninodes: nat)
      requires 0 < datastart <= size <= UINT
      ensures Valid() && |isize| == ninodes && forall i | 0 <= i < ninodes :: isize[i] == 0
      ensures this.datastart == datastart && |used| == size && forall b | 0 <= b < size :: used[b] <==> b < datastart
      ensures logBits == {} && logBlocks == {} && forall b | 0 <= b < |disk| :: disk[b] == ZeroBlock()
    {
      this.datastart, this.bmapstart := datastart, bmapstart;
      disk := seq(size, _ => ZeroBlock());
      bitmap := seq((size / BPB + 1) * 1024, _ => 0);
      used := seq(size, _ => false);
      addrs := seq(ninodes, _ => seq(NDIRECT + 1, _ => 0));
      isize := seq(ninodes, _ => 0);
      tab := seq(NSLOTS * ninodes, _ => 0);
      logBits, logBlocks := {}, {};
      new;
      MarkMeta(size);
    }

    /** The blocks below the data blocks are marked in use. */
    method MarkMeta(size: int)
      requires BitmapOk(bitmap, used) && |used| == size && 0 <= datastart <= size
      requires forall b | 0 <= b < size :: !used[b]
      modifies this`bitmap, this`used
      ensures BitmapOk(bitmap, used) && |used| == size && forall b | 0 <= b < size :: used[b] <==> b < datastart
    {
      var b := 0;
      while b < datastart
        invariant 0 <= b <= datastart && BitmapOk(bitmap, used) && |used| == size
        invariant forall a | 0 <= a < size :: used[a] <==> a < b
      {
        Mark(b, true);
        b := b + 1;
      }
    }

    /** The bit of block b becomes v. */
    method Mark(b: int, v: bool)
      requires BitmapOk(bitmap, used) && 0 <= b < |used|
      modifies this`bitmap, this`used
      ensures BitmapOk(bitmap, used) && used == old(used)[b := v]
    {
      ByteInMap(bitmap, used, b);
      bitmap, used := Marked(bitmap, b, v), used[b := v];
      PutBit(old(bitmap), old(used), b, v, bitmap, used);
    }

    /** BBLOCK(b, sb) */
    function BitmapBlock(b: int): int { b / BPB + bmapstart }

    /** balloc: the first free block, zeroed and marked in use; 0 if there is none. */
    method Balloc() returns (b: int)
      requires |disk| == |used| && BitmapOk(bitmap, used)
      modifies this`disk, this`bitmap, this`used, this`logBits, this`logBlocks
      ensures BitmapOk(bitmap, used)
      ensures b == 0 && Full(old(used)) ==> disk == old(disk) && used == old(used) && logBits == old(logBits)
      ensures b == 0 && Full(old(used)) ==> logBlocks == old(logBlocks)
      ensures !Full(old(used)) ==>
        && 0 <= b < |old(used)| == |old(disk)| && !old(used)[b] && (forall a | 0 <= a < b :: old(used)[a])
        && used == old(used)[b := true] && disk == old(disk)[b := ZeroBlock()]
        && logBits == old(logBits) + {BitmapBlock(b)} && logBlocks == old(logBlocks) + {b}
      ensures Full(old(used)) ==> b == 0
    {
      b := 0;
      var size := |disk|;
      while b < size
        invariant 0 <= b && b % BPB == 0 && forall a | 0 <= a < b && a < size :: used[a]
        invariant disk == old(disk) && bitmap == old(bitmap) && used == old(used) && logBits == old(logBits)
        invariant logBlocks == old(logBlocks)
        decreases size - b
      {
        var bi := 0;
        while bi < BPB && b + bi < size
          invariant 0 <= bi <= BPB && forall a | 0 <= a < b + bi && a < size :: used[a]
          invariant disk == old(disk) && bitmap == old(bitmap) && used == old(used) && logBits == old(logBits)
          invariant logBlocks == old(logBlocks)
        {
          if !Bit(bitmap, b + bi) {
            Mark(b + bi, true);
            logBits := logBits + {BitmapBlock(b + bi)};
            disk := disk[b + bi := ZeroBlock()];
            logBlocks := logBlocks + {b + bi};
            return b + bi;
          }
          bi := bi + 1;
        }
        b := b + BPB;
      }
      b := 0;
    }

    /** bfree: panics on a block that is already free. */
    method Bfree(b: int) returns (panicked: bool)
      requires 0 <= b < |used| && BitmapOk(bitmap, used)
      modifies this`bitmap, this`used, this`logBits
      ensures BitmapOk(bitmap, used) && panicked == !old(used)[b]
      ensures panicked ==> used == old(used) && logBits == old(logBits)
      ensures !panicked ==> used == old(used)[b := false] && logBits == old(logBits) + {BitmapBlock(b)}
    {
      if !Bit(bitmap, b) { return true; }
      Mark(b, false);
      logBits := logBits + {BitmapBlock(b)};
      return false;
    }

    ghost function LogNow(): Logs
      reads this
    {
      Logs(disk, used, logBlocks, logBits)
    }

    /** Block b went from free to slot s, or the disk is full and nothing changed. */
    twostate predicate Assigned(s: int, b: int)
      reads this
    {
      if b == 0 then
        && Full(used) && tab == old(tab) && disk == old(disk) && used == old(used) && addrs == old(addrs)
        && logBits == old(logBits) && logBlocks == old(logBlocks)
      else
        && 0 < b < |old(used)| && !old(used)[b] && used == old(used)[b := true]
        && 0 <= s < |old(tab)| && tab == old(tab)[s := b]
        && |disk| == |old(disk)|
        && logBits == old(logBits) + {BitmapBlock(b)}
    }

    /** Allocates a block for an empty direct slot or for the indirect root. */
    method AssignDirect(ino: int, k: int) returns (b: int)
      requires Valid() && 0 <= ino < |addrs| && 0 <= k <= NDIRECT && addrs[ino][k] == 0
      modifies this`disk, this`bitmap, this`used, this`addrs, this`tab, this`logBits, this`logBlocks
      ensures Valid() && Assigned(Slot(ino, k), b) && |addrs| == |old(addrs)|
      ensures Kept(old(tab), old(disk), tab, disk)
      ensures b != 0 ==> logBlocks == old(logBlocks) + {b}
      ensures Logged(old(LogNow()), LogNow(), bmapstart)
    {
      b := Balloc();
      if b == 0 { return; }
      LoggedAlloc(old(LogNow()), LogNow(), bmapstart, b);
      var s := Slot(ino, k);
      DirectAssigned(tab, addrs, old(disk), old(used), datastart, isize, ino, k, b, tab[s := b], disk);
      addrs := addrs[ino := addrs[ino][k := b]];
      tab := tab[s := b];
    }

    /** Allocates a block for an empty entry of the indirect block of an inode. */
    method AssignEntry(ino: int, j: int) returns (b: int)
      requires Valid() && 0 <= ino < |addrs| && 0 <= j < NINDIRECT && addrs[ino][NDIRECT] != 0
      requires tab[EntrySlot(ino, j)] == 0
      modifies this`disk, this`bitmap, this`used, this`tab, this`logBits, this`logBlocks
      ensures Valid() && Assigned(EntrySlot(ino, j), b)
      ensures Kept(old(tab), old(disk), tab, disk)
      ensures b != 0 ==> logBlocks == old(logBlocks) + {b, addrs[ino][NDIRECT]}
      ensures Logged(old(LogNow()), LogNow(), bmapstart)
    {
      b := Balloc();
      if b == 0 { return; }
      ghost var l := LogNow();
      LoggedAlloc(old(LogNow()), l, bmapstart, b);
      var r, s := addrs[ino][NDIRECT], EntrySlot(ino, j);
      assert tab[Slot(ino, NDIRECT)] == r;
      disk := disk[r := PutWord(disk[r], j, b)];
      EntryAssigned(tab, addrs, old(disk), old(used), datastart, isize, ino, j, b, r, tab[s := b], disk);
      logBlocks := logBlocks + {r};
      LoggedOne(l, LogNow(), bmapstart, r);
      LoggedTransitive(old(LogNow()), l, LogNow(), bmapstart);
      tab := tab[s := b];
    }

    /** bmap: the block of content block bn, allocating it (and the indirect block) if
        needed; 0 exactly if the disk ran full on the way. Blocks already mapped keep their
        place and contents. */
    method Bmap(ino: int, bn: int) returns (addr: int)
      requires Valid() && 0 <= ino < |addrs| && 0 <= bn < MAXFILE
      modifies this`disk, this`bitmap, this`used, this`addrs, this`tab, this`logBits, this`logBlocks
      ensures Valid() && Kept(old(tab), old(disk), tab, disk) && |addrs| == |old(addrs)|
      ensures addr == tab[DataSlot(ino, bn)] && (addr == 0 ==> Full(used))
      ensures old(tab)[DataSlot(ino, bn)] != 0 ==> Same()
      ensures MapsTo(old(Now()), Now(), DataSlot(ino, bn), RootSlot(ino)) && Logged(old(LogNow()), LogNow(), bmapstart)
    {
      if bn < NDIRECT {
        assert tab[Slot(ino, bn)] == addrs[ino][bn];
        addr := addrs[ino][bn];
        if addr == 0 {
          addr := AssignDirect(ino, bn);
        }
      } else {
        addr := BmapIndirect(ino, bn - NDIRECT);
      }
    }

    /** The indirect part of bmap once the indirect block exists. */
    method BmapEntry(ino: int, j: int) returns (addr: int)
      requires Valid() && 0 <= ino < |addrs| && 0 <= j < NINDIRECT && addrs[ino][NDIRECT] != 0
      modifies this`disk, this`bitmap, this`used, this`tab, this`logBits, this`logBlocks
      ensures Valid() && Kept(old(tab), old(disk), tab, disk)
      ensures addr == tab[EntrySlot(ino, j)] && (addr == 0 ==> Full(used))
      ensures old(tab)[EntrySlot(ino, j)] != 0 || addr == 0 ==> Same()
      ensures old(tab)[EntrySlot(ino, j)] == 0 && addr != 0 ==>
        && tab == old(tab)[EntrySlot(ino, j) := addr]
        && logBlocks == old(logBlocks) + {addr, addrs[ino][NDIRECT]} && |logBits| <= |old(logBits)| + 1
      ensures Logged(old(LogNow()), LogNow(), bmapstart)
    {
      var r := addrs[ino][NDIRECT];
      assert tab[Slot(ino, NDIRECT)] == r;
      assert tab[EntrySlot(ino, j)] == Entry(disk, r, j);
      addr := Word(disk[r], j);
      if addr == 0 {
        addr := AssignEntry(ino, j);
      }
    }

    method BmapIndirect(ino: int, j: int) returns (addr: int)
      requires Valid() && 0 <= ino < |addrs| && 0 <= j < NINDIRECT
      modifies this`disk, this`bitmap, this`used, this`addrs, this`tab, this`logBits, this`logBlocks
      ensures Valid() && Kept(old(tab), old(disk), tab, disk) && |addrs| == |old(addrs)|
      ensures addr == tab[EntrySlot(ino, j)] && (addr == 0 ==> Full(used))
      ensures old(tab)[EntrySlot(ino, j)] != 0 ==> Same()
      ensures MapsTo(old(Now()), Now(), EntrySlot(ino, j), RootSlot(ino)) && Logged(old(LogNow()), LogNow(), bmapstart)
    {
      assert tab[Slot(ino, NDIRECT)] == addrs[ino][NDIRECT];
      if addrs[ino][NDIRECT] != 0 {
        addr := BmapEntry(ino, j);
      } else {
        assert tab[EntrySlot(ino, j)] == Entry(disk, 0, j) == 0;
        var root := AssignDirect(ino, NDIRECT);
        if root == 0 { return 0; }
        ghost var w, l := Now(), LogNow();
        assert tab[Slot(ino, NDIRECT)] == addrs[ino][NDIRECT] == root;
        addr := BmapEntry(ino, j);
        KeptTransitive(old(tab), old(disk), w.tab, w.disk, tab, disk);
        RootAndEntry(old(Now()), w, Now(), EntrySlot(ino, j), RootSlot(ino), root, addr);
        LoggedTransitive(old(LogNow()), l, LogNow(), bmapstart);
      }
    }

    twostate predicate Same()
      reads this
    {
      && disk == old(disk) && used == old(used) && addrs == old(addrs) && isize == old(isize) && tab == old(tab)
      && logBits == old(logBits) && logBlocks == old(logBlocks)
    }

    ghost function Now(): Snap
      reads this
    {
      Snap(disk, tab, logBlocks, |logBits|)
    }

    /** The content of an inode as a flat byte sequence. */
    ghost function Bytes(ino: int): (c: seq<byte>)
      requires 0 <= ino < |isize| && 0 <= isize[ino]
      reads this
    {
      Content(disk, tab, ino, isize[ino])
    }

    /** One iteration of readi: as much as wanted and as the block at offset o holds. */
    method ReadBlock(ino: int, o: int, want: int, ghost c: seq<byte>) returns (d: seq<byte>)
      requires 0 <= ino < |isize| && 0 <= isize[ino] && c == Bytes(ino)
      requires Valid() && 0 <= ino < |isize| && 0 <= o && 0 < want && o + want <= isize[ino]
      modifies this`disk, this`bitmap, this`used, this`addrs, this`tab, this`logBits, this`logBlocks
      ensures BitmapOk(bitmap, used) && Same() && 0 < |d| <= want && o + |d| <= |c| && d == c[o..o + |d|]
    {
      MappedBelowSize(tab, isize, ino, o);
      var addr := Bmap(ino, o / BSIZE);
      var m := if want < BSIZE - o % BSIZE then want else BSIZE - o % BSIZE;
      BlockBytes(disk, tab, ino, isize[ino], o, m);
      d := disk[addr][o % BSIZE..o % BSIZE + m];
    }

    /** readi: exactly the bytes off .. min(off + n, size) of the content; the state does not
        change, because every block below the size is mapped. */
    method Readi(ino: int, off: int, n: int) returns (data: seq<byte>)
      requires Valid() && 0 <= ino < |isize| && 0 <= off < UINT && 0 <= n < UINT
      modifies this`disk, this`bitmap, this`used, this`addrs, this`tab, this`logBits, this`logBlocks
      ensures BitmapOk(bitmap, used) && Same()
      ensures data == if off > isize[ino] || off + n >= UINT then []
                      else if off + n > isize[ino] then Bytes(ino)[off..] else Bytes(ino)[off..off + n]
    {
      data := [];
      UintSum(off, n);
      if off > isize[ino] || (off + n) % UINT < off { return; }
      var len := if off + n > isize[ino] then isize[ino] - off else n;
      var tot := 0;
      ghost var c := Bytes(ino);
      while tot < len
        invariant 0 <= tot <= len && BitmapOk(bitmap, used) && Same()
        invariant data == c[off..off + tot]
      {
        var d := ReadBlock(ino, off + tot, len - tot, c);
        Extend(c, off, tot, data, d);
        data := data + d;
        tot := tot + |d|;
      }
    }

    /** One iteration of writei: as much of d as the block at offset o takes; nothing if bmap
        found the disk full. */
    method WriteBlock(ino: int, o: int, d: seq<byte>, ghost x: Snap) returns (m: int, ghost y: Snap)
      requires x == Now()
      requires Valid() && 0 <= ino < |isize| && 0 <= o && 0 < |d| && o + |d| <= MAXFILE * BSIZE
      modifies this`disk, this`bitmap, this`used, this`addrs, this`tab, this`logBits, this`logBlocks
      ensures Valid() && |addrs| == |old(addrs)| && |tab| == |old(tab)|
      ensures m == 0 ==> Full(used)
      ensures y == Now() && WroteOne(x, y, ino, o, d, m)
      ensures Logged(old(LogNow()), LogNow(), bmapstart)
    {
      var addr := Bmap(ino, o / BSIZE);
      ghost var w, l := Now(), LogNow();
      m := 0;
      if addr != 0 {
        m := CopyIn(ino, o, addr, d);
        LoggedTransitive(old(LogNow()), l, LogNow(), bmapstart);
      }
      y := Now();
      BlockWritten(x, w, y, used, datastart, ino, o, d, m);
    }

    /** either_copyin into the block at offset o, and log_write. */
    method CopyIn(ghost ino: int, o: int, addr: int, d: seq<byte>) returns (m: int)
      requires Valid() && 0 <= ino < |isize| && 0 <= o < MAXFILE * BSIZE && addr == tab[DataSlot(ino, o / BSIZE)] != 0
      modifies this`disk, this`logBlocks
      ensures Valid() && m == (if |d| < BSIZE - o % BSIZE then |d| else BSIZE - o % BSIZE) && 0 < addr < |old(disk)|
      ensures disk == old(disk)[addr := Splice(old(disk)[addr], o % BSIZE, d[..m])]
      ensures logBlocks == old(logBlocks) + {addr} && Logged(old(LogNow()), LogNow(), bmapstart)
    {
      m := if |d| < BSIZE - o % BSIZE then |d| else BSIZE - o % BSIZE;
      OwnedIsNoOtherRoot(tab, addrs, disk, used, datastart, DataSlot(ino, o / BSIZE));
      NotARoot(ino, o / BSIZE);
      WriteKeepsTab(tab, addrs, disk, addr, Splice(disk[addr], o % BSIZE, d[..m]));
      disk := disk[addr := Splice(disk[addr], o % BSIZE, d[..m])];
      logBlocks := logBlocks + {addr};
      LoggedOne(old(LogNow()), LogNow(), bmapstart, addr);
    }

    /** One iteration of writei with the bookkeeping of its loop. */
    method WriteNext(ino: int, off: int, src: seq<byte>, tot: int, ghost z: Snap, ghost x: Snap, ghost D: set<int>,
                     ghost k: nat, ghost a: nat)
      returns (tot': int, ghost y: Snap, ghost D': set<int>, ghost k': nat, ghost a': nat)
      requires Valid() && 0 <= ino < |isize| && 0 <= off <= isize[ino] && off + |src| <= MAXFILE * BSIZE
      requires x == Now() && Writing(z, x, ino, off, src, tot, D, k, a) && tot < |src|
      modifies this`disk, this`bitmap, this`used, this`addrs, this`tab, this`logBits, this`logBlocks
      ensures Valid() && tot <= tot' && (tot' == tot ==> Full(used))
      ensures y == Now() && Writing(z, y, ino, off, src, tot', D', k', a')
      ensures Logged(old(LogNow()), LogNow(), bmapstart)
    {
      var o, d := off + tot, src[tot..];
      FirstBlockMapped(tab, isize, ino, off, tot);
      var m;
      m, y := WriteBlock(ino, o, d, x);
      tot' := tot + m;
      D', k', a' := WritingNext(z, x, y, ino, off, src, tot, D, k, a, o, d, m);
    }

    /** The loop of writei, before the size is updated. */
    method WriteLoop(ino: int, off: int, src: seq<byte>, ghost z: Snap)
      returns (tot: int, ghost y: Snap, ghost D: set<int>, ghost k: nat, ghost a: nat)
      requires Valid() && 0 <= ino < |isize| && 0 <= off <= isize[ino] && off + |src| <= MAXFILE * BSIZE && z == Now()
      modifies this`disk, this`bitmap, this`used, this`addrs, this`tab, this`logBits, this`logBlocks
      ensures Valid() && (tot < |src| ==> Full(used))
      ensures y == Now() && Writing(z, y, ino, off, src, tot, D, k, a)
      ensures Logged(old(LogNow()), LogNow(), bmapstart)
    {
      tot, D, k, a, y := 0, {}, 0, 0, z;
      WroteNothing(disk, tab, ino, off);
      while tot < |src|
        invariant Valid() && y == Now() && Writing(z, y, ino, off, src, tot, D, k, a)
        invariant Logged(old(LogNow()), LogNow(), bmapstart)
      {
        var next;
        ghost var l := LogNow();
        next, y, D, k, a := WriteNext(ino, off, src, tot, z, y, D, k, a);
        LoggedTransitive(old(LogNow()), l, LogNow(), bmapstart);
        if next == tot { break; }
        tot := next;
      }
    }

    /** The loop and how much it logs. */
    method WriteBounded(ino: int, off: int, src: seq<byte>) returns (r: int)
      requires Valid() && 0 <= ino < |isize| && 0 <= off <= isize[ino] && off + |src| <= MAXFILE * BSIZE
      modifies this`disk, this`bitmap, this`used, this`addrs, this`tab, this`logBits, this`logBlocks
      ensures Valid() && 0 <= r <= |src| && (r < |src| ==> Full(used))
      ensures Wrote(old(disk), old(tab), disk, tab, ino, off, src[..r])
      ensures |src| <= 3 * BSIZE ==> |logBits| + |logBlocks - old(logBlocks)| + 1 <= |old(logBits)| + MAXOPBLOCKS
      ensures Logged(old(LogNow()), LogNow(), bmapstart) && Grows(old(tab), tab)
    {
      ghost var z := Now();
      ghost var y, D, k, a;
      r, y, D, k, a := WriteLoop(ino, off, src, z);
      if |src| <= 3 * BSIZE {
        LogAcctBound(z.logBlocks, y.logBlocks, z.tab[RootSlot(ino)], y.tab[RootSlot(ino)], z.nbits, y.nbits, D, k, a,
                     off, |src|);
      }
    }

    /** writei: -1 for an offset past the end, an overflowing range or one beyond MAXFILE
        blocks; otherwise the number of bytes written, short only when the disk is full. The
        bytes written are spliced into the content, every other file keeps its content, and
        a write of at most three blocks' worth of bytes logs at most MAXOPBLOCKS blocks. */
    method Writei(ino: int, off: int, src: seq<byte>) returns (r: int)
      requires Valid() && 0 <= ino < |isize| && 0 <= off < UINT && |src| < UINT
      modifies this
      ensures Valid() && |isize| == |old(isize)|
      ensures r == -1 <==> off > old(isize)[ino] || off + |src| > MAXFILE * BSIZE
      ensures r == -1 ==> Same()
      ensures r != -1 ==> 0 <= r <= |src| && (r < |src| ==> Full(used))
      ensures r != -1 ==> Bytes(ino) == SpliceContent(old(Bytes(ino)), off, src[..r])
      ensures forall i | 0 <= i < |isize| && i != ino :: isize[i] == old(isize)[i] && Bytes(i) == old(Bytes(i))
      ensures |src| <= 3 * BSIZE ==> |logBits| + |logBlocks - old(logBlocks)| + 1 <= |old(logBits)| + MAXOPBLOCKS
      ensures Logged(old(LogNow()), LogNow(), bmapstart) && Grows(old(tab), tab)
    {
      UintSum(off, |src|);
      if off > isize[ino] || (off + |src|) % UINT < off { return -1; }
      if off + |src| > MAXFILE * BSIZE { return -1; }
      r := WriteRange(ino, off, src);
    }

    /** writei of a range that has been accepted. */
    method WriteRange(ino: int, off: int, src: seq<byte>) returns (r: int)
      requires Valid() && 0 <= ino < |isize| && 0 <= off <= isize[ino] && off + |src| <= MAXFILE * BSIZE
      modifies this
      ensures Valid() && |isize| == |old(isize)|
      ensures 0 <= r <= |src| && (r < |src| ==> Full(used))
      ensures Bytes(ino) == SpliceContent(old(Bytes(ino)), off, src[..r])
      ensures forall i | 0 <= i < |isize| && i != ino :: isize[i] == old(isize)[i] && Bytes(i) == old(Bytes(i))
      ensures |src| <= 3 * BSIZE ==> |logBits| + |logBlocks - old(logBlocks)| + 1 <= |old(logBits)| + MAXOPBLOCKS
      ensures Logged(old(LogNow()), LogNow(), bmapstart) && Grows(old(tab), tab)
    {
      r := WriteBounded(ino, off, src);
      WroteContents(old(disk), old(tab), disk, tab, isize, ino, off, src[..r]);
      if off + r > isize[ino] {
        GrowKeepsFile(old(disk), old(tab), disk, tab, isize, ino, off, src[..r]);
        isize := isize[ino := off + r];
      }
    }

    /** bfree of block b, which slot s holds. */
    method Drop(b: int, ghost s: int, ghost t: seq<int>) returns (panicked: bool, ghost t': seq<int>)
      requires OwnOk(t, used, datastart) && BitmapOk(bitmap, used) && 0 <= s < |t| && t[s] == b != 0
      modifies this`bitmap, this`used, this`logBits
      ensures !panicked && t' == t[s := 0] && |used| == |old(used)| && OwnOk(t', used, datastart)
      ensures BitmapOk(bitmap, used) && Logged(old(LogNow()), LogNow(), bmapstart)
    {
      DropKeepsOwn(t, used, datastart, s);
      panicked := Bfree(b);
      LoggedFree(old(LogNow()), LogNow(), bmapstart, b);
      t' := t[s := 0];
    }

    /** The first loop of itrunc: the direct blocks. */
    method TruncDirect(ino: int) returns (panicked: bool, ghost t: seq<int>)
      requires Valid() && 0 <= ino < |addrs|
      modifies this`bitmap, this`used, this`addrs, this`logBits
      ensures !panicked && |used| == |old(used)| && DirectCut(old(addrs), addrs, ino, NDIRECT)
      ensures Truncating(tab, t, ino, NDIRECT, 0, false) && OwnOk(t, used, datastart) && BitmapOk(bitmap, used)
      ensures Logged(old(LogNow()), LogNow(), bmapstart)
    {
      t, panicked := tab, false;
      var i := 0;
      while i < NDIRECT
        invariant 0 <= i <= NDIRECT && !panicked && |used| == |old(used)| && DirectCut(old(addrs), addrs, ino, i)
        invariant Truncating(tab, t, ino, i, 0, false) && OwnOk(t, used, datastart) && BitmapOk(bitmap, used)
        invariant Logged(old(LogNow()), LogNow(), bmapstart)
      {
        assert t[Slot(ino, i)] == tab[Slot(ino, i)] == old(addrs)[ino][i];
        ghost var l, t0, addrs0 := LogNow(), t, addrs;
        if addrs[ino][i] != 0 {
          panicked, t := Drop(addrs[ino][i], Slot(ino, i), t);
          addrs := addrs[ino := addrs[ino][i := 0]];
          LoggedTransitive(old(LogNow()), l, LogNow(), bmapstart);
        }
        TruncOne(tab, t0, t, ino, i);
        CutOne(old(addrs), addrs0, addrs, ino, i);
        i := i + 1;
      }
    }

    /** The second loop of itrunc: the blocks listed in the indirect block r. */
    method TruncEntries(ino: int, r: int, ghost t0: seq<int>) returns (panicked: bool, ghost t: seq<int>)
      requires 0 <= ino && 0 < r < |disk| == |used| && OwnOk(t0, used, datastart) && BitmapOk(bitmap, used)
      requires Truncating(tab, t0, ino, NDIRECT, 0, false)
      requires forall j | 0 <= j < NINDIRECT :: tab[EntrySlot(ino, j)] == Word(disk[r], j)
      modifies this`bitmap, this`used, this`logBits
      ensures !panicked && |used| == |old(used)|
      ensures Truncating(tab, t, ino, NDIRECT, NINDIRECT, false) && OwnOk(t, used, datastart) && BitmapOk(bitmap, used)
      ensures Logged(old(LogNow()), LogNow(), bmapstart)
    {
      t, panicked := t0, false;
      var j := 0;
      while j < NINDIRECT
        invariant 0 <= j <= NINDIRECT && !panicked && |used| == |old(used)|
        invariant Truncating(tab, t, ino, NDIRECT, j, false) && OwnOk(t, used, datastart) && BitmapOk(bitmap, used)
        invariant Logged(old(LogNow()), LogNow(), bmapstart)
      {
        var b := Word(disk[r], j);
        assert t[EntrySlot(ino, j)] == tab[EntrySlot(ino, j)] == b;
        if b != 0 {
          ghost var l := LogNow();
          panicked, t := Drop(b, EntrySlot(ino, j), t);
          LoggedTransitive(old(LogNow()), l, LogNow(), bmapstart);
        }
        j := j + 1;
      }
    }

    /** The indirect part of itrunc. */
    method TruncIndirect(ino: int, ghost t0: seq<int>) returns (panicked: bool, ghost t: seq<int>)
      requires |disk| == |used| && 0 <= ino < |addrs| && |addrs[ino]| == NDIRECT + 1
      requires OwnOk(t0, used, datastart) && BitmapOk(bitmap, used) && Truncating(tab, t0, ino, NDIRECT, 0, false)
      requires tab[RootSlot(ino)] == addrs[ino][NDIRECT]
      requires forall j | 0 <= j < NINDIRECT :: tab[EntrySlot(ino, j)] == Entry(disk, addrs[ino][NDIRECT], j)
      modifies this`bitmap, this`used, this`addrs, this`logBits
      ensures !panicked && |used| == |old(used)| && |addrs| == |old(addrs)| && |old(addrs)[ino]| == NDIRECT + 1
      ensures addrs == old(addrs)[ino := old(addrs)[ino][NDIRECT := 0]]
      ensures Truncating(tab, t, ino, NDIRECT, NINDIRECT, true) && OwnOk(t, used, datastart) && BitmapOk(bitmap, used)
      ensures Logged(old(LogNow()), LogNow(), bmapstart)
    {
      var r := addrs[ino][NDIRECT];
      t, panicked := t0, false;
      assert t[RootSlot(ino)] == r;
      if r != 0 {
        panicked, t := TruncEntries(ino, r, t);
        ghost var l := LogNow();
        assert t[RootSlot(ino)] == r;
        panicked, t := Drop(r, RootSlot(ino), t);
        LoggedTransitive(old(LogNow()), l, LogNow(), bmapstart);
        addrs := addrs[ino := addrs[ino][NDIRECT := 0]];
      } else {
        NoEntries(tab, t, ino);
        assert addrs[ino][NDIRECT := 0] == addrs[ino];
      }
    }

    /** Both parts. */
    method TruncBlocks(ino: int) returns (panicked: bool, ghost t: seq<int>)
      requires Valid() && 0 <= ino < |addrs|
      modifies this`bitmap, this`used, this`addrs, this`logBits
      ensures !panicked && |used| == |old(used)| && |addrs| == |old(addrs)| && |addrs[ino]| == NDIRECT + 1
      ensures forall l | 0 <= l < |addrs| && l != ino :: addrs[l] == old(addrs)[l]
      ensures forall k | 0 <= k <= NDIRECT :: addrs[ino][k] == 0
      ensures Truncating(tab, t, ino, NDIRECT, NINDIRECT, true) && OwnOk(t, used, datastart) && BitmapOk(bitmap, used)
      ensures Logged(old(LogNow()), LogNow(), bmapstart)
    {
      panicked, t := TruncDirect(ino);
      ghost var l := LogNow();
      assert tab[Slot(ino, NDIRECT)] == old(addrs)[ino][NDIRECT];
      panicked, t := TruncIndirect(ino, t);
      LoggedTransitive(old(LogNow()), l, LogNow(), bmapstart);
    }

    /** itrunc: frees exactly the blocks of the inode, each once, so that bfree's panic is
        never reached; the inode ends empty and every other file keeps its content. */
    method Itrunc(ino: int) returns (panicked: bool)
      requires Valid() && 0 <= ino < |isize|
      modifies this
      ensures Valid() && !panicked && |old(isize)| == |isize| && isize == old(isize)[ino := 0]
      ensures Truncating(old(tab), tab, ino, NDIRECT, NINDIRECT, true)
      ensures |used| == |old(used)| && forall b | 0 < b < |used| ::
                used[b] <==> old(used)[b] && forall k | 0 <= k < NSLOTS :: old(tab)[Slot(ino, k)] != b
      ensures forall i | 0 <= i < |isize| && i != ino :: Bytes(i) == old(Bytes(i))
      ensures Logged(old(LogNow()), LogNow(), bmapstart)
    {
      ghost var t;
      panicked, t := TruncBlocks(ino);
      TruncatedAll(tab, old(used), t, used, datastart, disk, isize, ino);
      TruncatedTab(tab, t, old(addrs), addrs, disk, ino);
      tab := t;
      isize := isize[ino := 0];
    }

    /** The first w bytes of src have been written at offset off of what was content c. */
    ghost predicate Progressed(ino: int, off: int, src: seq<byte>, w: int, c: seq<byte>)
      requires 0 <= ino < |isize| && 0 <= isize[ino] && 0 <= off
      reads this
    {
      && 0 <= w <= |src|
      && (off <= |c| ==> Bytes(ino) == SpliceContent(c, off, src[..w]))
      && (off > |c| ==> w == 0 && Bytes(ino) == c)
    }

    twostate predicate OthersKept(ino: int)
      reads this
    {
      && |isize| == |old(isize)|
      && forall i | 0 <= i < |isize| && i != ino && 0 <= isize[i] ::
            isize[i] == old(isize)[i] && Bytes(i) == old(Bytes(i))
    }

    /** One iteration of filewrite: begin_op, writei of the next n1 bytes, end_op; i' bytes
        are written afterwards. */
    method WriteChunk(ino: int, off: int, src: seq<byte>, i: int, n1: int, ghost c: seq<byte>)
      returns (r: int, i': int, ghost cost: nat)
      requires Valid() && 0 <= ino < |isize| && 0 <= off && off + i < UINT && |src| < UINT
      requires Progressed(ino, off, src, i, c) && 0 < n1 <= 3 * BSIZE && i + n1 <= |src|
      modifies this
      ensures Valid() && OthersKept(ino) && -1 <= r <= n1 && cost <= MAXOPBLOCKS
      ensures i' == (if r > 0 then i + r else i) && Progressed(ino, off, src, i', c)
      ensures r == -1 ==> off > |c| || off + i + n1 > MAXFILE * BSIZE
      ensures 0 <= r < n1 ==> Full(used)
      ensures r >= 0 ==> off + i + r <= MAXFILE * BSIZE
      ensures Logged(Logs(old(disk), old(used), {}, {}), LogNow(), bmapstart)
    {
      logBits, logBlocks := {}, {};
      var d := src[i..i + n1];
      r := Writei(ino, off + i, d);
      i' := if r > 0 then i + r else i;
      cost := |logBits| + |logBlocks| + 1;
      assert logBlocks - {} == logBlocks;
      if r >= 0 {
        SpliceTwice(c, off, src[..i], d[..r]);
        assert src[..i] + d[..r] == src[..i'];
      }
    }

    /** filewrite on an inode: writes src at offset off in chunks, each in a transaction of
        its own that logs at most MAXOPBLOCKS blocks. Returns n or -1; the w bytes by which
        the offset advances are in either case a prefix of src, spliced in at off. */
    method FileWrite(ino: int, off: int, src: seq<byte>) returns (ret: int, w: int, ghost worst: nat)
      requires Valid() && 0 <= ino < |isize| && 0 <= off < UINT && |src| < UINT
      modifies this
      ensures Valid() && OthersKept(ino) && worst <= MAXOPBLOCKS
      ensures Progressed(ino, off, src, w, old(Bytes(ino)))
      ensures ret == (if w == |src| then |src| else -1)
      ensures ret == -1 ==> off > old(isize)[ino] || off + |src| > MAXFILE * BSIZE || Full(used)
    {
      var max := ((MAXOPBLOCKS - 1 - 1 - 2) / 2) * BSIZE;
      var i := 0;
      w, worst := 0, 0;
      ghost var c := Bytes(ino);
      if off <= |c| { SpliceNothing(c, off); }
      while i < |src|
        invariant i == w && off + w < UINT && worst <= MAXOPBLOCKS
        invariant Valid() && OthersKept(ino) && Progressed(ino, off, src, w, c)
      {
        var n1 := if |src| - i > max then max else |src| - i;
        ghost var cost;
        var r;
        r, w, cost := WriteChunk(ino, off, src, w, n1, c);
        worst := if cost > worst then cost else worst;
        if r != n1 { break; }
        i := i + r;
      }
      ret := if i == |src| then |src| else -1;
    }
  }
}
