/** The loops of kernel/log.c as they are written, one block write at a time. `trace`
    records the disk after every bwrite, so a statement about all its elements is a
    statement about every point at which a crash can fall. */
module LogCode {
  import opened LogFormat

  /** After a crash with disk d, recovery produces the home blocks of c. */
  ghost predicate CrashView(d: Disk, start: nat, c: Disk) {
    HeaderOk(d, start) && Represents(d, start, Header(d, start), c)
  }

  ghost predicate AllView(tr: seq<Disk>, start: nat, c: Disk) {
    forall k | 0 <= k < |tr| :: CrashView(tr[k], start, c)
  }

  lemma TraceCons(t: seq<Disk>, d: Disk, writes: seq<Disk>, start: nat, c: Disk)
    requires CrashView(d, start, c) && AllView(writes, start, c)
    ensures AllView([d] + writes, start, c) && t + [d] + writes == t + ([d] + writes)
  {
  }

  lemma InstallKeepsView(d: Disk, start: nat, k: nat, c: Disk)
    requires CrashView(d, start, c) && k < |Header(d, start)|
    ensures var d' := d[Header(d, start)[k] := d[start + 1 + k]];
      CrashView(d', start, c) && Header(d', start) == Header(d, start)
  {
    HeaderUntouched(d, start, Header(d, start)[k], d[start + 1 + k]);
  }

  lemma LogWriteKeepsView(d: Disk, start: nat, k: nat, data: Block, c: Disk)
    requires CrashView(d, start, c) && Header(d, start) == [] && k < LOGBLOCKS
    ensures var d' := d[start + 1 + k := data]; CrashView(d', start, c) && Header(d', start) == []
  {
    HeaderUntouched(d, start, start + 1 + k, data);
  }

  lemma HeadWriteGivesView(d: Disk, start: nat, lh: seq<nat>, blk: Block, c: Disk)
    requires start + LOGBLOCKS < |d| == |c| && |blk| == WORDS && |lh| <= LOGBLOCKS
    requires forall i | 0 <= i < |lh| :: lh[i] < |d| && Home(|d|, start, lh[i])
    requires forall i | 0 <= i < |lh| :: d[start + 1 + i] == c[lh[i]]
    requires forall b: nat {:trigger Home(|d|, start, b)} | Home(|d|, start, b) && b !in lh :: d[b] == c[b]
    ensures var d' := d[start := EncodeHeader(blk, lh)]; CrashView(d', start, c) && Header(d', start) == lh
  {
    EncodedHeaderOk(d, start, lh, blk);
  }

  /** Installing never changes the log area it reads from. */
  lemma LogAreaUntouched(d: Disk, start: nat, h: seq<nat>, k: nat)
    requires start + LOGBLOCKS < |d| && |h| <= LOGBLOCKS && k < LOGBLOCKS
    requires forall i | 0 <= i < |h| :: Home(|d|, start, h[i]) && h[i] < |d|
    ensures Replay(d, d, start, h)[start + 1 + k] == d[start + 1 + k]
  {
    ReplayAt(d, d, start, h, start + 1 + k);
  }

  lemma ReplayStep(base: Disk, d: Disk, start: nat, h: seq<nat>, n: nat)
    requires start + LOGBLOCKS < |d| == |base| && n < |h| <= LOGBLOCKS && forall i | 0 <= i < |h| :: h[i] < |d|
    ensures Replay(base, d, start, h[..n + 1]) == Replay(base, d, start, h[..n])[h[n] := d[start + 1 + n]]
  {
    assert h[..n + 1][..n] == h[..n];
  }

  /** One iteration of install_trans. */
  lemma InstallNext(d: Disk, c: Disk, start: nat, h: seq<nat>, n: nat, d1: Disk, c1: Disk, d2: Disk, c2: Disk)
    requires start + LOGBLOCKS < |d| == |c| && n < |h| <= LOGBLOCKS
    requires forall i | 0 <= i < |h| :: Home(|d|, start, h[i]) && h[i] < |d|
    requires d1 == Replay(d, d, start, h[..n]) && c1 == Replay(c, d, start, h[..n])
    requires d2 == d1[h[n] := d1[start + 1 + n]] && c2 == c1[h[n] := d1[start + 1 + n]]
    ensures d2 == Replay(d, d, start, h[..n + 1]) && c2 == Replay(c, d, start, h[..n + 1])
  {
    LogAreaUntouched(d, start, h[..n], n);
    ReplayStep(d, d, start, h, n);
    ReplayStep(c, d, start, h, n);
  }

  lemma ReplayNext(d: Disk, start: nat, h: seq<nat>, n: nat)
    requires start + LOGBLOCKS < |d| && n < |h| <= LOGBLOCKS
    requires forall i | 0 <= i < |h| :: Home(|d|, start, h[i]) && h[i] < |d|
    ensures var p := Replay(d, d, start, h[..n]); Replay(d, d, start, h[..n + 1]) == p[h[n] := p[start + 1 + n]]
  {
    ReplayStep(d, d, start, h, n);
    LogAreaUntouched(d, start, h[..n], n);
  }

  /** With the first n logged blocks installed a crash still finds c. */
  ghost predicate PrefixOk(d: Disk, start: nat, n: nat, c: Disk)
    requires HeaderOk(d, start) && n <= |Header(d, start)|
  {
    var d' := Replay(d, d, start, Header(d, start)[..n]);
    CrashView(d', start, c) && Header(d', start) == Header(d, start)
  }

  /** Whatever prefix of the log has been installed, a crash still finds c ... */
  lemma {:induction false} InstalledPrefixKeepsView(d: Disk, start: nat, n: nat, c: Disk)
    requires CrashView(d, start, c) && n <= |Header(d, start)|
    ensures PrefixOk(d, start, n, c)
    decreases n
  {
    if n == 0 {
      assert Header(d, start)[..0] == [];
    } else {
      InstalledPrefixKeepsView(d, start, n - 1, c);
      PrefixStep(d, start, n - 1, c);
    }
  }

  lemma PrefixStep(d: Disk, start: nat, n: nat, c: Disk)
    requires HeaderOk(d, start) && n < |Header(d, start)| && PrefixOk(d, start, n, c)
    ensures PrefixOk(d, start, n + 1, c)
  {
    ReplayNext(d, start, Header(d, start), n);
    InstallKeepsView(Replay(d, d, start, Header(d, start)[..n]), start, n, c);
  }

  /** ... and after the whole log c is in place. */
  lemma InstalledAll(d: Disk, start: nat, c: Disk)
    requires CrashView(d, start, c)
    ensures var d' := Recovered(d, start);
      SameHome(d', c, start) && CrashView(d', start, c) && Header(d', start) == Header(d, start)
  {
    var h := Header(d, start);
    InstalledPrefixKeepsView(d, start, |h|, c);
    assert h[..|h|] == h;
    forall b: nat {:trigger Home(|d|, start, b)} | Home(|d|, start, b)
      ensures Recovered(d, start)[b] == c[b]
    {
      ReplayAt(d, d, start, h, b);
    }
  }

  class RedoLog {
    const start: nat
    var disk: Disk
    var cache: Disk            // what bread returns for each block
    var lh: seq<nat>           // log.lh.block[..log.lh.n]
    var outstanding: nat
    ghost var trace: seq<Disk>

    constructor (disk: Disk, start: nat)
      requires HeaderOk(disk, start)
      ensures this.disk == disk && this.start == start && cache == disk && lh == [] && outstanding == 0 && trace == []
    {
      this.disk, this.start, this.cache, this.lh, this.outstanding, this.trace := disk, start, disk, [], 0, [];
    }

    ghost predicate Shape()
      reads this
    {
      && start + LOGBLOCKS < |disk| == |cache|
      && |lh| <= LOGBLOCKS
      && forall i | 0 <= i < |lh| :: Home(|disk|, start, lh[i])
    }

    method Bwrite(b: nat, data: Block)
      requires b < |disk|
      modifies this`disk, this`trace
      ensures disk == old(disk)[b := data] && trace == old(trace) + [disk]
    {
      disk := disk[b := data];
      trace := trace + [disk];
    }

    /** log_write of block b with the contents left in its buffer. The log is searched for
        b first, so that no block number is ever logged twice; the panic tests come before
        the search, so a full log panics even for a block it already holds. */
    method LogWrite(b: nat, data: Block) returns (panicked: bool)
      requires Shape() && Distinct(lh) && Home(|disk|, start, b)
      modifies this`cache, this`lh
      ensures panicked == (|old(lh)| >= LOGBLOCKS || outstanding < 1)
      ensures Shape() && Distinct(lh) && b < |old(cache)|
      ensures panicked ==> lh == old(lh) && cache == old(cache)
      ensures !panicked ==> cache == old(cache)[b := data] && lh == if b in old(lh) then old(lh) else old(lh) + [b]
    {
      if |lh| >= LOGBLOCKS { return true; }
      if outstanding < 1 { return true; }
      cache := cache[b := data];
      var i := 0;
      while i < |lh|
        invariant 0 <= i <= |lh| && b !in lh[..i]
      {
        if lh[i] == b { break; }
        i := i + 1;
      }
      if i == |lh| {
        lh := lh + [b];
      } else {
        lh := lh[i := b];
      }
      return false;
    }

    /** Copies the logged blocks from the cache to the log area; every crash on the way
        still finds the old contents c. */
    method WriteLog(ghost c: Disk) returns (ghost writes: seq<Disk>)
      requires Shape() && CrashView(disk, start, c) && Header(disk, start) == []
      modifies this`disk, this`trace
      ensures |disk| == |old(disk)|
      ensures forall b: nat {:trigger Home(|disk|, start, b)} | Home(|disk|, start, b) :: disk[b] == old(disk)[b]
      ensures forall i | 0 <= i < |lh| :: disk[start + 1 + i] == cache[lh[i]]
      ensures CrashView(disk, start, c)
      ensures trace == old(trace) + writes && |writes| == |lh| && AllView(writes, start, c)
    {
      var tail := 0;
      writes := [];
      while tail < |lh|
        invariant 0 <= tail <= |lh| && |disk| == |old(disk)|
        invariant forall b: nat {:trigger Home(|disk|, start, b)} | Home(|disk|, start, b) :: disk[b] == old(disk)[b]
        invariant forall i | 0 <= i < tail :: disk[start + 1 + i] == cache[lh[i]]
        invariant CrashView(disk, start, c) && Header(disk, start) == []
        invariant trace == old(trace) + writes && |writes| == tail && AllView(writes, start, c)
      {
        LogWriteKeepsView(disk, start, tail, cache[lh[tail]], c);
        Bwrite(start + 1 + tail, cache[lh[tail]]);
        writes := writes + [disk];
        tail := tail + 1;
      }
    }

    /** Writes n and the first n entries into the header block, word by word, then the
        block to disk in one write. */
    method WriteHead()
      requires Shape() && |disk[start]| == WORDS
      modifies this`disk, this`trace
      ensures disk == old(disk)[start := EncodeHeader(old(disk)[start], lh)]
      ensures trace == old(trace) + [disk]
    {
      var hb := disk[start];
      hb := hb[0 := |lh|];
      var i := 0;
      while i < |lh|
        invariant 0 <= i <= |lh| && |hb| == WORDS
        invariant hb == [|lh|] + lh[..i] + disk[start][1 + i..]
      {
        hb := hb[1 + i := lh[i]];
        i := i + 1;
      }
      assert lh[..i] == lh;
      Bwrite(start, hb);
    }

    /** Copies the logged blocks home, into the cache and onto the disk. */
    method InstallTrans() returns (ghost writes: seq<Disk>)
      requires Shape()
      modifies this`disk, this`cache, this`trace
      ensures disk == Replay(old(disk), old(disk), start, lh)
      ensures cache == Replay(old(cache), old(disk), start, lh)
      ensures trace == old(trace) + writes && |writes| == |lh|
      ensures forall k | 0 <= k < |writes| :: writes[k] == Replay(old(disk), old(disk), start, lh[..k + 1])
    {
      var tail := 0;
      writes := [];
      while tail < |lh|
        invariant 0 <= tail <= |lh|
        invariant disk == Replay(old(disk), old(disk), start, lh[..tail])
        invariant cache == Replay(old(cache), old(disk), start, lh[..tail])
        invariant trace == old(trace) + writes && |writes| == tail
        invariant forall k | 0 <= k < |writes| :: writes[k] == Replay(old(disk), old(disk), start, lh[..k + 1])
      {
        ghost var disk1, cache1 := disk, cache;
        var data := disk[start + 1 + tail];
        cache := cache[lh[tail] := data];
        Bwrite(lh[tail], data);
        InstallNext(old(disk), old(cache), start, lh, tail, disk1, cache1, disk, cache);
        writes := writes + [disk];
        tail := tail + 1;
      }
      assert lh[..tail] == lh;
    }

    /** read_head */
    method ReadHead()
      requires HeaderOk(disk, start)
      modifies this`lh
      ensures lh == Header(disk, start)
    {
      var blk := disk[start];
      var n := blk[0];
      lh := [];
      var i := 0;
      while i < n
        invariant 0 <= i <= n && lh == blk[1..1 + i]
      {
        lh := lh + [blk[1 + i]];
        i := i + 1;
      }
    }

    /** install_trans, log.lh.n = 0, write_head: the common end of commit() and of
        recover_from_log(). Every crash on the way finds the contents c that the log
        represents; at the end they are installed and the log is empty. */
    method InstallAndClear(ghost c: Disk) returns (ghost writes: seq<Disk>)
      requires Shape() && CrashView(disk, start, c) && Header(disk, start) == lh
      modifies this`disk, this`cache, this`trace, this`lh
      ensures SameHome(disk, c, start) && CrashView(disk, start, c) && Header(disk, start) == [] && lh == []
      ensures cache == Replay(old(cache), old(disk), start, old(lh))
      ensures trace == old(trace) + writes && |writes| == |old(lh)| + 1 && AllView(writes, start, c)
    {
      writes := InstallTrans();
      InstallTrace(old(disk), start, c, writes);
      lh := [];
      HeadWriteGivesView(disk, start, [], disk[start], c);
      WriteHead();
      writes := writes + [disk];
    }

    /** Recovery leaves exactly the contents the log represented, with an empty log, and
        may itself crash after any block write without changing them. */
    method RecoverFromLog(ghost c: Disk) returns (ghost writes: seq<Disk>)
      requires |cache| == |disk| && CrashView(disk, start, c)
      modifies this`disk, this`cache, this`trace, this`lh
      ensures SameHome(disk, c, start) && CrashView(disk, start, c) && Header(disk, start) == [] && lh == []
      ensures trace == old(trace) + writes && AllView(writes, start, c)
    {
      ReadHead();
      writes := InstallAndClear(c);
    }

    /** commit(): before the first header write every crash finds the old contents c, from
        it on every crash finds all of the cached contents. */
    method Commit(ghost c: Disk) returns (ghost before: seq<Disk>, ghost after: seq<Disk>)
      requires Shape() && CrashView(disk, start, c) && Header(disk, start) == []
      requires forall b: nat {:trigger Home(|disk|, start, b)} | Home(|disk|, start, b) && b !in lh ::
          disk[b] == cache[b]
      modifies this`disk, this`cache, this`trace, this`lh
      ensures SameHome(cache, old(cache), start) && SameHome(disk, old(cache), start)
      ensures CrashView(disk, start, old(cache)) && Header(disk, start) == [] && lh == []
      ensures trace == old(trace) + before + after
      ensures |before| == |old(lh)| && (old(lh) != [] ==> |after| == |old(lh)| + 2)
      ensures AllView(before, start, c) && AllView(after, start, old(cache))
    {
      before, after := [], [];
      if |lh| > 0 {
        before := WriteLog(c);
        after := Publish();
      }
    }

    /** write_head, the commit itself, and what follows it. */
    method Publish() returns (ghost after: seq<Disk>)
      requires Shape() && |disk[start]| == WORDS && forall i | 0 <= i < |lh| :: disk[start + 1 + i] == cache[lh[i]]
      requires forall b: nat {:trigger Home(|disk|, start, b)} | Home(|disk|, start, b) && b !in lh ::
          disk[b] == cache[b]
      modifies this`disk, this`cache, this`trace, this`lh
      ensures SameHome(cache, old(cache), start) && SameHome(disk, old(cache), start)
      ensures CrashView(disk, start, old(cache)) && Header(disk, start) == [] && lh == []
      ensures trace == old(trace) + after && |after| == |old(lh)| + 2 && AllView(after, start, old(cache))
    {
      HeadWriteGivesView(disk, start, lh, disk[start], cache);
      WriteHead();
      ghost var d := disk;
      CacheUnchanged(cache, d, start, lh);
      ghost var writes := InstallAndClear(cache);
      after := [d] + writes;
      TraceCons(old(trace), d, writes, start, old(cache));
    }
  }

  /** Every disk on the way through install_trans, from d to its last element. */
  lemma InstallTrace(d: Disk, start: nat, c: Disk, tr: seq<Disk>)
    requires CrashView(d, start, c) && |tr| == |Header(d, start)|
    requires forall k | 0 <= k < |tr| :: tr[k] == Replay(d, d, start, Header(d, start)[..k + 1])
    ensures AllView(tr, start, c)
    ensures SameHome(Recovered(d, start), c, start) && CrashView(Recovered(d, start), start, c)
    ensures Header(Recovered(d, start), start) == Header(d, start)
  {
    forall k | 0 <= k < |tr|
      ensures CrashView(tr[k], start, c)
    {
      InstalledPrefixKeepsView(d, start, k + 1, c);
    }
    InstalledAll(d, start, c);
  }

  /** During commit the cache already holds what is copied into it. */
  lemma CacheUnchanged(cache: Disk, d: Disk, start: nat, h: seq<nat>)
    requires CrashView(d, start, cache) && Header(d, start) == h
    ensures SameHome(Replay(cache, d, start, h), cache, start)
  {
    forall b: nat {:trigger Home(|d|, start, b)} | Home(|d|, start, b)
      ensures Replay(cache, d, start, h)[b] == cache[b]
    {
      ReplayAt(cache, d, start, h, b);
    }
  }
}
