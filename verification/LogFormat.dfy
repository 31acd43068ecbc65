/** The on-disk redo log of kernel/log.c: a header block followed by LOGBLOCKS data blocks.
    Block contents are 256 words (BSIZE / sizeof(uint)); word 0 of the header block is `n`
    and words 1..n are the home block numbers. */
module LogFormat {

  const WORDS: nat := 256
  const MAXOPBLOCKS: nat := 10
  const LOGBLOCKS: nat := 30
  const NBUF: nat := 30

  type Block = seq<nat>
  type Disk = seq<Block>

  /** Block b belongs to the file system proper, not to the log region. */
  predicate Home(size: nat, start: nat, b: nat) {
    b < size && !InLog(start, b)
  }

  predicate InLog(start: nat, b: nat) {
    start <= b <= start + LOGBLOCKS
  }

  predicate HeaderOk(d: Disk, start: nat) {
    && start + LOGBLOCKS < |d|
    && |d[start]| == WORDS
    && d[start][0] <= LOGBLOCKS
    && forall i | 1 <= i <= d[start][0] :: Home(|d|, start, d[start][i])
  }

  /** The home block numbers recorded by the header on disk. */
  function Header(d: Disk, start: nat): (h: seq<nat>)
    requires HeaderOk(d, start)
    ensures forall i | 0 <= i < |h| :: Home(|d|, start, h[i])
  {
    d[start][1..1 + d[start][0]]
  }

  /** What write_head leaves in the header block: `n` and the first n entries are
      overwritten, the remaining words keep their old value. */
  function EncodeHeader(old_: Block, lh: seq<nat>): (blk: Block)
    requires |old_| == WORDS && |lh| <= LOGBLOCKS
    ensures |blk| == WORDS && blk[0] == |lh| && blk[1..1 + |lh|] == lh
  {
    [|lh|] + lh + old_[1 + |lh|..]
  }

  predicate Distinct(s: seq<nat>) {
    forall i, j | 0 <= i < j < |s| :: s[i] != s[j]
  }

  /** Disk d, as seen through a log with header h, holds the home blocks of c: blocks named
      by the header are taken from the log area, all others from their home location. */
  ghost predicate Represents(d: Disk, start: nat, h: seq<nat>, c: Disk)
    requires start + |h| < |d| && forall i | 0 <= i < |h| :: h[i] < |d|
  {
    && |c| == |d|
    && (forall b: nat {:trigger Home(|d|, start, b)} | Home(|d|, start, b) && b !in h :: d[b] == c[b])
    && (forall i | 0 <= i < |h| :: d[start + 1 + i] == c[h[i]])
  }

  ghost predicate SameHome(d: Disk, e: Disk, start: nat) {
    && |d| == |e|
    && forall b: nat {:trigger Home(|d|, start, b)} | Home(|d|, start, b) :: d[b] == e[b]
  }

  /** Copying log blocks start+1..start+|h| of d over the blocks h of base, in order. */
  function Replay(base: Disk, d: Disk, start: nat, h: seq<nat>): (r: Disk)
    requires start + |h| < |d| == |base|
    requires forall i | 0 <= i < |h| :: h[i] < |d|
    ensures |r| == |base|
  {
    if h == [] then base
    else Replay(base, d, start, h[..|h| - 1])[h[|h| - 1] := d[start + |h|]]
  }

  /** The disk that a complete recovery would produce (up to clearing the header). */
  function Recovered(d: Disk, start: nat): (r: Disk)
    requires HeaderOk(d, start)
    ensures |r| == |d|
  {
    Replay(d, d, start, Header(d, start))
  }

  /** Blocks not replayed keep their value; replayed ones come from one of their log copies. */
  lemma {:induction false} ReplayAt(base: Disk, d: Disk, start: nat, h: seq<nat>, b: nat)
    requires start + |h| < |d| == |base| && b < |d|
    requires forall i | 0 <= i < |h| :: h[i] < |d|
    ensures b !in h ==> Replay(base, d, start, h)[b] == base[b]
    ensures b in h ==> exists i :: 0 <= i < |h| && h[i] == b && Replay(base, d, start, h)[b] == d[start + 1 + i]
  {
    if h != [] {
      var n := |h| - 1;
      var p := h[..n];
      ReplayAt(base, d, start, p, b);
      if h[n] != b && b in p {
        var i :| 0 <= i < |p| && p[i] == b && Replay(base, d, start, p)[b] == d[start + 1 + i];
        assert h[i] == b;
      }
    }
  }

  /** A header without duplicates makes the disk represent what replay computes ... */
  lemma RecoveredIsRepresented(d: Disk, start: nat)
    requires HeaderOk(d, start) && Distinct(Header(d, start))
    ensures Represents(d, start, Header(d, start), Recovered(d, start))
  {
    var h := Header(d, start);
    forall b | 0 <= b < |d| && Home(|d|, start, b) && b !in h
      ensures d[b] == Recovered(d, start)[b]
    {
      ReplayAt(d, d, start, h, b);
    }
    forall i | 0 <= i < |h|
      ensures d[start + 1 + i] == Recovered(d, start)[h[i]]
    {
      ReplayAt(d, d, start, h, h[i]);
    }
  }

  /** ... and nothing else: a disk determines the home blocks it represents. */
  lemma RepresentsUnique(d: Disk, start: nat, h: seq<nat>, c: Disk, e: Disk)
    requires start + |h| < |d| && forall i | 0 <= i < |h| :: h[i] < |d|
    requires Represents(d, start, h, c) && Represents(d, start, h, e)
    ensures SameHome(c, e, start)
  {
    forall b | 0 <= b < |d| && Home(|d|, start, b)
      ensures c[b] == e[b]
    {
      if b in h {
        var i :| 0 <= i < |h| && h[i] == b;
        assert d[start + 1 + i] == c[h[i]] && d[start + 1 + i] == e[h[i]];
      } else {
        assert d[b] == c[b] && d[b] == e[b];
      }
    }
  }

  /** Writing any block but the header leaves the header alone. */
  lemma HeaderUntouched(d: Disk, start: nat, a: nat, data: Block)
    requires HeaderOk(d, start) && a < |d| && a != start
    ensures HeaderOk(d[a := data], start)
    ensures Header(d[a := data], start) == Header(d, start)
  {
    assert d[a := data][start] == d[start];
  }

  /** The block written by write_head decodes to the in-memory header. */
  lemma EncodedHeaderOk(d: Disk, start: nat, lh: seq<nat>, blk: Block)
    requires start + LOGBLOCKS < |d| && |blk| == WORDS && |lh| <= LOGBLOCKS
    requires forall i | 0 <= i < |lh| :: Home(|d|, start, lh[i])
    ensures HeaderOk(d[start := EncodeHeader(blk, lh)], start)
    ensures Header(d[start := EncodeHeader(blk, lh)], start) == lh
  {
    var w := EncodeHeader(blk, lh);
    var d' := d[start := w];
    forall i | 1 <= i <= w[0]
      ensures Home(|d'|, start, w[i])
    {
      assert w[i] == lh[i - 1];
    }
  }
}
