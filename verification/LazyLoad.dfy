/** Loading programs on demand: what kexec of kernel/exec.c records about each page and
    what lazy_handle_fault of kernel/lazy.c puts into a page that is touched. */
module LazyLoad {

  /** A program header; bytes of the file are numbers. */
  datatype Segment = Segment(load: bool, vaddr: int, memsz: int, filesz: int, off: int, exec: bool)

  type File = seq<int>

  function End(s: Segment): int { s.vaddr + s.memsz }

  /** Page p holds bytes of the segment. */
  predicate InSegment(s: Segment, p: int) { s.load && s.vaddr <= 4096 * p < End(s) }

  /** The checks of the program-header scan. */
  predicate Accepted(s: Segment) { s.load ==>
      s.filesz <= s.memsz && s.vaddr + s.memsz < 0x1_0000_0000_0000_0000 && s.vaddr % 4096 == 0 }

  predicate Unsigned(s: Segment) { 0 <= s.vaddr && 0 <= s.memsz && 0 <= s.filesz && 0 <= s.off }

  // ---------------------------------------------------------------- eager loading

  function FileByte(f: File, i: int): int { if 0 <= i < |f| then f[i] else 0 }

  /** Byte k of page p of a segment: the file's bytes, then zeros. */
  function EagerByte(f: File, s: Segment, p: int, k: int): int {
    if 4096 * p + k - s.vaddr < s.filesz then FileByte(f, s.off + (4096 * p + k - s.vaddr)) else 0
  }

  function EagerPage(f: File, s: Segment, p: int): seq<int> { seq(4096, k => EagerByte(f, s, p, k)) }

  // ---------------------------------------------------------------- what kexec records

  function PageOff(s: Segment, p: int): int {
    if 4096 * p - s.vaddr < s.filesz then s.off + (4096 * p - s.vaddr) else 0
  }

  function PageLen(s: Segment, p: int): int {
    var left := s.filesz - (4096 * p - s.vaddr);
    if left <= 0 then 0 else if left > 4096 then 4096 else left
  }

  /** exec_off, exec_len and the bounds of text and data. */
  datatype Layout = Layout(off: seq<int>, len: seq<int>, textStart: int, textEnd: int, dataStart: int, dataEnd: int,
      sz: int)

  const NOWHERE: int := 0xFFFF_FFFF_FFFF_FFFF

  predicate Sized(l: Layout) {
    |l.off| == 512 && |l.len| == 512 && forall e | 0 <= e < 512 :: 0 <= l.off[e] && 0 <= l.len[e] <= 4096
  }

  ghost predicate RecordedPage(l: Layout, s: Segment, p: int)
    requires Sized(l)
  {
    l.off[p % 512] == PageOff(s, p) && l.len[p % 512] == PageLen(s, p)
  }

  /** p is the last page of s below hi that uses its entry. */
  ghost predicate LastBelow(s: Segment, p: int, hi: int) {
    InSegment(s, p) && p < hi && forall q | InSegment(s, q) && p < q < hi :: q % 512 != p % 512
  }

  /** Every entry that pages of s below hi use describes the last of them. */
  ghost predicate Recorded(l: Layout, s: Segment, hi: int) {
    Sized(l) && forall p {:trigger LastBelow(s, p, hi)} | LastBelow(s, p, hi) :: RecordedPage(l, s, p)
  }

  predicate Bounded(l: Layout, s: Segment) {
    && (s.load ==> End(s) <= l.sz)
    && (s.load && s.exec ==> l.textStart <= s.vaddr && End(s) <= l.textEnd)
    && (s.load && !s.exec ==> l.dataStart <= s.vaddr && End(s) <= l.dataEnd)
  }

  /** The end of the highest data segment. */
  function DataEnd(segs: seq<Segment>): int {
    if segs == [] then 0 else
      var s, d := segs[|segs| - 1], DataEnd(segs[..|segs| - 1]);
      if s.load && !s.exec && End(s) > d then End(s) else d
  }

  /** No two pages of the program share an entry of the 512-entry tables. */
  ghost predicate PagesApart(segs: seq<Segment>) {
    forall i, j, p, q {:trigger InSegment(segs[i], p), InSegment(segs[j], q)} |
      0 <= i < |segs| && 0 <= j < |segs| && InSegment(segs[i], p) && InSegment(segs[j], q) && p % 512 == q % 512 ::
          i == j && p == q
  }

  /** It is enough that segments share no page and the program spans at most 512 pages. */
  lemma CompactApart(segs: seq<Segment>, base: int)
    requires forall i, p | 0 <= i < |segs| && InSegment(segs[i], p) :: base <= p < base + 512
    requires forall i, j, p | 0 <= i < |segs| && 0 <= j < |segs| && InSegment(segs[i], p) && InSegment(segs[j], p) ::
        i == j
    ensures PagesApart(segs)
  {
    forall i, j, p, q | 0 <= i < |segs| && 0 <= j < |segs| && InSegment(segs[i], p) && InSegment(segs[j], q)
        && p % 512 == q % 512
      ensures i == j && p == q
    {
      assert base <= p < base + 512 && base <= q < base + 512;
      SameEntry(p, q, base);
    }
  }

  lemma SameEntry(p: int, q: int, base: int)
    requires base <= p < base + 512 && base <= q < base + 512 && p % 512 == q % 512
    ensures p == q
  {
  }

  ghost predicate UsesEntry(s: Segment, e: int) { exists p :: InSegment(s, p) && p % 512 == e }

  ghost predicate OtherEntriesKept(l: Layout, s: Segment, l': Layout) {
    Sized(l) && Sized(l') && forall e | 0 <= e < 512 && !UsesEntry(s, e) ::
        l'.off[e] == l.off[e] && l'.len[e] == l.len[e]
  }

  /** The loop over the pages of one segment. */
  method RecordPages(l: Layout, s: Segment) returns (l': Layout)
    requires Sized(l) && Unsigned(s) && s.load && s.vaddr % 4096 == 0
    ensures l' == l.(off := l'.off, len := l'.len) && Recorded(l', s, End(s)) && OtherEntriesKept(l, s, l')
  {
    l' := l;
    var va := s.vaddr;
    ghost var n := s.vaddr / 4096;
    while va < s.vaddr + s.memsz
      invariant va == 4096 * n && s.vaddr <= va
      invariant l' == l.(off := l'.off, len := l'.len) && Recorded(l', s, n) && OtherEntriesKept(l, s, l')
      decreases s.vaddr + s.memsz - va
    {
      var e := va / 4096 % 512;
      var pageOff := va - s.vaddr;
      assert InSegment(s, n) && e == n % 512;
      ghost var l1 := l';
      if pageOff < s.filesz {
        var left := s.filesz - pageOff;
        l' := l'.(off := l'.off[e := s.off + pageOff], len := l'.len[e := if left > 4096 then 4096 else left]);
      } else {
        l' := l'.(off := l'.off[e := 0], len := l'.len[e := 0]);
      }
      RecordOne(l1, s, n, l');
      va, n := va + 4096, n + 1;
    }
    forall p | LastBelow(s, p, End(s))
      ensures LastBelow(s, p, n)
    {
    }
  }

  lemma RecordOne(l: Layout, s: Segment, n: int, l': Layout)
    requires Recorded(l, s, n) && InSegment(s, n) && Unsigned(s)
    requires l' == l.(off := l.off[n % 512 := PageOff(s, n)], len := l.len[n % 512 := PageLen(s, n)])
    ensures Recorded(l', s, n + 1)
  {
    forall p | LastBelow(s, p, n + 1)
      ensures RecordedPage(l', s, p)
    {
      if p < n {
        assert n % 512 != p % 512;
        assert LastBelow(s, p, n);
      }
    }
  }

  datatype ScanResult = Loaded(layout: Layout) | Bad

  /** The first m segments have been dealt with. */
  ghost predicate Scanned(segs: seq<Segment>, m: int, l: Layout) {
    && 0 <= m <= |segs| && Sized(l)
    && (forall i | 0 <= i < m :: Accepted(segs[i]) && Bounded(l, segs[i]))
    && l.dataEnd == DataEnd(segs[..m])
    && (PagesApart(segs) ==> forall i, p {:trigger InSegment(segs[i], p)} | 0 <= i < m && InSegment(segs[i], p) ::
          RecordedPage(l, segs[i], p))
  }

  lemma ScanOne(segs: seq<Segment>, m: int, l: Layout, l': Layout)
    requires Scanned(segs, m, l) && m < |segs| && Unsigned(segs[m]) && Accepted(segs[m])
    requires if segs[m].load then Recorded(l', segs[m], End(segs[m])) && OtherEntriesKept(l, segs[m], l') else l' == l
    requires l'.dataEnd == (if segs[m].load && !segs[m].exec && End(segs[m]) > l.dataEnd
                            then End(segs[m]) else l.dataEnd)
    requires Bounded(l', segs[m]) && l'.textStart <= l.textStart && l.textEnd <= l'.textEnd
    requires l'.dataStart <= l.dataStart && l.sz <= l'.sz
    ensures Scanned(segs, m + 1, l')
  {
    assert segs[..m + 1][..m] == segs[..m];
    if PagesApart(segs) {
      forall i, p | 0 <= i < m + 1 && InSegment(segs[i], p)
        ensures RecordedPage(l', segs[i], p)
      {
        if i == m {
          assert LastBelow(segs[m], p, End(segs[m]));
        } else if segs[m].load {
          assert RecordedPage(l, segs[i], p);
          assert !UsesEntry(segs[m], p % 512);
        } else {
          assert RecordedPage(l, segs[i], p);
        }
      }
    }
  }

  /** The program-header scan of kexec. */
  method ScanHeaders(segs: seq<Segment>) returns (r: ScanResult)
    requires forall i | 0 <= i < |segs| :: Unsigned(segs[i])
    ensures r.Bad? <==> exists i :: 0 <= i < |segs| && !Accepted(segs[i])
    ensures r.Loaded? ==> Scanned(segs, |segs|, r.layout)
  {
    var l := Layout(seq(512, _ => 0), seq(512, _ => 0), NOWHERE, 0, NOWHERE, 0, 0);
    for i := 0 to |segs|
      invariant Scanned(segs, i, l)
    {
      var s := segs[i];
      if s.load {
        if s.memsz < s.filesz || s.vaddr + s.memsz >= 0x1_0000_0000_0000_0000 || s.vaddr % 4096 != 0 {
          assert !Accepted(segs[i]);
          return Bad;
        }
        var l1 := if s.exec
                  then l.(textStart := if s.vaddr < l.textStart then s.vaddr else l.textStart,
                          textEnd := if End(s) > l.textEnd then End(s) else l.textEnd)
                  else l.(dataStart := if s.vaddr < l.dataStart then s.vaddr else l.dataStart,
                          dataEnd := if End(s) > l.dataEnd then End(s) else l.dataEnd);
        var l2 := RecordPages(l1, s);
        l2 := l2.(sz := if End(s) > l2.sz then End(s) else l2.sz);
        ScanOne(segs, i, l, l2);
        l := l2;
      } else {
        ScanOne(segs, i, l, l);
      }
    }
    assert forall i | 0 <= i < |segs| :: Accepted(segs[i]);
    r := Loaded(l);
  }

  // ---------------------------------------------------------------- the page fault

  function PgRoundUp(x: int): int { (x + 4095) / 4096 * 4096 }

  datatype Cause = Stack | Heap | Exec | Invalid

  /** heap_start, stack_top and the bottom of the stack follow from the layout. */
  function HeapStart(l: Layout): int { PgRoundUp(l.dataEnd) }

  function StackTop(l: Layout): int { PgRoundUp(l.sz) + 2 * 4096 }

  function Classify(l: Layout, va: int): Cause {
    var bottom := StackTop(l) - 2 * 4096;
    if bottom <= va < StackTop(l) then Stack
    else if HeapStart(l) <= va < bottom then Heap
    else if l.textStart <= va < l.textEnd || l.dataStart <= va < l.dataEnd then Exec
    else Invalid
  }

  /** readi into a page: as many of the n bytes as the file has. */
  method ReadInto(page: seq<int>, f: File, off: int, n: int) returns (page': seq<int>)
    requires |page| == 4096 && 0 <= off && 0 <= n <= 4096
    ensures |page'| == 4096
    ensures forall k | 0 <= k < 4096 :: page'[k] == if k < n && off + k < |f| then f[off + k] else page[k]
  {
    page' := page;
    var k := 0;
    while k < n && off + k < |f|
      invariant 0 <= k <= n && |page'| == 4096
      invariant forall j | 0 <= j < 4096 :: page'[j] == if j < k && off + j < |f| then f[off + j] else page[j]
    {
      page' := page'[k := f[off + k]];
      k := k + 1;
    }
  }

  /** What lazy_handle_fault puts into the page at va, given that memory is available. */
  method FaultPage(l: Layout, f: File, va: int) returns (ok: bool, page: seq<int>)
    requires Sized(l) && 0 <= va && va % 4096 == 0
    ensures ok <==> Classify(l, va) != Invalid
    ensures ok ==> |page| == 4096 && forall k | 0 <= k < 4096 :: page[k] == LazyByte(l, f, va / 4096, k)
  {
    page := seq(4096, _ => 0);
    var cause := Classify(l, va);
    if cause == Invalid {
      return false, page;
    }
    ok := true;
    if cause == Exec {
      var e := va / 4096 % 512;
      var off, len := l.off[e], l.len[e];
      if off > 0 && len > 0 {
        page := ReadInto(page, f, off, len);
      }
    }
  }

  /** The same byte by byte. */
  function LazyByte(l: Layout, f: File, p: int, k: int): int
    requires Sized(l)
  {
    if Classify(l, 4096 * p) == Exec && l.off[p % 512] > 0 && k < l.len[p % 512]
    then FileByte(f, l.off[p % 512] + k)
    else 0
  }

  /** The page's bytes in the file are found: its offset is not taken for "none" and its
      address is not taken for heap. */
  predicate Found(segs: seq<Segment>, s: Segment, p: int) {
    4096 * p < PgRoundUp(DataEnd(segs)) && s.off + (4096 * p - s.vaddr) > 0
  }

  lemma ProgramPage(segs: seq<Segment>, l: Layout, i: int, p: int)
    requires Scanned(segs, |segs|, l) && 0 <= i < |segs| && InSegment(segs[i], p) && 0 <= p
    ensures Classify(l, 4096 * p) == if 4096 * p < PgRoundUp(DataEnd(segs)) then Exec else Heap
  {
    assert Bounded(l, segs[i]) && segs[..|segs|] == segs;
    RoundUp(End(segs[i]), l.sz, 4096 * p);
  }

  lemma RoundUp(end: int, sz: int, va: int)
    requires va < end <= sz
    ensures va < PgRoundUp(sz)
  {
  }

  /** Faulting a page of the program in gives exactly what loading it eagerly would have
      given, if and only if its bytes are found or are all zero anyway. */
  lemma LazyEqualsEagerIff(segs: seq<Segment>, l: Layout, f: File, i: int, p: int)
    requires Scanned(segs, |segs|, l) && PagesApart(segs) && 0 <= i < |segs| && InSegment(segs[i], p) && 0 <= p
    requires Unsigned(segs[i])
    ensures (forall k | 0 <= k < 4096 :: LazyByte(l, f, p, k) == EagerByte(f, segs[i], p, k))
       <==> (Found(segs, segs[i], p) || forall k | 0 <= k < 4096 :: EagerByte(f, segs[i], p, k) == 0)
  {
    ProgramPage(segs, l, i, p);
    assert RecordedPage(l, segs[i], p);
  }

  /** In particular for a program whose highest segment is data and whose bytes do not
      start at offset 0 of the file. */
  lemma LazyEqualsEager(segs: seq<Segment>, l: Layout, f: File, i: int, p: int, k: int)
    requires Scanned(segs, |segs|, l) && PagesApart(segs) && 0 <= i < |segs| && InSegment(segs[i], p) && 0 <= p
    requires Unsigned(segs[i])
    requires segs[i].off > 0 && End(segs[i]) <= DataEnd(segs) && 0 <= k < 4096
    ensures LazyByte(l, f, p, k) == EagerByte(f, segs[i], p, k)
  {
    LazyEqualsEagerIff(segs, l, f, i, p);
    RoundUp(End(segs[i]), DataEnd(segs), 4096 * p);
  }

  // ---------------------------------------------------------------- programs that are not loaded

  lemma {:induction false} NoDataEnd(segs: seq<Segment>)
    requires forall i | 0 <= i < |segs| :: segs[i].load ==> segs[i].exec
    ensures DataEnd(segs) == 0
  {
    if segs != [] {
      NoDataEnd(segs[..|segs| - 1]);
    }
  }

  /** Every page of a program without a data segment is taken for heap and stays zero. */
  lemma NoDataNothingLoaded(segs: seq<Segment>, l: Layout, f: File, i: int, p: int, k: int)
    requires Scanned(segs, |segs|, l) && 0 <= i < |segs| && InSegment(segs[i], p) && 0 <= p
    requires forall j | 0 <= j < |segs| :: segs[j].load ==> segs[j].exec
    ensures LazyByte(l, f, p, k) == 0
  {
    NoDataEnd(segs);
    ProgramPage(segs, l, i, p);
  }

  /** A page whose bytes start the file: its offset 0 is taken for "nothing to load". */
  lemma OffsetZeroNotLoaded(segs: seq<Segment>, l: Layout, f: File, i: int, p: int, k: int)
    requires Scanned(segs, |segs|, l) && PagesApart(segs) && 0 <= i < |segs| && InSegment(segs[i], p)
    requires segs[i].off == 0 && segs[i].vaddr == 4096 * p
    ensures LazyByte(l, f, p, k) == 0
  {
    assert RecordedPage(l, segs[i], p);
  }

  /** A program that is one text segment: its first byte is never loaded. */
  lemma OnlyText(segs: seq<Segment>, s: Segment, l: Layout, f: File)
    requires segs == [s] && s.exec && InSegment(s, 0) && Scanned(segs, |segs|, l)
    ensures LazyByte(l, f, 0, 0) == 0
  {
    NoDataNothingLoaded(segs, l, f, 0, 0, 0);
  }

  /** A program that is one page at address 0. */
  lemma OnePage(segs: seq<Segment>, s: Segment)
    requires segs == [s] && s.vaddr == 0 && s.memsz <= 4096
    ensures PagesApart(segs)
  {
    forall i, p | 0 <= i < |segs| && InSegment(segs[i], p)
      ensures 0 <= p < 512
    {
    }
    CompactApart(segs, 0);
  }

  /** ... with its bytes at offset 0 of the file: they are never loaded. */
  lemma OnlyFirstPage(segs: seq<Segment>, s: Segment, l: Layout, f: File)
    requires segs == [s] && s.vaddr == 0 && s.off == 0 && InSegment(s, 0) && PagesApart(segs)
    requires Scanned(segs, |segs|, l)
    ensures LazyByte(l, f, 0, 0) == 0
  {
    OffsetZeroNotLoaded(segs, l, f, 0, 0, 0);
  }

  lemma StartsWith(f: File, s: Segment, x: int)
    requires s.load && s.vaddr == 0 && s.memsz > 0 && s.filesz > 0 && 0 <= s.off < |f| && f[s.off] == x
    ensures InSegment(s, 0) && EagerByte(f, s, 0, 0) == x
  {
  }

  /** Such a program: one text page at offset 4096 that starts with a 7, and no data. */
  lemma TextAloneExample(segs: seq<Segment>, s: Segment, l: Layout, f: File)
    requires segs == [s] && s == Segment(true, 0, 4096, 4096, 4096, true) && Scanned(segs, |segs|, l)
    requires |f| == 8192 && f[4096] == 7
    ensures InSegment(s, 0) && EagerByte(f, s, 0, 0) == 7 && LazyByte(l, f, 0, 0) == 0
  {
    StartsWith(f, s, 7);
    OnlyText(segs, s, l, f);
  }

  /** And one data page at offset 0. */
  lemma OffsetZeroExample(segs: seq<Segment>, s: Segment, l: Layout, f: File)
    requires segs == [s] && s == Segment(true, 0, 4096, 4096, 0, false) && Scanned(segs, |segs|, l)
    requires |f| == 8192 && f[0] == 7
    ensures InSegment(s, 0) && EagerByte(f, s, 0, 0) == 7 && LazyByte(l, f, 0, 0) == 0
  {
    StartsWith(f, s, 7);
    OnePage(segs, s);
    OnlyFirstPage(segs, s, l, f);
  }
}
