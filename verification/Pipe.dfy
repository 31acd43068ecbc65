/** kernel/pipe.c: a bounded buffer shared by any number of readers and writers. A call of
    a method is what one process does between acquiring the pipe's lock and either
    releasing it or going to sleep, so every interleaving is a sequence of calls. */
module Pipe {

  const PIPESIZE: int := 512

  /** nread and nwrite are unsigned 32-bit counters. */
  function U32(x: int): int { x % 0x1_0000_0000 }

  lemma RingIndex(x: int)
    requires 0 <= x
    ensures U32(x) % 512 == x % 512 && U32(U32(x) + 1) == U32(x + 1) && U32(U32(x) + 512) == U32(x + 512)
  {
    var q := x / 0x1_0000_0000;
    assert x == 0x1_0000_0000 * q + U32(x);
    assert x == 512 * (0x80_0000 * q) + U32(x);
  }

  /** The counters tell empty from full even after they have wrapped. */
  lemma CountersDecide(c: int, a: int)
    requires 0 <= c <= a <= c + 512
    ensures (U32(c) == U32(a) <==> c == a) && (U32(a) == U32(U32(c) + 512) <==> a == c + 512)
  {
    RingIndex(c);
  }

  lemma SlotsDiffer(a: int, k: int)
    requires 0 <= k < a < k + 512
    ensures a % 512 != k % 512
  {
  }

  datatype WriteResult = Wrote | WriteAsleep | WriteFailed

  datatype ReadResult = Got(bytes: seq<char>) | ReadAsleep | ReadFailed

  class PipeBuffer {
    const data: array<char>
    var nread: int
    var nwrite: int
    var readopen: bool
    var writeopen: bool
    var readers: set<int>           // processes asleep on nread
    var writers: set<int>           // processes asleep on nwrite
    ghost var appended: seq<char>   // every byte ever written
    ghost var consumed: int         // how many of them have been read

    /** The bytes that wait in the buffer are the ones appended and not yet consumed. */
    ghost predicate Valid()
      reads this, data
    {
      && data.Length == 512
      && 0 <= consumed <= |appended| <= consumed + 512
      && nread == U32(consumed) && nwrite == U32(|appended|)
      && (forall k | consumed <= k < |appended| :: data[k % 512] == appended[k])
    }

    /** A writer sleeps only on a full pipe whose read end is open. */
    ghost predicate WritersQuiet()
      reads this
    {
      writers != {} ==> |appended| == consumed + 512 && readopen
    }

    /** A reader sleeps only on an empty pipe whose write end is open. */
    ghost predicate ReadersQuiet()
      reads this
    {
      readers != {} ==> consumed == |appended| && writeopen
    }

    constructor ()
      ensures Valid() && WritersQuiet() && ReadersQuiet() && appended == [] && consumed == 0 && readopen && writeopen
      ensures readers == {} && writers == {} && fresh(data)
    {
      data := new char[512];
      nread, nwrite, readopen, writeopen := 0, 0, true, true;
      readers, writers, appended, consumed := {}, {}, [], 0;
    }

    method Put(ch: char)
      requires Valid() && |appended| < consumed + 512
      modifies this`nwrite, this`appended, data
      ensures Valid() && appended == old(appended) + [ch]
    {
      ghost var n := |appended|;
      RingIndex(n);
      data[nwrite % 512] := ch;
      nwrite := U32(nwrite + 1);
      appended := appended + [ch];
      forall k | consumed <= k < n
        ensures data[k % 512] == appended[k]
      {
        SlotsDiffer(n, k);
      }
    }

    method Take() returns (ch: char)
      requires Valid() && consumed < |appended|
      modifies this`nread, this`consumed
      ensures Valid() && consumed == old(consumed) + 1 && ch == appended[old(consumed)]
    {
      RingIndex(consumed);
      ch := data[nread % 512];
      nread := U32(nread + 1);
      consumed := consumed + 1;
    }

    /** The kill is seen after bytes were added and before the pipe is full, a copy fails or
        all is written. */
    predicate KilledInTheMiddle(n: int, i: int, bad: int, end: int)
      reads this`readopen
    {
      readopen && i < end < n && end - i <= 512 && !(i <= bad < end)
    }

    /** pipewrite from byte i of bytes on. copyin fails at byte bad, and the writer sees that
        it has been killed once it is to write byte end (either may be past the end). Readers
        stay asleep over bytes exactly if a kill is seen after bytes were added to a pipe
        on which they slept. */
    method Write(p: int, bytes: seq<char>, i: int, bad: int, end: int) returns (r: WriteResult, j: int)
      requires Valid() && WritersQuiet() && 0 <= i <= |bytes| && p !in readers && p !in writers
      modifies this`nwrite, this`appended, this`readers, this`writers, data
      ensures Valid() && WritersQuiet() && i <= j <= |bytes| && appended == old(appended) + bytes[i..j]
      ensures r == WriteAsleep ==> j < |bytes| && |appended| == consumed + 512 && readopen
      ensures r == WriteAsleep ==> writers == old(writers) + {p} && readers == {}
      ensures r == Wrote ==> (j == |bytes| || j == bad) && readers == {} && writers == old(writers)
      ensures r == WriteFailed ==> j < |bytes| && (!readopen || j == end) && readers == old(readers)
      ensures r == WriteFailed ==> writers == old(writers)
      ensures !(i <= end < j) && !(i <= bad < j)
      ensures !readopen && i < |bytes| ==> r == WriteFailed && j == i
      ensures old(ReadersQuiet()) ==>
                (ReadersQuiet() <==> old(readers) == {} || !KilledInTheMiddle(|bytes|, i, bad, end))
    {
      j := i;
      while j < |bytes|
        invariant i <= j <= |bytes| && Valid() && appended == old(appended) + bytes[i..j]
        invariant readers == old(readers) && writers == old(writers)
        invariant !readopen ==> j == i
        invariant !(i <= end < j) && !(i <= bad < j)
      {
        if !readopen || j == end {
          return WriteFailed, j;
        }
        CountersDecide(consumed, |appended|);
        if nwrite == U32(nread + PIPESIZE) {
          readers := {};
          writers := writers + {p};
          return WriteAsleep, j;
        }
        if j == bad {
          break;
        }
        Put(bytes[j]);
        assert bytes[i..j + 1] == bytes[i..j] + [bytes[j]];
        j := j + 1;
      }
      readers := {};
      r := Wrote;
    }

    /** piperead of up to n bytes; killed is what the check before sleeping sees, and copyout
        fails after room bytes, losing the byte it failed on. */
    method Read(p: int, n: int, killed: bool, room: int) returns (r: ReadResult)
      requires Valid() && WritersQuiet() && p !in readers && p !in writers && 0 <= room
      modifies this`nread, this`consumed, this`readers, this`writers
      ensures Valid() && WritersQuiet() && old(consumed) <= consumed && (old(ReadersQuiet()) ==> ReadersQuiet())
      ensures r.Got? ==> (old(consumed) < |appended| || !writeopen) && writers == {} && readers == old(readers)
      ensures r.Got? ==> |r.bytes| <= consumed - old(consumed) <= |r.bytes| + 1
      ensures r.Got? ==> r.bytes == appended[old(consumed)..old(consumed) + |r.bytes|]
      ensures r.Got? ==> |r.bytes| == consumed - old(consumed) || |r.bytes| == room
      ensures r.Got? ==> |r.bytes| <= room && (|r.bytes| <= n || |r.bytes| == 0)
      ensures r.Got? && |r.bytes| < n ==> consumed == |appended| || |r.bytes| == room
      ensures !r.Got? ==> consumed == old(consumed) == |appended| && writeopen && writers == old(writers)
      ensures r.ReadAsleep? ==> !killed && readers == old(readers) + {p}
      ensures r.ReadFailed? ==> killed && readers == old(readers)
    {
      CountersDecide(consumed, |appended|);
      if nread == nwrite && writeopen {
        if killed {
          return ReadFailed;
        }
        readers := readers + {p};
        return ReadAsleep;
      }
      var bytes := Drain(n, room);
      writers := {};
      r := Got(bytes);
    }

    /** The loop of piperead. */
    method Drain(n: int, room: int) returns (bytes: seq<char>)
      requires Valid() && 0 <= room
      modifies this`nread, this`consumed
      ensures Valid() && |bytes| <= consumed - old(consumed) <= |bytes| + 1 && |bytes| <= room
      ensures bytes == appended[old(consumed)..old(consumed) + |bytes|] && (|bytes| <= n || bytes == [])
      ensures |bytes| == consumed - old(consumed) || |bytes| == room
      ensures |bytes| < n ==> consumed == |appended| || |bytes| == room
    {
      bytes := [];
      ghost var c := consumed;
      while |bytes| < n
        invariant Valid() && c <= consumed && consumed == c + |bytes| && bytes == appended[c..consumed]
        invariant |bytes| <= room && (|bytes| <= n || bytes == [])
        decreases n - |bytes|
      {
        CountersDecide(consumed, |appended|);
        if nread == nwrite {
          break;
        }
        var ch := Take();
        if |bytes| == room {
          break;
        }
        bytes := bytes + [ch];
      }
    }

    method Close(writable: bool)
      requires Valid() && WritersQuiet()
      modifies this`readopen, this`writeopen, this`readers, this`writers
      ensures Valid() && WritersQuiet() && (old(ReadersQuiet()) || writable ==> ReadersQuiet())
      ensures if writable then !writeopen && readers == {} && readopen == old(readopen) && writers == old(writers)
              else !readopen && writers == {} && writeopen == old(writeopen) && readers == old(readers)
    {
      if writable {
        writeopen := false;
        readers := {};
      } else {
        readopen := false;
        writers := {};
      }
    }

    /** kkill's wakeup of a sleeper. */
    method Kill(p: int)
      requires Valid() && WritersQuiet()
      modifies this`readers, this`writers
      ensures Valid() && WritersQuiet() && (old(ReadersQuiet()) ==> ReadersQuiet())
      ensures readers == old(readers) - {p} && writers == old(writers) - {p}
    {
      readers := readers - {p};
      writers := writers - {p};
    }
  }

  /** The lost wakeup at work: reader 1 sleeps on an empty pipe, writer 2 adds one byte and
      is killed before the next. The reader sleeps on although a byte is there. */
  method KilledWriterLosesWakeup() returns (pipe: PipeBuffer)
    ensures pipe.Valid() && pipe.readers == {1} && pipe.consumed < |pipe.appended| && !pipe.ReadersQuiet()
  {
    pipe := new PipeBuffer();
    var got := pipe.Read(1, 1, false, 1);
    var wrote, j := pipe.Write(2, "ab", 0, 2, 1);
  }
}
