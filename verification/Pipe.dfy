/** kernel/pipe.c: a ring of PIPESIZE bytes between two 32-bit counters that wrap.  Each method is one
    stretch under pi->lock, from acquiring it or waking up to releasing it or going to sleep. */
module Pipe {
  import opened Common
  import opened Blocks

  const PIPESIZE: nat := 512

  /** How such a stretch ends. */
  datatype Outcome = Done | Asleep | Dead

  lemma Index(x: nat)
    ensures x % U32 % PIPESIZE == x % PIPESIZE && (x % U32 + 1) % U32 == (x + 1) % U32
  {
    assert x == U32 * (x / U32) + x % U32;
    assert U32 * (x / U32) == PIPESIZE * (8388608 * (x / U32));
  }

  /** The full and the empty test, on wrapped counters, mean what they say. */
  lemma Tests(removed: nat, stored: nat)
    requires removed <= stored <= removed + PIPESIZE
    ensures stored % U32 == (removed % U32 + PIPESIZE) % U32 <==> stored == removed + PIPESIZE
    ensures removed % U32 == stored % U32 <==> removed == stored
  {
  }

  class Ring {
    const data: array<byte>
    var nread: nat
    var nwrite: nat
    var readopen: bool
    var writeopen: bool
    ghost var stored: seq<byte>            // every byte ever put in
    ghost var removed: nat                 // how many of them were taken out
    ghost var readers: set<nat>            // processes asleep on &pi->nread
    ghost var writers: set<nat>            // processes asleep on &pi->nwrite

    /** The counters modulo 2^32, and the ring holding exactly the difference. */
    ghost predicate Fifo()
      reads this, data
    {
      && data.Length == PIPESIZE && removed <= |stored| <= removed + PIPESIZE
      && nread == removed % U32 && nwrite == |stored| % U32
      && forall k {:trigger stored[k]} :: removed <= k < |stored| ==> data[k % PIPESIZE] == stored[k]
    }

    /** Who is asleep: writers only on a full pipe, and never beside a reader. */
    ghost predicate Valid()
      reads this, data
    {
      Fifo() && (writers != {} ==> |stored| == removed + PIPESIZE && readopen && readers == {})
    }

    /** No reader sleeps over bytes, or over a pipe nobody can write to. */
    ghost predicate Quiet()
      reads this
    {
      readers != {} ==> removed == |stored| && writeopen
    }

    constructor ()
      ensures Valid() && Quiet() && stored == [] && removed == 0 && readopen && writeopen && readers == {}
              && writers == {} && fresh(data)
    {
      data := new byte[PIPESIZE](_ => 0);
      nread, nwrite, readopen, writeopen := 0, 0, true, true;
      stored, removed, readers, writers := [], 0, {}, {};
    }

    /** One byte into the buffer, at the write counter */
    method Put(ch: byte)
      requires Fifo() && |stored| < removed + PIPESIZE
      modifies data, this`nwrite, this`stored
      ensures Fifo() && stored == old(stored) + [ch]
    {
      Index(|stored|);
      data[nwrite % PIPESIZE] := ch;
      nwrite := (nwrite + 1) % U32;
      forall k | removed <= k < |stored| ensures data[k % PIPESIZE] == stored[k] {
        Slots(removed, k, |stored|);
      }
      stored := stored + [ch];
    }

    /** One byte out of the buffer, at the read counter */
    method Take() returns (ch: byte)
      requires Fifo() && removed < |stored|
      modifies this`nread, this`removed
      ensures Fifo() && removed == old(removed) + 1 && ch == stored[old(removed)]
    {
      Index(removed);
      ch := data[nread % PIPESIZE];
      nread := (nread + 1) % U32;
      removed := removed + 1;
    }

    /** A call that strands a reader: one is asleep, the read end is open, and the writer is found killed
        after it stored a byte and before it fills the pipe, ends or runs out of readable bytes. */
    static predicate Strands(readers: set<nat>, readopen: bool, readable: nat, i: nat, n: int, kill: nat) {
      readers != {} && readopen && 0 < kill <= PIPESIZE && i + kill < n && i + kill <= readable
    }

    /** pipewrite() by process w, after i bytes, until it returns or sleeps.  `src` are the bytes
        readable at addr; killed() turns true at its check number `kill`, if ever. */
    method Write(w: nat, src: seq<byte>, i: nat, n: int, kill: nat) returns (j: nat, out: Outcome)
      requires Valid() && i <= |src|
      modifies data, this`nwrite, this`stored, this`readers, this`writers
      ensures Valid() && i <= j <= |src| && stored == old(stored) + src[i..j] && (n <= i ==> j == i)
              && (i <= n ==> j <= n)
      ensures match out
              case Done => (j >= n || j == |src|) && readers == {} && writers == old(writers)
              case Asleep => j < n && |stored| == removed + PIPESIZE && readers == {} && writers == old(writers) + {w}
              case Dead => readers == old(readers) && writers == old(writers)
      ensures j - i <= kill && (out == Dead <==> j < n && (!readopen || j - i == kill))
      ensures old(Quiet()) ==> (Quiet() <==> !Strands(old(readers), readopen, |src|, i, n, kill))
    {
      j := i;
      while j < n
        invariant i <= j <= |src| && j - i <= kill && (i <= n ==> j <= n) && (n <= i ==> j == i) && Fifo()
                  && stored == old(stored) + src[i..j]
        invariant readers == old(readers) && writers == old(writers) && (j > i ==> readopen)
        invariant writers != {} ==> |stored| == removed + PIPESIZE && readopen && readers == {}
        decreases n - j
      {
        if !readopen || j - i == kill {
          return j, Dead;
        }
        Tests(removed, |stored|);
        if nwrite == (nread + PIPESIZE) % U32 {
          readers := {};
          writers := writers + {w};
          return j, Asleep;
        }
        if j == |src| {
          break;
        }
        Put(src[j]);
        j := j + 1;
      }
      readers := {};
      return j, Done;
    }

    /** piperead() by process r until it returns or sleeps.  `room` bytes are writable at addr; `killed`
        is what killed() says.  A byte that copyout() refuses is gone. */
    method Read(r: nat, n: int, room: nat, killed: bool) returns (bytes: seq<byte>, out: Outcome, ghost lost: nat)
      requires Valid()
      modifies this`nread, this`removed, this`readers, this`writers
      ensures Valid() && lost <= 1 && removed == old(removed) + |bytes| + lost && removed <= |stored|
      ensures bytes == stored[old(removed)..old(removed) + |bytes|]
      ensures match out
              case Done => writers == {} && readers == old(readers) && (n <= 0 ==> bytes == [])
                  && |bytes| <= (if n > 0 then n else 0)
                           && (|bytes| >= n || removed == |stored| || (lost == 1 && |bytes| == room))
              case Asleep => old(removed) == |stored| && writeopen && lost == 0 && bytes == []
                  && readers == old(readers) + {r} && writers == old(writers)
              case Dead => killed && lost == 0 && bytes == [] && readers == old(readers) && writers == old(writers)
      ensures out == Dead <==> killed && old(removed) == |stored| && writeopen
      ensures out == Asleep <==> !killed && old(removed) == |stored| && writeopen
      ensures old(Quiet()) ==> Quiet()
    {
      lost, bytes := 0, [];
      Tests(removed, |stored|);
      if nread == nwrite && writeopen {
        if killed {
          return [], Dead, 0;
        }
        readers := readers + {r};
        return [], Asleep, 0;
      }
      var i := 0;
      while i < n
        invariant 0 <= i && (n > 0 ==> i <= n) && (n <= 0 ==> i == 0) && Fifo() && |bytes| == i <= room && lost == 0
        invariant removed == old(removed) + i && bytes == stored[old(removed)..removed]
        invariant readers == old(readers)
        decreases n - i
      {
        Tests(removed, |stored|);
        if nread == nwrite {
          break;
        }
        var ch := Take();
        if i == room {
          lost := 1;
          break;
        }
        bytes := bytes + [ch];
        i := i + 1;
      }
      writers := {};
      return bytes, Done, lost;
    }

    /** pipeclose(): the end being closed has nobody asleep in it, for a sleeper keeps its file open. */
    method Close(writable: bool)
      requires Valid() && (if writable then writers == {} else readers == {})
      modifies this`readopen, this`writeopen, this`readers, this`writers
      ensures Valid() && (old(Quiet()) ==> Quiet())
      ensures if writable then !writeopen && readopen == old(readopen) && readers == {}
              else !readopen && writeopen == old(writeopen) && writers == {}
    {
      if writable {
        writeopen := false;
        readers := {};
      } else {
        readopen := false;
        writers := {};
      }
    }

    /** kill() of a sleeper, or any other stray wakeup */
    method Stray(p: nat)
      requires Valid()
      modifies this`readers, this`writers
      ensures Valid() && readers == old(readers) - {p} && writers == old(writers) - {p} && (old(Quiet()) ==> Quiet())
    {
      readers, writers := readers - {p}, writers - {p};
    }
  }

  /** The failing family is inhabited: a reader sleeps, a writer stores one byte and is found killed. */
  method KilledWriterStrandsReader() returns (p: Ring)
    ensures fresh(p) && p.Valid() && p.writeopen && p.readers == {1} && p.removed == 0 && |p.stored| == 1
  {
    p := new Ring();
    var bytes, out, lost := p.Read(1, 10, 10, false);
    var j;
    j, out := p.Write(2, [7, 8], 0, 2, 1);
  }

  lemma Slots(lo: nat, k: nat, hi: nat)
    requires lo <= k < hi < lo + PIPESIZE
    ensures k % PIPESIZE != hi % PIPESIZE
  {
  }
}
