/** kernel/pipe.c: a ring of PIPESIZE bytes with 32-bit counters.  Each method is what pipewrite() or
    piperead() does under pi->lock until it sleeps or returns, so any interleaving of readers and writers is
    a sequence of method calls. */
module Pipe {
  const PIPESIZE := 512
  const WRAP := 0x1_0000_0000

  /** The 32-bit counters select the same places as unbounded ones, since 512 divides 2^32, and tell full
      from not full. */
  lemma Counters(r: nat, w: nat)
    requires r <= w <= r + PIPESIZE
    ensures (w % WRAP) % PIPESIZE == w % PIPESIZE && (r % WRAP) % PIPESIZE == r % PIPESIZE
    ensures (w % WRAP + 1) % WRAP == (w + 1) % WRAP && (r % WRAP + 1) % WRAP == (r + 1) % WRAP
    ensures w % WRAP == (r % WRAP + PIPESIZE) % WRAP <==> w == r + PIPESIZE
    ensures r % WRAP == w % WRAP <==> r == w
  {
    Divides(w);
    Divides(r);
    Shift(r);
    SameCounter(w, r + PIPESIZE);
    SameCounter(r, w);
  }

  lemma SameCounter(a: nat, b: nat)
    requires a <= b < a + WRAP
    ensures a % WRAP == b % WRAP <==> a == b
  {
    if a % WRAP == b % WRAP {
      assert b - a == (b / WRAP - a / WRAP) * WRAP;
    }
  }

  lemma Shift(n: nat)
    ensures (n % WRAP + PIPESIZE) % WRAP == (n + PIPESIZE) % WRAP
  {
    assert n == n / WRAP * WRAP + n % WRAP;
  }

  lemma Divides(n: nat)
    ensures (n % WRAP) % PIPESIZE == n % PIPESIZE && (n % WRAP + 1) % WRAP == (n + 1) % WRAP
  {
    assert WRAP == 8388608 * PIPESIZE;
    assert n == n / WRAP * WRAP + n % WRAP;
  }

  lemma PlacesDiffer(a: nat, b: nat)
    requires a < b < a + PIPESIZE
    ensures a % PIPESIZE != b % PIPESIZE
  {
  }

  /** Byte number k is in the ring. */
  ghost predicate Holds(data: seq<int>, accepted: seq<int>, taken: nat, k: int) {
    taken <= k < |accepted| && |data| == PIPESIZE ==> data[k % PIPESIZE] == accepted[k]
  }

  lemma StoreKeeps(data: seq<int>, accepted: seq<int>, taken: nat, ch: int, k: int)
    requires |data| == PIPESIZE && taken <= |accepted| < taken + PIPESIZE && Holds(data, accepted, taken, k)
    ensures Holds(data[|accepted| % PIPESIZE := ch], accepted + [ch], taken, k)
  {
    if taken <= k < |accepted| { PlacesDiffer(k, |accepted|); }
  }

  lemma MoreWritten(a: seq<int>, src: seq<int>, i: nat, j: nat)
    requires i <= j < |src|
    ensures a + src[i..j] + [src[j]] == a + src[i..j + 1]
  {
  }

  datatype Outcome = Done | Full | Failed | BadAddress

  class Pipe {
    var data: seq<int>
    var nread: nat
    var nwrite: nat
    var readopen: bool
    var writeopen: bool
    ghost var accepted: seq<int>    // all bytes ever put in
    ghost var taken: nat            // how many were taken out
    ghost var delivered: seq<int>   // all bytes that copyout() stored for readers
    ghost var lost: nat             // bytes taken out that copyout() failed on

    ghost predicate Valid()
      reads this
    {
      && |data| == PIPESIZE && taken <= |accepted| <= taken + PIPESIZE
      && nwrite == |accepted| % WRAP && nread == taken % WRAP
      && (forall k :: Holds(data, accepted, taken, k))
    }

    /** Readers got the first bytes that were accepted, in order and without gaps, as long as no copyout()
        has failed. */
    ghost predicate Fifo()
      reads this
    {
      taken <= |accepted| && |delivered| + lost == taken && (lost == 0 ==> delivered == accepted[..taken])
    }

    constructor()
      ensures Valid() && Fifo() && accepted == [] && taken == 0 && lost == 0 && readopen && writeopen
    {
      data, nread, nwrite, readopen, writeopen := seq(PIPESIZE, _ => 0), 0, 0, true, true;
      accepted, taken, delivered, lost := [], 0, [], 0;
    }

    /** One byte goes into the ring. */
    method Put(ch: int)
      requires Valid() && |accepted| < taken + PIPESIZE
      modifies this`data, this`nwrite, this`accepted
      ensures Valid() && accepted == old(accepted) + [ch]
    {
      Counters(taken, |accepted|);
      ghost var data', accepted' := data[|accepted| % PIPESIZE := ch], accepted + [ch];
      forall k ensures Holds(data', accepted', taken, k) { StoreKeeps(data, accepted, taken, ch, k); }
      data := data[nwrite % PIPESIZE := ch];
      nwrite := (nwrite + 1) % WRAP;
      accepted := accepted + [ch];
    }

    /** One byte comes out of the ring. */
    method Take() returns (ch: int)
      requires Valid() && taken < |accepted|
      modifies this`nread, this`taken
      ensures Valid() && taken == old(taken) + 1 && ch == accepted[old(taken)]
    {
      Counters(taken, |accepted|);
      assert Holds(data, accepted, taken, taken);
      ch := data[nread % PIPESIZE];
      nread := (nread + 1) % WRAP;
      ghost var taken' := taken + 1;
      forall k ensures Holds(data, accepted, taken', k) { assert Holds(data, accepted, taken, k); }
      taken := taken';
    }

    /** pipewrite() from byte i on, until it has to sleep or returns.  src is the part of the source that can
        be read; killed says whether the process has been killed by the time it gets to a byte. */
    method Write(src: seq<int>, n: nat, i: nat, killed: nat -> bool) returns (i': nat, out: Outcome)
      requires Valid() && i <= |src| <= n
      modifies this`data, this`nwrite, this`accepted
      ensures old(Fifo()) ==> Fifo()
      ensures Valid() && i <= i' <= |src| && accepted == old(accepted) + src[i..i']
      ensures out.Done? ==> i' == n
      ensures out.Full? ==> i' < n && |accepted| == taken + PIPESIZE
      ensures out.Failed? <==> i' < n && (!readopen || killed(i'))
      ensures i < i' ==> readopen && forall j :: i <= j < i' ==> !killed(j)
      ensures out.BadAddress? ==> i' == |src| < n
    {
      i' := i;
      while i' < n
        invariant i <= i' <= |src| && accepted == old(accepted) + src[i..i'] && Valid()
        invariant i < i' ==> readopen && forall j :: i <= j < i' ==> !killed(j)
      {
        if !readopen || killed(i') { return i', Failed; }
        Counters(taken, |accepted|);
        if nwrite == (nread + PIPESIZE) % WRAP { return i', Full; }
        if i' == |src| { return i', BadAddress; }
        MoreWritten(old(accepted), src, i, i');
        Put(src[i']);
        i' := i' + 1;
      }
      out := Done;
    }

    /** piperead() once it need not sleep.  room is how many bytes copyout() can store.  The bytes delivered are
        the next ones; one byte more is taken, and lost, exactly if copyout() fails. */
    method Read(n: nat, room: nat) returns (got: seq<int>)
      requires Valid() && Fifo()
      modifies this`nread, this`taken, this`delivered, this`lost
      ensures Fifo() && delivered == old(delivered) + got
      ensures Valid() && old(taken) + |got| <= |accepted| && got == accepted[old(taken)..old(taken) + |got|]
      ensures var have := |accepted| - old(taken);
              && |got| == (if room < n && room < have then room else if n < have then n else have)
              && taken == old(taken) + |got| + (if room < n && room < have then 1 else 0)
    {
      got := [];
      while |got| < n
        invariant Valid() && |got| <= n && |got| <= room && taken == old(taken) + |got| <= |accepted|
        invariant got == accepted[old(taken)..taken] && delivered == old(delivered) + got && Fifo()
        decreases n - |got|
      {
        Counters(taken, |accepted|);
        if nread == nwrite { return; }
        var ch := Take();
        if |got| == room {
          lost := lost + 1;
          return;
        }
        got := got + [ch];
        delivered := delivered + [ch];
      }
    }

    /** piperead() sleeps while the pipe is empty and has a writer, and returns -1 if it is killed then. */
    method MustWait(killed: bool) returns (wait: bool, failed: bool)
      requires Valid()
      ensures wait || failed <==> taken == |accepted| && writeopen
      ensures failed ==> killed && !wait
      ensures wait ==> !killed
    {
      Counters(taken, |accepted|);
      wait, failed := false, false;
      if nread == nwrite && writeopen {
        wait, failed := !killed, killed;
      }
    }

    /** pipeclose(): tells whether the pipe is to be freed. */
    method Close(writable: bool) returns (gone: bool)
      requires Valid()
      modifies this`readopen, this`writeopen
      ensures Valid() && readopen == (old(readopen) && writable) && writeopen == (old(writeopen) && !writable)
      ensures gone <==> !readopen && !writeopen
    {
      if writable { writeopen := false; } else { readopen := false; }
      gone := !readopen && !writeopen;
    }
  }

  /** A byte is written, and read to an address where copyout() fails: nobody gets it, and the pipe is empty. */
  method LostByte() returns (p: Pipe, got: seq<int>)
    ensures p.Valid() && p.accepted == [7] && got == p.delivered == [] && p.taken == 1 && p.lost == 1
  {
    p := new Pipe();
    var i, out := p.Write([7], 1, 0, _ => false);
    assert [7][0..1] == [7];
    got := p.Read(1, 0);
  }
}
