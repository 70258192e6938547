/**
 The pipe ring of kernel/pipe.c.  A call runs from one point where it holds the pipe's
 lock to the next where it sleeps or returns; readers and writers may alternate at
 these points in any order.
 */
module Pipe {
  import opened Common

  const PIPESIZE: nat := 512
  const U32: nat := 0x1_0000_0000

  /** A call goes to sleep, to be continued, or returns. */
  datatype Outcome = Slept | Returned(r: int)

  class Pipe {
    const data: array<bv8>
    var nread: nat
    var nwrite: nat
    var readopen: bool
    var writeopen: bool
    ghost var accepted: seq<bv8>         // every byte written so far, in order
    ghost var delivered: nat             // how many of them have been read

    /**
     The 32-bit counters count the bytes accepted and delivered; at most PIPESIZE bytes
     are in flight, and the ring holds exactly these.
     */
    ghost predicate Valid()
      reads this, data
    {
      && data.Length == PIPESIZE && delivered <= |accepted| <= delivered + PIPESIZE
      && nwrite == |accepted| % U32 && nread == delivered % U32
      && forall k: nat :: delivered <= k < |accepted| ==> data[k % PIPESIZE] == accepted[k]
    }

    /** pipealloc */
    constructor ()
      ensures Valid() && accepted == [] && delivered == 0 && readopen && writeopen && fresh(data)
    {
      data := new bv8[PIPESIZE](_ => 0);
      nread, nwrite, readopen, writeopen := 0, 0, true, true;
      accepted, delivered := [], 0;
    }

    /** pipeclose; `freed` says the pipe's page goes back to kalloc. */
    method Pipeclose(writable: bool) returns (freed: bool)
      requires Valid()
      modifies this`readopen, this`writeopen
      ensures Valid() && writeopen == (old(writeopen) && !writable) && readopen == (old(readopen) && writable)
      ensures freed <==> !readopen && !writeopen
    {
      if writable {
        writeopen := false;
      } else {
        readopen := false;
      }
      freed := !readopen && !writeopen;
    }

    /**
     pipewrite from byte `i` on, up to its return or its next sleep: bytes are accepted in
     order until all are in, the pipe is full, or the next one cannot be read (`avail` bytes
     can).  The process counts as killed from byte `killedAt` on.
     */
    method Pipewrite(src: seq<bv8>, i: nat, avail: nat, killedAt: nat) returns (o: Outcome, j: nat)
      requires Valid() && i <= |src|
      modifies this`nwrite, this`accepted, data
      ensures Valid() && i <= j <= |src| && accepted == old(accepted) + src[i..j]
      ensures j == i || (readopen && j <= killedAt && j <= avail)
      ensures j == |src| || !readopen || j >= killedAt || |accepted| == delivered + PIPESIZE || j >= avail
      ensures o == if j == |src| then Returned(j)
                   else if !readopen || j >= killedAt then Returned(-1)
                   else if |accepted| == delivered + PIPESIZE then Slept
                   else Returned(j)
    {
      j := i;
      while j < |src|
        invariant i <= j <= |src| && Valid() && accepted == old(accepted) + src[i..j]
        invariant j == i || (readopen && j <= killedAt && j <= avail)
        decreases |src| - j
      {
        if !readopen || j >= killedAt {
          return Returned(-1), j;
        }
        Distance(delivered, |accepted|);
        if nwrite == (nread + PIPESIZE) % U32 {
          return Slept, j;
        }
        if j >= avail {
          break;
        }
        Slot(delivered, |accepted|);
        data[nwrite % PIPESIZE] := src[j];
        nwrite := (nwrite + 1) % U32;
        accepted := accepted + [src[j]];
        j := j + 1;
      }
      o := Returned(j);
    }

    /**
     piperead: the oldest bytes not yet delivered, as many as are there, wanted and can be
     copied out (`room`).  A byte that cannot be copied out stays in the pipe.
     */
    method Piperead(n: nat, room: nat, killed: bool) returns (o: Outcome, dst: seq<bv8>)
      requires Valid()
      modifies this`nread, this`delivered
      ensures Valid() && delivered == old(delivered) + |dst| && dst == accepted[old(delivered)..delivered]
      ensures old(delivered) == |accepted| && writeopen ==> dst == [] && o == if killed then Returned(-1) else Slept
      ensures old(delivered) < |accepted| || !writeopen ==>
                && |dst| == Least(n, |accepted| - old(delivered), room)
                && o == Returned(if n > 0 && old(delivered) < |accepted| && room == 0 then -1 else |dst|)
    {
      dst := [];
      Distance(delivered, |accepted|);
      if nread == nwrite && writeopen {
        if killed {
          return Returned(-1), dst;
        }
        return Slept, dst;
      }
      var i := 0;
      while i < n
        invariant 0 <= i <= n && |dst| == i && i <= room && Valid() && delivered == old(delivered) + i
                  && dst == accepted[old(delivered)..delivered]
      {
        Distance(delivered, |accepted|);
        if nread == nwrite {
          break;
        }
        Slot(delivered, |accepted|);
        var ch := data[nread % PIPESIZE];
        if i >= room {
          if i == 0 {
            return Returned(-1), dst;
          }
          break;
        }
        nread := (nread + 1) % U32;
        delivered := delivered + 1;
        dst := dst + [ch];
        i := i + 1;
      }
      o := Returned(i);
    }
  }

  function Least(a: nat, b: nat, c: nat): nat {
    if a <= b && a <= c then a else if b <= c then b else c
  }

  /** The comparisons of the 32-bit counters are right, also when they have wrapped. */
  lemma Distance(lo: nat, hi: nat)
    requires lo <= hi <= lo + PIPESIZE
    ensures hi % U32 == (lo % U32 + PIPESIZE) % U32 <==> hi == lo + PIPESIZE
    ensures hi % U32 == lo % U32 <==> hi == lo
  {
  }

  lemma Slot(lo: nat, hi: nat)
    requires lo <= hi <= lo + PIPESIZE
    ensures lo % U32 % PIPESIZE == lo % PIPESIZE && hi % U32 % PIPESIZE == hi % PIPESIZE
    ensures (lo + 1) % U32 == (lo % U32 + 1) % U32 && (hi + 1) % U32 == (hi % U32 + 1) % U32
    ensures hi < lo + PIPESIZE ==> forall k: nat :: lo <= k < hi ==> k % PIPESIZE != hi % PIPESIZE
  {
    Wrapped(lo);
    Wrapped(hi);
    forall k: nat | lo <= k < hi && hi < lo + PIPESIZE ensures k % PIPESIZE != hi % PIPESIZE { OtherSlot(k, hi); }
  }

  /** PIPESIZE divides 2^32, so the slot survives the wrap of a counter. */
  lemma Wrapped(x: nat)
    ensures x % U32 % PIPESIZE == x % PIPESIZE && (x + 1) % U32 == (x % U32 + 1) % U32
  {
    var a, r := x / U32, x % U32;
    Residue(x, PIPESIZE, U32 / PIPESIZE * a + r / PIPESIZE, r % PIPESIZE);
    Residue(x + 1, U32, if r == U32 - 1 then a + 1 else a, if r == U32 - 1 then 0 else r + 1);
  }

  lemma OtherSlot(k: nat, h: nat)
    requires k < h < k + PIPESIZE
    ensures k % PIPESIZE != h % PIPESIZE
  {
    assert k == PIPESIZE * (k / PIPESIZE) + k % PIPESIZE && h == PIPESIZE * (h / PIPESIZE) + h % PIPESIZE;
  }
}
