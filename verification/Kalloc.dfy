/**
 The physical page allocator of kernel/kalloc.c: a free list threaded through the
 free pages and a reference count for every page.  Pages are numbered from KERNBASE.
 */
module Kalloc {
  import opened Common

  const PGSIZE: nat := 4096
  const KERNBASE: nat := 0x8000_0000
  const NPHYPAGES: nat := 32768                 // 128 MB
  const PHYSTOP: nat := 0x8800_0000
  const NULL: int := -1

  /** What the allocator means: the free list and the counts of the pages it manages. */
  datatype Frames = Frames(free: seq<nat>, refcnt: map<nat, nat>)

  /**
   The free list has no duplicates and holds exactly the pages with count 0, apart
   from those that a kfree has counted down to 0 and not yet pushed.
   */
  ghost predicate FramesOk(fr: Frames, pending: set<nat>) {
    && Distinct(fr.free)
    && (forall f :: f in fr.free || f in pending <==> f in fr.refcnt && fr.refcnt[f] == 0)
    && (forall f :: f in fr.free ==> f !in pending)
  }

  /** kalloc: the head of the free list, with one reference. */
  function AllocFrame(fr: Frames): Frames
    requires fr.free != []
  {
    Frames(fr.free[1..], fr.refcnt[fr.free[0] := 1])
  }

  function AddRef(fr: Frames, f: nat): Frames
    requires f in fr.refcnt
  {
    fr.(refcnt := fr.refcnt[f := fr.refcnt[f] + 1])
  }

  /** kfree, both halves: one reference less, and the page goes back when that was the last. */
  function FreeFrame(fr: Frames, f: nat): Frames
    requires f in fr.refcnt && fr.refcnt[f] > 0
  {
    Frames(if fr.refcnt[f] == 1 then [f] + fr.free else fr.free, fr.refcnt[f := fr.refcnt[f] - 1])
  }

  lemma AllocOk(fr: Frames)
    requires FramesOk(fr, {}) && fr.free != []
    ensures FramesOk(AllocFrame(fr), {})
    ensures fr.free[0] in fr.refcnt && fr.refcnt[fr.free[0]] == 0
  {
    assert fr.free == [fr.free[0]] + fr.free[1..];
    assert fr.free[0] in fr.free;
    assert fr.free[0] !in fr.free[1..];
  }

  lemma FreeOk(fr: Frames, f: nat)
    requires FramesOk(fr, {}) && f in fr.refcnt && fr.refcnt[f] > 0
    ensures FramesOk(FreeFrame(fr, f), {})
  {
  }

  /** A page allocated and freed again leaves the allocator as it was. */
  lemma AllocFree(fr: Frames)
    requires FramesOk(fr, {}) && fr.free != []
    ensures FreeFrame(AllocFrame(fr), fr.free[0]) == fr
  {
    AllocOk(fr);
    assert [fr.free[0]] + fr.free[1..] == fr.free;
    assert fr.refcnt[fr.free[0] := 1][fr.free[0] := 0] == fr.refcnt;
  }

  class Kmem {
    const first: nat                    // the first page after the kernel image
    const refcnt: array<int>
    const next: array<int>              // r->next, kept in the free page itself
    var freelist: int
    ghost var list: seq<nat>
    ghost var pending: set<nat>

    /** List element `i` links to the next one, the last to null. */
    ghost predicate Link(i: nat)
      reads this, next
      requires i < |list|
    {
      list[i] < next.Length && next[list[i]] == if i + 1 < |list| then list[i + 1] else NULL
    }

    ghost predicate Valid()
      reads this, refcnt, next
    {
      && refcnt != next && refcnt.Length == NPHYPAGES == next.Length && first <= NPHYPAGES
      && freelist == (if list == [] then NULL else list[0])
      && (forall i :: 0 <= i < |list| ==> Link(i))
      && (forall i :: 0 <= i < |list| ==> first <= list[i] < NPHYPAGES)
      && (forall f :: f in pending ==> first <= f < NPHYPAGES)
      && (forall f :: first <= f < NPHYPAGES ==> refcnt[f] >= 0)
      && FramesOk(Abs(), pending)
    }

    ghost function Abs(): Frames
      reads this, refcnt
      requires refcnt.Length == NPHYPAGES
      requires forall f :: first <= f < NPHYPAGES ==> refcnt[f] >= 0
    {
      Frames(list, map f: nat | first <= f < NPHYPAGES :: refcnt[f])
    }

    method Kalloc() returns (r: int)
      requires Valid()
      modifies this, refcnt
      ensures Valid() && pending == old(pending)
      ensures r == NULL <==> old(list) == []
      ensures r == NULL ==> Abs() == old(Abs())
      ensures r != NULL ==> old(list) != [] && r == old(list)[0] && Abs() == AllocFrame(old(Abs()))
    {
      r := freelist;
      if r != NULL {
        assert Link(0) && list[0] in list;
        freelist := next[r];
        refcnt[r] := 1;
        ghost var was := list;
        list := list[1..];
        assert was == [was[0]] + list;
        assert list != [] ==> list[0] == was[1];
        forall i | 0 <= i < |list| ensures Link(i) {
          assert old(Link(i + 1));
        }
      }
    }

    /** The first critical section of kfree, with its checks; `last` says the page must now be pushed. */
    method KfreeDrop(pa: nat) returns (panicked: bool, last: bool)
      requires Valid()
      modifies this`pending, refcnt
      ensures Valid() && list == old(list)
      ensures panicked <==> pa % PGSIZE != 0 || pa < KERNBASE + first * PGSIZE || pa >= PHYSTOP
                            || old(refcnt[(pa - KERNBASE) / PGSIZE]) < 1
      ensures panicked ==> Abs() == old(Abs()) && pending == old(pending)
      ensures !panicked ==>
                var f := (pa - KERNBASE) / PGSIZE;
                && (last <==> old(refcnt[f]) == 1)
                && Abs().refcnt == old(Abs()).refcnt[f := old(refcnt[f]) - 1]
                && pending == if last then old(pending) + {f} else old(pending)
    {
      if pa % PGSIZE != 0 || pa < KERNBASE + first * PGSIZE || pa >= PHYSTOP {
        return true, false;
      }
      var idx := (pa - KERNBASE) / PGSIZE;
      if refcnt[idx] < 1 {
        return true, false;
      }
      refcnt[idx] := refcnt[idx] - 1;
      last := refcnt[idx] <= 0;
      if last {
        pending := pending + {idx};
      }
      forall i | 0 <= i < |list| ensures Link(i) { assert old(Link(i)); }
      panicked := false;
    }

    /** The second critical section of kfree: push the page. */
    method KfreePush(f: nat)
      requires Valid() && f in pending
      modifies this`list, this`freelist, this`pending, next
      ensures Valid() && list == [f] + old(list) && pending == old(pending) - {f}
      ensures Abs().refcnt == old(Abs()).refcnt
    {
      next[f] := freelist;
      freelist := f;
      ghost var was := list;
      list := [f] + list;
      pending := pending - {f};
      forall i | 0 <= i < |list| ensures Link(i) {
        if i > 0 { assert old(Link(i - 1)); assert was[i - 1] in was; }
      }
    }

    /** kfree with nothing in between its halves. */
    method Kfree(pa: nat) returns (panicked: bool)
      requires Valid() && pending == {}
      modifies this, refcnt, next
      ensures Valid() && pending == {}
      ensures panicked <==> pa % PGSIZE != 0 || pa < KERNBASE + first * PGSIZE || pa >= PHYSTOP
                            || old(refcnt[(pa - KERNBASE) / PGSIZE]) < 1
      ensures panicked ==> Abs() == old(Abs())
      ensures !panicked ==> Abs() == FreeFrame(old(Abs()), (pa - KERNBASE) / PGSIZE)
    {
      var last;
      panicked, last := KfreeDrop(pa);
      if !panicked && last {
        KfreePush((pa - KERNBASE) / PGSIZE);
      }
    }

    method Kaddref(pa: nat) returns (panicked: bool)
      requires Valid()
      modifies refcnt
      ensures Valid()
      ensures panicked <==> pa % PGSIZE != 0 || pa < KERNBASE + first * PGSIZE || pa >= PHYSTOP
                            || old(refcnt[(pa - KERNBASE) / PGSIZE]) < 1
      ensures panicked ==> Abs() == old(Abs())
      ensures !panicked ==> Abs() == AddRef(old(Abs()), (pa - KERNBASE) / PGSIZE)
    {
      if pa % PGSIZE != 0 || pa < KERNBASE + first * PGSIZE || pa >= PHYSTOP {
        return true;
      }
      var idx := (pa - KERNBASE) / PGSIZE;
      if refcnt[idx] < 1 {
        return true;
      }
      refcnt[idx] := refcnt[idx] + 1;
      forall i | 0 <= i < |list| ensures Link(i) { assert old(Link(i)); }
      panicked := false;
    }

    /** freemem_pages: walking the list counts it. */
    method FreememPages() returns (count: nat)
      requires Valid()
      ensures count == |Abs().free|
    {
      count := 0;
      var r := freelist;
      while r != NULL
        invariant count <= |list|
        invariant r == if count < |list| then list[count] else NULL
        decreases |list| - count
      {
        assert Link(count);
        r := next[r];
        count := count + 1;
      }
    }

    /** kinit: freerange gives every page one reference and frees it, so all of them end up on the list. */
    constructor (end: nat)
      requires end <= NPHYPAGES
      ensures Valid() && fresh(refcnt) && fresh(next) && first == end && pending == {}
      ensures forall f :: f in list <==> end <= f < NPHYPAGES
      ensures |list| == NPHYPAGES - end
    {
      first := end;
      freelist, list, pending := NULL, [], {};
      refcnt := new int[NPHYPAGES](_ => 0);
      next := new int[NPHYPAGES](_ => 0);
      new;
      var f := end;
      while f < NPHYPAGES
        invariant end <= f <= NPHYPAGES && first == end && pending == {} && fresh(refcnt) && fresh(next)
        invariant refcnt != next && refcnt.Length == NPHYPAGES == next.Length
        invariant freelist == (if list == [] then NULL else list[0])
        invariant |list| == f - end && forall i :: 0 <= i < |list| ==> list[i] == f - 1 - i
        invariant forall p :: end <= p < f ==> next[p] == if p > end then p - 1 else NULL
        invariant forall p :: end <= p < NPHYPAGES ==> refcnt[p] == 0
      {
        refcnt[f] := 1;
        refcnt[f] := refcnt[f] - 1;
        next[f] := freelist;
        freelist := f;
        list := [f] + list;
        f := f + 1;
      }
      forall p ensures p in list <==> end <= p < NPHYPAGES {
        if end <= p < NPHYPAGES { assert list[NPHYPAGES - 1 - p] == p; }
      }
      assert Distinct(list);
      forall i | 0 <= i < |list| ensures Link(i) { assert list[i] == f - 1 - i; }
    }
  }
}
