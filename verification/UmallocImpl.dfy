/** free, morecore and malloc of user/umalloc.c, with their walks along the ring. */
module UmallocImpl {
  import opened UmallocHeap

  const HEADER_BYTES: nat := 16       // sizeof(Header)
  const MIN_UNITS: nat := 4096        // the least that morecore asks for
  const INT_LIMIT: nat := 0x8000_0000
  const UINT_LIMIT: nat := 0x1_0000_0000

  /** What sbrk answers: failure, or memory at or above everything obtained before. */
  datatype Sbrk = Failed | Grown(start: nat)

  function UnitsFor(nbytes: nat): nat {
    (nbytes + HEADER_BYTES - 1) / HEADER_BYTES + 1
  }

  function CoreUnits(nu: nat): nat {
    if nu < MIN_UNITS then MIN_UNITS else nu
  }

  /** Walking up the ring from `f` and round its end, `x` is met strictly before `c`. */
  predicate Between(f: nat, x: nat, c: nat) {
    if f < c then f < x < c else x > f || x < c
  }

  ghost predicate Fits(h: Heap, n: nat) {
    exists b :: b in h.ring && b in h.size && h.size[b] >= n
  }

  /** `c` is the first free block of at least `n` units met from `f` on. */
  ghost predicate FirstFit(h: Heap, f: nat, n: nat, c: nat) {
    && c in h.ring && c in h.size && h.size[c] >= n
    && forall x :: x in h.ring && Between(f, x, c) ==> x in h.size && h.size[x] < n
  }

  /** Nothing lies strictly between a ring element and the next. */
  lemma NextBetween(h: Heap, i: nat, x: nat)
    requires Chain(h) && i < |h.ring| && x in h.ring
    ensures !Between(h.ring[i], x, Next(h.ring, i)) || Next(h.ring, i) == h.ring[i]
  {
    var k :| 0 <= k < |h.ring| && h.ring[k] == x;
    if k < i { assert h.ring[k] < h.ring[i]; } else if k > i { assert h.ring[i + 1] <= h.ring[k]; }
  }

  /** What is met before the element after `p` was met before `p`, or is `p`. */
  lemma StepBetween(h: Heap, f: nat, i: nat, x: nat)
    requires Chain(h) && i < |h.ring| && x in h.ring && f in h.ring && f != h.ring[i]
    requires Between(f, x, Next(h.ring, i))
    ensures Between(f, x, h.ring[i]) || x == h.ring[i]
  {
    NextBetween(h, i, x);
    NextBetween(h, i, f);
    assert h.ring[0] <= f && h.ring[0] <= x && h.ring[0] <= h.ring[i] by {
      var k :| 0 <= k < |h.ring| && h.ring[k] == x;
      var m :| 0 <= m < |h.ring| && h.ring[m] == f;
    }
    if i + 1 < |h.ring| { assert h.ring[i] < h.ring[i + 1]; }
    else { assert f <= h.ring[i] && x <= h.ring[i] by { LastIsMax(h.ring, f); LastIsMax(h.ring, x); } }
  }

  /** Every free block met before `p` is too small. */
  ghost predicate Visited(h: Heap, f: nat, p: nat, n: nat) {
    forall x :: x in h.ring && Between(f, x, p) ==> x in h.size && h.size[x] < n
  }

  lemma VisitStart(h: Heap, i: nat, n: nat)
    requires Chain(h) && i < |h.ring|
    ensures Visited(h, h.ring[i], Next(h.ring, i), n)
  {
    forall x | x in h.ring ensures !Between(h.ring[i], x, Next(h.ring, i)) {
      NextBetween(h, i, x);
      LastIsMax(h.ring, x);
    }
  }

  lemma VisitNext(h: Heap, f: nat, i: nat, n: nat)
    requires Chain(h) && i < |h.ring| && f in h.ring && f != h.ring[i]
    requires Visited(h, f, h.ring[i], n) && h.size[h.ring[i]] < n
    ensures Visited(h, f, Next(h.ring, i), n)
  {
    forall x | x in h.ring && Between(f, x, Next(h.ring, i)) ensures x in h.size && h.size[x] < n {
      StepBetween(h, f, i, x);
    }
  }

  lemma PutAndDrop(m: map<nat, nat>, k: nat, v: nat)
    requires k !in m
    ensures m[k := v] - {k} == m
  {
  }

  /** After new memory has been freed, some free block holds all of it. */
  lemma NewMemoryFits(h: Heap, g: Heap, start: nat, n: nat)
    requires HeapOk(h) && HeapOk(g) && start >= h.brk && n > 0 && g.base == h.base
    requires g.live == h.live && g.owner.Keys == h.owner.Keys + Units(start, n)
    ensures Fits(g, n)
  {
    forall u | start <= u < start + n ensures g.owner[u] !in g.live {
      if g.owner[u] in g.live {
        assert Covers(g, g.owner[u], u);
        assert IsBlock(h, g.owner[u]) && Covers(h, g.owner[u], u);
      }
    }
    var x: nat := g.owner[start];
    assert Covers(g, x, start);
    assert x != g.base;
    Maximal(g, x);
    assert x + g.size[x] >= start + n;
  }

  class Allocator {
    const base: nat
    var ptr: map<nat, nat>
    var size: map<nat, nat>
    var freep: nat                 // 0 is the null pointer
    var brk: nat
    ghost var ring: seq<nat>
    ghost var live: map<nat, nat>
    ghost var owner: map<nat, nat>

    ghost function H(): Heap
      reads this
    {
      Heap(base, brk, ptr, size, ring, live, owner)
    }

    ghost predicate Valid()
      reads this
    {
      if freep == 0 then 0 < base < brk && ring == [] && live == map[] && owner == map[]
      else HeapOk(H()) && freep in ring
    }

    constructor (b: nat, top: nat)
      requires 0 < b < top
      ensures Valid() && base == b && brk == top && freep == 0
    {
      base, brk, freep, ptr, size := b, top, 0, map[], map[];
      ring, live, owner := [], map[], map[];
    }

    /** The loop of free: walk from freep to the place where `bp` belongs. */
    method FindPlace(bp: nat) returns (p: nat, ghost j: nat)
      requires Valid() && bp in live
      ensures Place(H(), j, bp) && ring[j] == p
    {
      ghost var t := Target(H(), bp);
      p := freep;
      j :| 0 <= j < |ring| && ring[j] == p;
      assert Linked(H(), j);
      while !(bp > p && bp < ptr[p])
        invariant j < |ring| && ring[j] == p && Linked(H(), j)
        decreases if j <= t then t - j else |ring| - j + t
      {
        if p >= ptr[p] && (bp > p || bp < ptr[p]) {
          break;
        }
        p := ptr[p];
        j := if j + 1 < |ring| then j + 1 else 0;
        assert Linked(H(), j);
      }
      assert j + 1 < |ring| ==> ring[j] < ring[j + 1];
      assert Covers(H(), bp, bp);
    }

    /** free: the block leaves `live`; coalescing is part of Valid(), so this fixes the whole free list. */
    method Free(ap: nat)
      requires Valid() && ap > 0 && ap - 1 in live
      modifies this
      ensures Valid() && freep != 0
      ensures live == old(live) - {ap - 1} && owner.Keys == old(owner.Keys) && brk == old(brk)
    {
      var bp := ap - 1;
      var p; ghost var j;
      p, j := FindPlace(bp);
      ghost var h := H();
      ghost var g := FreeStep(h, j, bp);
      var next := ptr[p];
      JoinUp(bp, next);
      JoinDown(p, bp);
      freep := p;
      ring, live, owner := g.ring, g.live, g.owner;
      assert H() == g;
    }

    /** free's first if-statement. */
    method JoinUp(bp: nat, next: nat)
      requires bp in size && next in size && next in ptr
      modifies this`ptr, this`size
      ensures size == SizeUp(old(size), bp, next) && ptr == PtrUp(old(ptr), old(size), bp, next)
    {
      if bp + size[bp] == next {
        size := size[bp := size[bp] + size[next]];
        ptr := ptr[bp := ptr[next]];
      } else {
        ptr := ptr[bp := next];
      }
    }

    /** free's second if-statement. */
    method JoinDown(p: nat, bp: nat)
      requires p in size && bp in size && bp in ptr
      modifies this`ptr, this`size
      ensures size == SizeDown(old(size), p, bp) && ptr == PtrDown(old(ptr), old(size), p, bp)
    {
      if p + size[p] == bp {
        size := size[p := size[p] + size[bp]];
        ptr := ptr[p := ptr[bp]];
      } else {
        ptr := ptr[p := bp];
      }
    }

    /** morecore: ask sbrk for at least MIN_UNITS and free what it gives. */
    method Morecore(nu: nat, sbrk: Sbrk) returns (p: nat)
      requires Valid() && freep != 0 && nu > 0 && CoreUnits(nu) * HEADER_BYTES < INT_LIMIT
      requires sbrk.Grown? ==> sbrk.start >= brk
      modifies this
      ensures Valid() && freep != 0 && live == old(live)
      ensures sbrk.Failed? ==> p == 0 && H() == old(H()) && freep == old(freep)
      ensures sbrk.Grown? ==> p == freep && owner.Keys == old(owner.Keys) + Units(sbrk.start, CoreUnits(nu))
      ensures sbrk.Grown? ==> brk == sbrk.start + CoreUnits(nu) && Fits(H(), nu)
    {
      var n := nu;
      if n < MIN_UNITS {
        n := MIN_UNITS;
      }
      match sbrk
      case Failed => return 0;
      case Grown(start) =>
        AddAndFree(start, n);
        p := freep;
    }

    /** Give the memory at `start` a header: it becomes a live block. */
    method AddHeader(start: nat, n: nat)
      requires Valid() && freep != 0 && start >= brk && n > 0
      modifies this`size, this`brk, this`live, this`owner
      ensures Valid() && start !in old(live) && live == old(live)[start := n] && brk == start + n
      ensures owner.Keys == old(owner.Keys) + Units(start, n)
    {
      ghost var g := GrowStep(H(), start, n);
      size := size[start := n];
      brk := start + n;
      live, owner := g.live, g.owner;
      assert H() == g;
    }

    /** Give the memory at `start` a header and free it. */
    method AddAndFree(start: nat, n: nat)
      requires Valid() && freep != 0 && start >= brk && n > 0
      modifies this
      ensures Valid() && freep != 0 && live == old(live) && brk == start + n
      ensures owner.Keys == old(owner.Keys) + Units(start, n) && Fits(H(), n)
    {
      ghost var h := H();
      AddHeader(start, n);
      Free(start + 1);
      PutAndDrop(h.live, start, n);
      NewMemoryFits(h, H(), start, n);
    }

    /** malloc's success branch: use up the block at `p`, or cut its tail off. */
    method TakeBlock(prevp: nat, p0: nat, nunits: nat) returns (ap: nat)
      requires Valid() && freep != 0 && prevp in ring && prevp in ptr && ptr[prevp] == p0
      requires p0 in ring && nunits > 0 && size[p0] >= nunits
      modifies this
      ensures Valid() && freep == prevp && ap > 0
      ensures ap - 1 + nunits == p0 + old(size[p0])
      ensures ap - 1 !in old(live) && live == old(live)[ap - 1 := nunits]
      ensures owner.Keys == old(owner.Keys) && brk == old(brk)
    {
      ghost var i :| 0 <= i < |ring| && ring[i] == prevp;
      assert Linked(H(), i);
      ghost var g := AllocStep(H(), i, nunits);
      var p := p0;
      if size[p] == nunits {
        ptr := ptr[prevp := ptr[p]];
      } else {
        size := size[p := size[p] - nunits];
        p := p + size[p];
        size := size[p := nunits];
      }
      freep := prevp;
      ring, live, owner := g.ring, g.live, g.owner;
      assert H() == g;
      ap := p + 1;
    }

    /** malloc's first call: the ring is the static header alone. */
    method InitBase()
      requires Valid() && freep == 0
      modifies this
      ensures Valid() && freep == base && ring == [base] && live == old(live) && owner == old(owner) && brk == old(brk)
      ensures !Fits(H(), 1)
    {
      ptr := ptr[base := base];
      freep := base;
      size := size[base := 0];
      ring := [base];
      assert Linked(H(), 0);
    }

    /**
     malloc's search loop: one lap along the ring, and if nothing fits one call of
     morecore and another lap, which is sure to succeed.
     */
    method Search(nunits: nat, sbrk: Sbrk) returns (found: bool, prevp: nat, p: nat)
      requires Valid() && freep != 0 && nunits > 0 && CoreUnits(nunits) * HEADER_BYTES < INT_LIMIT
      requires sbrk.Grown? ==> sbrk.start >= brk
      modifies this
      ensures Valid() && freep != 0 && live == old(live)
      ensures found <==> old(Fits(H(), nunits)) || sbrk.Grown?
      ensures found ==> prevp in ring && prevp in ptr && ptr[prevp] == p && p in ring && size[p] >= nunits
      ensures old(Fits(H(), nunits)) || !found ==> H() == old(H()) && freep == old(freep)
      ensures old(Fits(H(), nunits)) ==> FirstFit(old(H()), old(freep), nunits, p)
      ensures !old(Fits(H(), nunits)) && found ==>
                owner.Keys == old(owner.Keys) + Units(sbrk.start, CoreUnits(nunits))
                    && brk == sbrk.start + CoreUnits(nunits)
    {
      prevp := freep;
      ghost var grown := false;
      ghost var i := IndexOf(ring, prevp);
      VisitStart(H(), i, nunits);
      RingNext(H(), i);
      p := ptr[prevp];
      while size[p] < nunits
        invariant Valid() && freep != 0 && prevp in ring && p in ring && prevp in ptr && ptr[prevp] == p
        invariant Visited(H(), freep, p, nunits) && live == old(live)
        invariant !grown ==> H() == old(H()) && freep == old(freep)
        invariant grown ==> sbrk.Grown? && !old(Fits(H(), nunits)) && Fits(H(), nunits)
        invariant grown ==>
                    owner.Keys == old(owner.Keys) + Units(sbrk.start, CoreUnits(nunits))
                    && brk == sbrk.start + CoreUnits(nunits)
        decreases !grown, Distance(ring, p, freep)
      {
        if p == freep {
          NothingFits(H(), freep, nunits);
          p := Morecore(nunits, sbrk);
          if p == 0 {
            return false, 0, 0;
          }
          grown := true;
          VisitStart(H(), IndexOf(ring, p), nunits);
        } else {
          VisitNext(H(), freep, IndexOf(ring, p), nunits);
          Closer(H(), IndexOf(ring, p), freep);
        }
        RingNext(H(), IndexOf(ring, p));
        prevp := p;
        p := ptr[p];
      }
      found := true;
    }

    /**
     malloc: the answer is null exactly when no free block is large enough and sbrk
     fails.  Otherwise one new live block of the right size appears, cut from the
     first free block that fits, or after asking sbrk once.
     */
    method Malloc(nbytes: nat, sbrk: Sbrk) returns (ap: nat)
      requires Valid() && nbytes < UINT_LIMIT
      requires CoreUnits(UnitsFor(nbytes)) * HEADER_BYTES < INT_LIMIT
      requires sbrk.Grown? ==> sbrk.start >= brk
      modifies this
      ensures Valid() && freep != 0
      ensures (UnitsFor(nbytes) - 2) * HEADER_BYTES < nbytes <= (UnitsFor(nbytes) - 1) * HEADER_BYTES
      ensures ap == 0 <==> !old(Fits(H(), UnitsFor(nbytes))) && sbrk.Failed?
      ensures ap == 0 ==> live == old(live)
      ensures ap != 0 ==> ap - 1 !in old(live) && live == old(live)[ap - 1 := UnitsFor(nbytes)]
      ensures old(Fits(H(), UnitsFor(nbytes))) || ap == 0 ==> owner.Keys == old(owner.Keys) && brk == old(brk)
      ensures old(Fits(H(), UnitsFor(nbytes))) ==>
                exists c :: FirstFit(old(H()), old(freep), UnitsFor(nbytes), c)
                    && ap - 1 + UnitsFor(nbytes) == c + old(size)[c]
      ensures !old(Fits(H(), UnitsFor(nbytes))) && sbrk.Grown? ==>
                && owner.Keys == old(owner.Keys) + Units(sbrk.start, CoreUnits(UnitsFor(nbytes)))
                && brk == sbrk.start + CoreUnits(UnitsFor(nbytes))
    {
      var nunits := UnitsFor(nbytes);
      if freep == 0 {
        InitBase();
      }
      var found, prevp, p := Search(nunits, sbrk);
      if !found {
        return 0;
      }
      ap := TakeBlock(prevp, p, nunits);
    }
  }

  lemma RingNext(h: Heap, i: nat)
    requires Chain(h) && i < |h.ring|
    ensures h.ring[i] in h.ptr && h.ptr[h.ring[i]] == Next(h.ring, i) && Next(h.ring, i) in h.ring
  {
    assert Linked(h, i);
  }

  lemma NothingFits(h: Heap, f: nat, n: nat)
    requires Chain(h) && f in h.ring && Visited(h, f, f, n) && h.size[f] < n
    ensures !Fits(h, n)
  {
    forall x | x in h.ring ensures h.size[x] < n {
      if x != f { assert Between(f, x, f); }
    }
  }

  ghost function IndexOf(ring: seq<nat>, x: nat): (i: nat)
    requires x in ring
    ensures i < |ring| && ring[i] == x
  {
    var i :| 0 <= i < |ring| && ring[i] == x;
    i
  }

  /** How many steps along the ring lead from `p` to `f`. */
  ghost function Distance(ring: seq<nat>, p: nat, f: nat): nat {
    if p !in ring || f !in ring then 0
    else
      var i, j := IndexOf(ring, p), IndexOf(ring, f);
      if i <= j then j - i else |ring| - i + j
  }

  lemma Closer(h: Heap, i: nat, f: nat)
    requires Chain(h) && i < |h.ring| && f in h.ring && f != h.ring[i]
    ensures Next(h.ring, i) in h.ring && Distance(h.ring, Next(h.ring, i), f) < Distance(h.ring, h.ring[i], f)
  {
    var k, j, m := IndexOf(h.ring, h.ring[i]), IndexOf(h.ring, f), IndexOf(h.ring, Next(h.ring, i));
    assert k == i;
  }

  /** The last ring element below `bp`. */
  lemma Target(h: Heap, bp: nat) returns (t: nat)
    requires HeapOk(h) && bp in h.live
    ensures Place(h, t, bp)
  {
    assert Covers(h, bp, bp);
    t := 0;
    while t + 1 < |h.ring| && h.ring[t + 1] < bp
      invariant t < |h.ring| && h.ring[t] < bp
    {
      t := t + 1;
    }
    assert t + 1 < |h.ring| ==> h.ring[t + 1] in h.ring;
  }
}
