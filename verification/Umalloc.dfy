/**
 The storage allocator of user/umalloc.c (The C Programming Language, 2nd ed.,
 section 8.7): a circular free list in address order, threaded through the block
 headers.  Addresses and sizes are in units of sizeof(Header), 16 bytes.
 */
module UmallocHeap {

  /**
   The headers in memory (`ptr`, `size`) and what they are meant to represent:
   `ring` lists the static header `base` and then the free blocks in address order,
   `live` maps each block handed out to its size, and `owner` maps every unit ever
   obtained from sbrk to the block it lies in.
   */
  datatype Heap = Heap(base: nat, brk: nat, ptr: map<nat, nat>, size: map<nat, nat>,
                       ring: seq<nat>, live: map<nat, nat>, owner: map<nat, nat>)

  predicate Ascending(s: seq<nat>) {
    forall i, j :: 0 <= i < j < |s| ==> s[i] < s[j]
  }

  function Next(ring: seq<nat>, i: nat): nat
    requires i < |ring|
  {
    if i + 1 < |ring| then ring[i + 1] else ring[0]
  }

  /** The header of ring element `i` points to the next element, or back to the start. */
  predicate Linked(h: Heap, i: nat)
    requires i < |h.ring|
  {
    h.ring[i] in h.ptr && h.ptr[h.ring[i]] == Next(h.ring, i)
  }

  /** The ring is linked and in address order, and only the static header is empty. */
  ghost predicate Chain(h: Heap) {
    && |h.ring| > 0 && h.ring[0] == h.base && h.base > 0 && Ascending(h.ring)
    && (forall i :: 0 <= i < |h.ring| ==> Linked(h, i))
    && (forall b :: b in h.ring ==> b in h.size && (h.size[b] == 0 <==> b == h.base))
  }

  /** Free block `i` of the ring ends where the next one starts. */
  predicate TouchAt(h: Heap, i: nat) {
    0 < i && i + 1 < |h.ring| && h.ring[i] in h.size && h.ring[i] + h.size[h.ring[i]] == h.ring[i + 1]
  }

  ghost predicate RingOk(h: Heap) {
    Chain(h) && forall i :: !TouchAt(h, i)
  }

  predicate Covers(h: Heap, b: nat, u: nat) {
    b in h.size && b <= u < b + h.size[b]
  }

  predicate IsBlock(h: Heap, b: nat) {
    b in h.ring || b in h.live
  }

  /** Each unit obtained from sbrk lies in exactly one free or live block, and no block reaches outside. */
  ghost predicate TilesOk(h: Heap) {
    && h.base < h.brk
    && (forall a :: a in h.live ==> a in h.size && h.size[a] == h.live[a] > 0 && a !in h.ring)
    && (forall b, u :: IsBlock(h, b) && Covers(h, b, u) ==> u in h.owner && h.owner[u] == b)
    && (forall u :: u in h.owner ==> IsBlock(h, h.owner[u]) && Covers(h, h.owner[u], u) && h.base < u < h.brk)
  }

  ghost predicate HeapOk(h: Heap) {
    RingOk(h) && TilesOk(h)
  }

  /** Different blocks do not overlap: the lower one ends before the higher one starts. */
  lemma Disjoint(h: Heap, a: nat, b: nat)
    requires TilesOk(h) && IsBlock(h, a) && IsBlock(h, b) && a < b && a in h.size && b in h.size && h.size[b] > 0
    ensures a + h.size[a] <= b
  {
    if a + h.size[a] > b {
      assert Covers(h, a, b) && Covers(h, b, b);
    }
  }

  lemma AboveBase(h: Heap, b: nat)
    requires RingOk(h) && b in h.ring
    ensures b >= h.base
  {
    var i :| 0 <= i < |h.ring| && h.ring[i] == b;
    if i > 0 { assert h.ring[0] < h.ring[i]; }
  }

  lemma NoTouch(h: Heap, a: nat, b: nat)
    requires HeapOk(h) && a in h.ring && b in h.ring && h.base < a < b
    ensures a + h.size[a] < b
  {
    var i :| 0 <= i < |h.ring| && h.ring[i] == a;
    var j :| 0 <= j < |h.ring| && h.ring[j] == b;
    assert 0 < i < j;
    assert !TouchAt(h, i);
    Disjoint(h, a, h.ring[i + 1]);
    assert h.ring[i + 1] <= h.ring[j];
  }

  /** Coalescing is complete: the units just before and just after a free block are live or were never obtained. */
  lemma Maximal(h: Heap, b: nat)
    requires HeapOk(h) && b in h.ring && b != h.base
    ensures b > 0 && (b - 1 in h.owner ==> h.owner[b - 1] in h.live)
    ensures b + h.size[b] in h.owner ==> h.owner[b + h.size[b]] in h.live
  {
    AboveBase(h, b);
    if b - 1 in h.owner && h.owner[b - 1] !in h.live {
      var c := h.owner[b - 1];
      assert Covers(h, c, b - 1);
      AboveBase(h, c);
      NoTouch(h, c, b);
    }
    var u := b + h.size[b];
    if u in h.owner && h.owner[u] !in h.live {
      var c := h.owner[u];
      assert Covers(h, c, u);
      if c < b { Disjoint(h, c, b); } else { NoTouch(h, b, c); }
    }
  }

  ghost predicate SameUse(h: Heap, g: Heap) {
    h.base == g.base && h.live == g.live && h.owner.Keys == g.owner.Keys
  }

  lemma LiveOwner(h: Heap, g: Heap, u: nat)
    requires TilesOk(h) && TilesOk(g) && SameUse(h, g) && u in h.owner
    ensures h.owner[u] in h.live <==> g.owner[u] in g.live
  {
    if h.owner[u] in h.live { assert Covers(g, h.owner[u], u); }
    if g.owner[u] in g.live { assert Covers(h, g.owner[u], u); }
  }

  /** A free block of one heap starts a free block of the other, and is not longer than it. */
  lemma SameBlock(h: Heap, g: Heap, b: nat)
    requires HeapOk(h) && HeapOk(g) && SameUse(h, g) && b in h.ring
    ensures b in g.ring && h.size[b] <= g.size[b]
  {
    if b != h.base {
      SameStart(h, g, b);
      Maximal(g, b);
      if h.size[b] > g.size[b] {
        assert Covers(h, b, b + g.size[b]);
        LiveOwner(h, g, b + g.size[b]);
      }
    }
  }

  lemma SameStart(h: Heap, g: Heap, b: nat)
    requires HeapOk(h) && HeapOk(g) && SameUse(h, g) && b in h.ring && b != h.base
    ensures b in g.ring
  {
    FreeStart(h, b);
    Maximal(h, b);
    LiveOwner(h, g, b);
    UnitBelow(g, b);
    if b > 0 && b - 1 in h.owner { LiveOwner(h, g, b - 1); }
  }

  lemma FreeStart(h: Heap, b: nat)
    requires HeapOk(h) && b in h.ring && b != h.base
    ensures b in h.owner && h.owner[b] == b && b !in h.live
  {
    AboveBase(h, b);
    assert Covers(h, b, b);
  }

  /** A unit starts its block, or the unit below it belongs to the same block. */
  lemma UnitBelow(h: Heap, u: nat)
    requires TilesOk(h) && u in h.owner
    ensures IsBlock(h, h.owner[u])
    ensures h.owner[u] == u || (u > 0 && u - 1 in h.owner && h.owner[u - 1] == h.owner[u])
  {
    assert Covers(h, h.owner[u], u);
    if h.owner[u] < u { assert Covers(h, h.owner[u], u - 1); }
  }

  /**
   The free list is determined by the live blocks and the units obtained: every
   maximal run of free units is one free block.  So a postcondition that fixes
   those two fixes the whole list.
   */
  lemma FreeListUnique(h: Heap, g: Heap)
    requires HeapOk(h) && HeapOk(g) && SameUse(h, g)
    ensures h.ring == g.ring
    ensures forall b :: b in h.ring ==> h.size[b] == g.size[b]
  {
    forall b ensures b in h.ring <==> b in g.ring {
      if b in h.ring { SameBlock(h, g, b); }
      if b in g.ring { SameBlock(g, h, b); }
    }
    SortedEqual(h.ring, g.ring);
    forall b | b in h.ring ensures h.size[b] == g.size[b] {
      SameBlock(h, g, b);
      SameBlock(g, h, b);
    }
  }

  lemma LastIsMax(s: seq<nat>, x: nat)
    requires Ascending(s) && x in s
    ensures x <= s[|s| - 1]
  {
    var i :| 0 <= i < |s| && s[i] == x;
  }

  lemma {:induction false} SortedEqual(a: seq<nat>, b: seq<nat>)
    requires Ascending(a) && Ascending(b)
    requires forall x :: x in a <==> x in b
    ensures a == b
    decreases |a|
  {
    if a != [] { NotEmpty(a, b); }
    if b != [] { NotEmpty(b, a); }
    if a != [] {
      var k, m := |a| - 1, |b| - 1;
      LastIsMax(b, a[k]);
      LastIsMax(a, b[m]);
      forall z ensures z in a[..k] <==> z in b[..m] {
        DropLast(a, z);
        DropLast(b, z);
      }
      SortedEqual(a[..k], b[..m]);
      assert a == a[..k] + [a[k]] && b == b[..m] + [b[m]];
    }
  }

  lemma NotEmpty(a: seq<nat>, b: seq<nat>)
    requires a != [] && forall x :: x in a ==> x in b
    ensures b != []
  {
    assert a[0] in b;
  }

  lemma DropLast(s: seq<nat>, x: nat)
    requires Ascending(s) && s != []
    ensures x in s[..|s| - 1] <==> x in s && x != s[|s| - 1]
  {
    assert s == s[..|s| - 1] + [s[|s| - 1]];
  }

  // ---------- the changes the allocator makes ----------

  /** Put live block `bp` on the free list behind ring element `j`. */
  ghost function Insert(h: Heap, j: nat, bp: nat): Heap
    requires j < |h.ring|
  {
    h.(ptr := h.ptr[bp := Next(h.ring, j)][h.ring[j] := bp],
       ring := h.ring[..j + 1] + [bp] + h.ring[j + 1..],
       live := h.live - {bp})
  }

  /** Join ring element `i` with the one behind it. */
  ghost function Merge(h: Heap, i: nat): Heap
    requires i + 1 < |h.ring| && h.ring[i] in h.size && h.ring[i + 1] in h.size && h.ring[i + 1] in h.ptr
  {
    var a, b := h.ring[i], h.ring[i + 1];
    h.(ptr := h.ptr[a := h.ptr[b]],
       size := h.size[a := h.size[a] + h.size[b]],
       ring := h.ring[..i + 1] + h.ring[i + 2..],
       owner := map u | u in h.owner :: if h.owner[u] == b then a else h.owner[u])
  }

  /** Hand out the whole of ring element `k`. */
  ghost function Take(h: Heap, k: nat): Heap
    requires 0 < k < |h.ring| && h.ring[k] in h.size && h.ring[k] in h.ptr
  {
    var p := h.ring[k];
    h.(ptr := h.ptr[h.ring[k - 1] := h.ptr[p]],
       ring := h.ring[..k] + h.ring[k + 1..],
       live := h.live[p := h.size[p]])
  }

  /** Hand out the last `n` units of free block `p`. */
  ghost function Split(h: Heap, p: nat, n: nat): Heap
    requires p in h.size && n < h.size[p]
  {
    var a := p + h.size[p] - n;
    h.(size := h.size[p := h.size[p] - n][a := n],
       live := h.live[a := n],
       owner := map u | u in h.owner :: if h.owner[u] == p && u >= a then a else h.owner[u])
  }

  /** New memory from sbrk, not yet on the free list. */
  ghost function Grow(h: Heap, start: nat, n: nat): Heap {
    h.(brk := start + n, size := h.size[start := n], live := h.live[start := n],
       owner := map u | u in h.owner.Keys + Units(start, n) :: if u in h.owner then h.owner[u] else start)
  }

  predicate InRange(start: nat, n: nat, u: nat) {
    start <= u < start + n
  }

  function Units(start: nat, n: nat): (s: set<nat>)
    ensures forall u :: u in s <==> start <= u < start + n
  {
    set u: nat | u < start + n && InRange(start, n, u)
  }

  lemma InsertOk(h: Heap, j: nat, bp: nat)
    requires HeapOk(h) && bp in h.live && j < |h.ring| && h.ring[j] < bp && (j + 1 < |h.ring| ==> bp < h.ring[j + 1])
    ensures Chain(Insert(h, j, bp)) && TilesOk(Insert(h, j, bp))
    ensures forall i :: TouchAt(Insert(h, j, bp), i) ==> i == j || i == j + 1
  {
    var g := Insert(h, j, bp);
    assert forall b :: b in g.ring <==> b in h.ring || b == bp;
    InsertChain(h, j, bp);
    forall b, u | IsBlock(g, b) && Covers(g, b, u) ensures u in g.owner && g.owner[u] == b {
      assert IsBlock(h, b) && Covers(h, b, u);
    }
    forall u | u in g.owner ensures IsBlock(g, g.owner[u]) && Covers(g, g.owner[u], u) && g.base < u < g.brk {
      assert IsBlock(h, h.owner[u]) && Covers(h, h.owner[u], u);
    }
    forall i: nat | TouchAt(g, i) ensures i == j || i == j + 1 {
      assert !TouchAt(h, if i < j then i else if i > j + 1 then i - 1 else 0);
    }
  }

  lemma InsertAscending(s: seq<nat>, j: nat, x: nat)
    requires Ascending(s) && j < |s| && s[j] < x && (j + 1 < |s| ==> x < s[j + 1])
    ensures Ascending(s[..j + 1] + [x] + s[j + 1..])
  {
    var t := s[..j + 1] + [x] + s[j + 1..];
    forall i, k | 0 <= i < k < |t| ensures t[i] < t[k] {
      if i == j + 1 {
        assert t[k] == s[k - 1] && (k - 1 == j + 1 || s[j + 1] < s[k - 1]);
      } else if k == j + 1 {
        assert t[i] == s[i] && (i == j || s[i] < s[j]);
      }
    }
  }

  lemma InsertChain(h: Heap, j: nat, bp: nat)
    requires HeapOk(h) && bp in h.live && j < |h.ring| && h.ring[j] < bp && (j + 1 < |h.ring| ==> bp < h.ring[j + 1])
    ensures Chain(Insert(h, j, bp))
  {
    var g := Insert(h, j, bp);
    InsertAscending(h.ring, j, bp);
    assert forall b :: b in g.ring <==> b in h.ring || b == bp;
    assert Covers(h, bp, bp) && h.base < bp;
    forall i | 0 <= i < |g.ring| ensures Linked(g, i) { InsertLinked(h, j, bp, i); }
  }

  lemma InsertLinked(h: Heap, j: nat, bp: nat, i: nat)
    requires Chain(h) && bp !in h.ring && j < |h.ring| && i <= |h.ring|
    ensures Linked(Insert(h, j, bp), i)
  {
    if i < j {
      assert Linked(h, i) && h.ring[i] < h.ring[j];
    } else if i > j + 1 {
      assert Linked(h, i - 1) && h.ring[j] < h.ring[i - 1];
    }
  }

  lemma RemoveAscending(s: seq<nat>, k: nat)
    requires Ascending(s) && k < |s|
    ensures Ascending(s[..k] + s[k + 1..])
    ensures forall x :: x in s[..k] + s[k + 1..] <==> x in s && x != s[k]
  {
    forall x ensures x in s[..k] + s[k + 1..] <==> x in s && x != s[k] { RemoveIn(s, k, x); }
  }

  lemma RemoveIn(s: seq<nat>, k: nat, x: nat)
    requires Ascending(s) && k < |s|
    ensures x in s[..k] + s[k + 1..] <==> x in s && x != s[k]
  {
    assert s == s[..k] + [s[k]] + s[k + 1..];
    assert s[k] !in s[..k] && s[k] !in s[k + 1..];
  }

  lemma MergeOk(h: Heap, i: nat)
    requires Chain(h) && TilesOk(h) && TouchAt(h, i)
    ensures Linked(h, i + 1) && Chain(Merge(h, i)) && TilesOk(Merge(h, i))
    ensures forall k: nat :: TouchAt(Merge(h, i), k) ==> TouchAt(h, if k < i then k else k + 1)
  {
    assert Linked(h, i + 1);
    var g := Merge(h, i);
    RemoveAscending(h.ring, i + 1);
    forall k | 0 <= k < |g.ring| ensures Linked(g, k) { MergeLinked(h, i, k); }
    MergeTiles(h, i);
    forall k: nat | TouchAt(g, k) ensures TouchAt(h, if k < i then k else k + 1) { MergeTouch(h, i, k); }
  }

  lemma MergeTouch(h: Heap, i: nat, k: nat)
    requires Chain(h) && TouchAt(h, i) && Linked(h, i + 1) && TouchAt(Merge(h, i), k)
    ensures TouchAt(h, if k < i then k else k + 1)
  {
    var r := Merge(h, i).ring;
    assert r[k] == (if k <= i then h.ring[k] else h.ring[k + 1])
        && r[k + 1] == if k < i then h.ring[k + 1] else h.ring[k + 2];
    if k < i { assert h.ring[k] < h.ring[i]; } else if k > i { assert h.ring[i] < h.ring[k + 1]; }
  }

  lemma MergeLinked(h: Heap, i: nat, k: nat)
    requires Chain(h) && i + 1 < |h.ring| && k < |h.ring| - 1 && Linked(h, i + 1)
    ensures Linked(Merge(h, i), k)
  {
    var k' := if k <= i then k else k + 1;
    assert Linked(h, k');
    assert h.ring[k'] == Merge(h, i).ring[k];
    if k < i { assert h.ring[k] < h.ring[i]; } else if k > i { assert h.ring[i] < h.ring[k + 1]; }
  }

  lemma MergeTiles(h: Heap, i: nat)
    requires Chain(h) && TilesOk(h) && TouchAt(h, i) && Linked(h, i + 1)
    ensures TilesOk(Merge(h, i))
  {
    var g, a, b := Merge(h, i), h.ring[i], h.ring[i + 1];
    RemoveAscending(h.ring, i + 1);
    forall x, u | IsBlock(g, x) && Covers(g, x, u) ensures u in g.owner && g.owner[u] == x {
      if x == a {
        assert Covers(h, a, u) || Covers(h, b, u);
      } else {
        assert Covers(h, x, u);
      }
    }
    forall u | u in g.owner ensures IsBlock(g, g.owner[u]) && Covers(g, g.owner[u], u) && g.base < u < g.brk {
      assert Covers(h, h.owner[u], u);
    }
  }

  lemma TakeOk(h: Heap, k: nat)
    requires HeapOk(h) && 0 < k < |h.ring|
    ensures Linked(h, k) && HeapOk(Take(h, k))
  {
    assert Linked(h, k);
    var g, p := Take(h, k), h.ring[k];
    RemoveAscending(h.ring, k);
    assert h.ring[0] < p;
    forall i | 0 <= i < |g.ring| ensures Linked(g, i) { TakeLinked(h, k, i); }
    forall i ensures !TouchAt(g, i) { TakeApart(h, k, i); }
    forall b, u | IsBlock(g, b) && Covers(g, b, u) ensures u in g.owner && g.owner[u] == b {
      assert IsBlock(h, b) && Covers(h, b, u);
    }
    forall u | u in g.owner ensures IsBlock(g, g.owner[u]) && Covers(g, g.owner[u], u) && g.base < u < g.brk {
      assert IsBlock(h, h.owner[u]) && Covers(h, h.owner[u], u);
    }
  }

  /** Hand out the last `n` units of the free block behind `prevp`, taking it off the list when it is used up. */
  lemma AllocStep(h: Heap, i: nat, n: nat) returns (g: Heap)
    requires HeapOk(h) && i < |h.ring| && n > 0
    requires Next(h.ring, i) in h.size && h.size[Next(h.ring, i)] >= n
    ensures h.ring[i] in h.ptr && h.ptr[h.ring[i]] == Next(h.ring, i) && Next(h.ring, i) in h.ptr
    ensures var p := Next(h.ring, i);
            var a := p + h.size[p] - n;
            && HeapOk(g) && g.base == h.base && g.brk == h.brk && h.ring[i] in g.ring
            && a !in h.live && g.live == h.live[a := n] && g.owner.Keys == h.owner.Keys
            && (h.size[p] == n ==> g.ptr == h.ptr[h.ring[i] := h.ptr[p]] && g.size == h.size)
            && (h.size[p] > n ==> g.ptr == h.ptr && g.size == h.size[p := h.size[p] - n][a := n])
  {
    var p := Next(h.ring, i);
    assert Linked(h, i) && i + 1 < |h.ring| && Linked(h, i + 1);
    if h.size[p] == n {
      TakeOk(h, i + 1);
      g := Take(h, i + 1);
      assert g.ring[i] == h.ring[i];
    } else {
      SplitOk(h, p, n);
      g := Split(h, p, n);
    }
  }

  lemma TakeLinked(h: Heap, k: nat, i: nat)
    requires Chain(h) && 0 < k < |h.ring| && i < |h.ring| - 1 && Linked(h, k)
    ensures Linked(Take(h, k), i)
  {
    var i' := if i < k then i else i + 1;
    assert Linked(h, i');
    assert h.ring[i'] == Take(h, k).ring[i];
    if i < k - 1 { assert h.ring[i] < h.ring[k - 1]; } else if i >= k { assert h.ring[k - 1] < h.ring[i + 1]; }
  }

  lemma SplitOk(h: Heap, p: nat, n: nat)
    requires HeapOk(h) && p in h.ring && 0 < n < h.size[p]
    ensures HeapOk(Split(h, p, n))
    ensures p + h.size[p] - n !in h.live && p + h.size[p] - n !in h.ring
  {
    var g, a := Split(h, p, n), p + h.size[p] - n;
    assert Covers(h, p, a);
    assert a !in h.live by { if a in h.live { assert Covers(h, a, a); } }
    assert a !in h.ring by { if a in h.ring { AboveBase(h, a); AboveBase(h, p); assert Covers(h, a, a); } }
    forall i | 0 <= i < |g.ring| ensures Linked(g, i) { assert Linked(h, i); }
    forall i ensures !TouchAt(g, i) { SplitApart(h, p, n, i); }
    SplitTiles(h, p, n);
  }

  lemma SplitApart(h: Heap, p: nat, n: nat, i: nat)
    requires HeapOk(h) && p in h.ring && 0 < n < h.size[p] && p + h.size[p] - n !in h.ring
    ensures !TouchAt(Split(h, p, n), i)
  {
    if 0 < i && i + 1 < |h.ring| {
      assert h.ring[0] < h.ring[i];
      NoTouch(h, h.ring[i], h.ring[i + 1]);
    }
  }

  lemma TakeApart(h: Heap, k: nat, i: nat)
    requires HeapOk(h) && 0 < k < |h.ring| && Linked(h, k)
    ensures !TouchAt(Take(h, k), i)
  {
    if 0 < i && i + 1 < |h.ring| - 1 {
      var i', j' := if i < k then i else i + 1, if i + 1 < k then i + 1 else i + 2;
      assert h.ring[0] < h.ring[i'] < h.ring[j'];
      NoTouch(h, h.ring[i'], h.ring[j']);
    }
  }

  lemma SplitTiles(h: Heap, p: nat, n: nat)
    requires HeapOk(h) && p in h.ring && 0 < n < h.size[p]
    requires p + h.size[p] - n !in h.live && p + h.size[p] - n !in h.ring
    ensures TilesOk(Split(h, p, n))
  {
    var g, a := Split(h, p, n), p + h.size[p] - n;
    forall b, u | IsBlock(g, b) && Covers(g, b, u) ensures u in g.owner && g.owner[u] == b {
      if b == a { assert Covers(h, p, u); } else { assert IsBlock(h, b) && Covers(h, b, u); }
    }
    forall u | u in g.owner ensures IsBlock(g, g.owner[u]) && Covers(g, g.owner[u], u) && g.base < u < g.brk {
      assert IsBlock(h, h.owner[u]) && Covers(h, h.owner[u], u);
    }
  }

  lemma GrowOk(h: Heap, start: nat, n: nat)
    requires HeapOk(h) && start >= h.brk && n > 0
    ensures HeapOk(Grow(h, start, n)) && start !in h.live && start !in h.ring
  {
    var g := Grow(h, start, n);
    NewAddress(h, start);
    forall i | 0 <= i < |g.ring| ensures Linked(g, i) { assert Linked(h, i); }
    forall i ensures !TouchAt(g, i) { assert !TouchAt(h, i); }
    forall b, u | IsBlock(g, b) && Covers(g, b, u) ensures u in g.owner && g.owner[u] == b {
      if b != start { assert IsBlock(h, b) && Covers(h, b, u); }
    }
    forall u | u in g.owner ensures IsBlock(g, g.owner[u]) && Covers(g, g.owner[u], u) && g.base < u < g.brk {
      if u in h.owner { assert IsBlock(h, h.owner[u]) && Covers(h, h.owner[u], u); }
    }
  }

  lemma GrowStep(h: Heap, start: nat, n: nat) returns (g: Heap)
    requires HeapOk(h) && start >= h.brk && n > 0
    ensures HeapOk(g) && g.base == h.base && g.brk == start + n && g.ptr == h.ptr && g.ring == h.ring
    ensures g.size == h.size[start := n] && g.live == h.live[start := n]
    ensures g.owner.Keys == h.owner.Keys + Units(start, n) && start !in h.live
  {
    GrowOk(h, start, n);
    g := Grow(h, start, n);
  }

  lemma NewAddress(h: Heap, start: nat)
    requires HeapOk(h) && start >= h.brk
    ensures start !in h.live && start !in h.ring
  {
    if start in h.live || start in h.ring {
      assert start != h.base;
      assert Covers(h, start, start);
    }
  }

  // ---------- free as a whole ----------

  /** Where live block `bp` belongs: between ring elements `j` and `j + 1`. */
  ghost predicate Place(h: Heap, j: nat, bp: nat) {
    j < |h.ring| && h.ring[j] < bp && (j + 1 < |h.ring| ==> bp < h.ring[j + 1])
  }

  /** Join ring element `i` with the next one if they touch. */
  lemma MergeStep(h: Heap, i: nat) returns (g: Heap)
    requires Chain(h) && TilesOk(h) && i < |h.ring|
    ensures Chain(g) && TilesOk(g) && g.base == h.base && g.brk == h.brk
    ensures g.live == h.live && g.owner.Keys == h.owner.Keys
    ensures i < |g.ring| && forall k :: 0 <= k <= i ==> g.ring[k] == h.ring[k]
    ensures !TouchAt(h, i) ==> g == h
    ensures TouchAt(h, i) ==>
              var a, b := h.ring[i], h.ring[i + 1];
              && b in h.ptr && b in h.size
              && g.size == h.size[a := h.size[a] + h.size[b]] && g.ptr == h.ptr[a := h.ptr[b]]
    ensures forall k: nat :: TouchAt(g, k) ==> TouchAt(h, if k < i || !TouchAt(h, i) then k else k + 1)
  {
    if TouchAt(h, i) {
      MergeOk(h, i);
      g := Merge(h, i);
    } else {
      g := h;
    }
  }

  lemma PlaceFacts(h: Heap, j: nat, bp: nat)
    requires HeapOk(h) && bp in h.live && Place(h, j, bp)
    ensures h.ring[j] in h.ptr && h.ptr[h.ring[j]] == Next(h.ring, j) && h.ring[j] in h.size
    ensures Next(h.ring, j) in h.ptr && Next(h.ring, j) in h.size
    ensures bp in h.size && h.base < bp && h.ring[0] == h.base && (j == 0 ==> h.size[h.ring[j]] == 0)
    ensures h.size[bp] == h.live[bp] > 0 && bp !in h.ring
  {
    assert Linked(h, j) && Linked(h, if j + 1 < |h.ring| then j + 1 else 0);
    assert Covers(h, bp, bp);
  }

  // The header fields after free()'s two if-statements.

  function SizeUp(size: map<nat, nat>, bp: nat, next: nat): map<nat, nat>
    requires bp in size && next in size
  {
    if bp + size[bp] == next then size[bp := size[bp] + size[next]] else size
  }

  function PtrUp(ptr: map<nat, nat>, size: map<nat, nat>, bp: nat, next: nat): map<nat, nat>
    requires bp in size && next in ptr
  {
    if bp + size[bp] == next then ptr[bp := ptr[next]] else ptr[bp := next]
  }

  function SizeDown(size: map<nat, nat>, p: nat, bp: nat): map<nat, nat>
    requires p in size && bp in size
  {
    if p + size[p] == bp then size[p := size[p] + size[bp]] else size
  }

  function PtrDown(ptr: map<nat, nat>, size: map<nat, nat>, p: nat, bp: nat): map<nat, nat>
    requires p in size && bp in ptr
  {
    if p + size[p] == bp then ptr[p := ptr[bp]] else ptr[p := bp]
  }

  lemma UpFields(h: Heap, h1: Heap, h2: Heap, p: nat, bp: nat, next: nat)
    requires p in h.size && bp in h.size && next in h.size && next in h.ptr && p != bp && next != bp && h.size[bp] > 0
    requires h1.size == h.size && h1.ptr == h.ptr[bp := next][p := bp]
    requires bp + h.size[bp] != next ==> h2 == h1
    requires bp + h.size[bp] == next ==>
             next != p && next in h1.ptr && h2.size == h1.size[bp := h1.size[bp] + h1.size[next]]
                 && h2.ptr == h1.ptr[bp := h1.ptr[next]]
    ensures h2.size == SizeUp(h.size, bp, next) && h2.ptr == PtrUp(h.ptr, h.size, bp, next)[p := bp]
  {
  }

  lemma DownFields(h2: Heap, g: Heap, size: map<nat, nat>, ptr: map<nat, nat>, p: nat, bp: nat)
    requires p in size && bp in size && bp in ptr && p != bp
    requires h2.size == size && h2.ptr == ptr[p := bp]
    requires p + size[p] != bp ==> g == h2
    requires p + size[p] == bp ==> g.size == h2.size[p := h2.size[p] + h2.size[bp]] && g.ptr == h2.ptr[p := h2.ptr[bp]]
    ensures g.size == SizeDown(size, p, bp) && g.ptr == PtrDown(ptr, size, p, bp)
  {
  }

  lemma InsertStep(h: Heap, j: nat, bp: nat) returns (g: Heap)
    requires HeapOk(h) && bp in h.live && Place(h, j, bp)
    ensures Chain(g) && TilesOk(g) && g.base == h.base && g.brk == h.brk
    ensures g.live == h.live - {bp} && g.owner == h.owner && g.size == h.size
    ensures g.ptr == h.ptr[bp := Next(h.ring, j)][h.ring[j] := bp]
    ensures j + 1 < |g.ring| && g.ring[j] == h.ring[j] && g.ring[j + 1] == bp && bp in h.size && bp != h.ring[j]
            && bp != Next(h.ring, j)
    ensures forall i: nat :: TouchAt(g, i) ==> i == j || i == j + 1
    ensures TouchAt(g, j + 1) <==> bp + h.size[bp] == Next(h.ring, j)
    ensures TouchAt(g, j + 1) ==> j + 2 < |g.ring| && g.ring[j + 2] == Next(h.ring, j) != h.ring[j]
  {
    InsertOk(h, j, bp);
    PlaceFacts(h, j, bp);
    g := Insert(h, j, bp);
  }

  /** The first half of free(): put `bp` in its place and join it with its upper neighbour. */
  lemma InsertAndJoinUp(h: Heap, j: nat, bp: nat) returns (g: Heap)
    requires HeapOk(h) && bp in h.live && Place(h, j, bp)
    ensures Chain(g) && TilesOk(g) && g.live == h.live - {bp} && g.owner.Keys == h.owner.Keys
    ensures g.base == h.base && g.brk == h.brk
    ensures j + 1 < |g.ring| && g.ring[j] == h.ring[j] && g.ring[j + 1] == bp
    ensures forall i: nat :: TouchAt(g, i) ==> i == j
    ensures var p, next := h.ring[j], Next(h.ring, j);
            && p in h.ptr && h.ptr[p] == next && p in h.size && bp in h.size && next in h.size && next in h.ptr
            && g.size == SizeUp(h.size, bp, next)
            && g.ptr == PtrUp(h.ptr, h.size, bp, next)[p := bp]
  {
    PlaceFacts(h, j, bp);
    var h1 := InsertStep(h, j, bp);
    g := MergeStep(h1, j + 1);
    UpFields(h, h1, g, h.ring[j], bp, Next(h.ring, j));
  }

  /** free(): put `bp` in its place, then join it with its upper and its lower neighbour if they touch. */
  lemma FreeStep(h: Heap, j: nat, bp: nat) returns (g: Heap)
    requires HeapOk(h) && bp in h.live && Place(h, j, bp)
    ensures HeapOk(g) && g.live == h.live - {bp} && g.owner.Keys == h.owner.Keys
    ensures g.base == h.base && g.brk == h.brk && h.ring[j] in g.ring
    ensures var p, next := h.ring[j], Next(h.ring, j);
            && p in h.ptr && h.ptr[p] == next && p in h.size && bp in h.size && next in h.size && next in h.ptr
            && g.size == SizeDown(SizeUp(h.size, bp, next), p, bp)
            && g.ptr == PtrDown(PtrUp(h.ptr, h.size, bp, next), SizeUp(h.size, bp, next), p, bp)
  {
    var p, next := h.ring[j], Next(h.ring, j);
    var h2 := InsertAndJoinUp(h, j, bp);
    LowerTouch(h2, j, p, bp);
    g := MergeStep(h2, j);
    assert g.ring[j] == p;
    DownFields(h2, g, SizeUp(h.size, bp, next), PtrUp(h.ptr, h.size, bp, next), p, bp);
    assert forall i: nat :: !TouchAt(g, i);
  }

  lemma LowerTouch(h: Heap, j: nat, p: nat, bp: nat)
    requires Chain(h) && j + 1 < |h.ring| && h.ring[j] == p && h.ring[j + 1] == bp
    ensures p in h.size && (TouchAt(h, j) <==> p + h.size[p] == bp)
  {
    assert h.ring[j] < h.ring[j + 1];
  }
}
