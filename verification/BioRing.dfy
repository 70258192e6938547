/**
 The doubly linked LRU ring of kernel/bio.c, as the order of buffers it stands for.
 */
module BioRing {
  import opened Common

  const NBUF: nat := 30
  const HEAD: nat := NBUF              // bcache.head

  type Block = seq<bv8>
  type Key = (nat, nat)                // device and block number

  /** struct buf */
  datatype Buf = Buf(valid: bool, dev: nat, blockno: nat, refcnt: nat, prev: nat, next: nat, data: Block)

  function KeyOf(b: Buf): Key {
    (b.dev, b.blockno)
  }

  /** The node at place `i` of the ring, which starts and ends at the head. */
  function At(ring: seq<nat>, i: nat): nat {
    if 0 < i <= |ring| then ring[i - 1] else HEAD
  }

  /** The links between places `i` and `i + 1`. */
  predicate LinkAt(s: seq<Buf>, ring: seq<nat>, i: nat) {
    At(ring, i) < |s| && At(ring, i + 1) < |s| && s[At(ring, i)].next == At(ring, i + 1)
        && s[At(ring, i + 1)].prev == At(ring, i)
  }

  /** The links lead through `ring`, from the head and back, in both directions. */
  ghost predicate RingOk(s: seq<Buf>, ring: seq<nat>) {
    && |s| == NBUF + 1 && Distinct(ring) && (forall i :: 0 <= i < |ring| ==> ring[i] < NBUF)
    && forall i: nat :: i <= |ring| ==> LinkAt(s, ring, i)
  }

  lemma AtDistinct(s: seq<Buf>, ring: seq<nat>, i: nat, j: nat)
    requires RingOk(s, ring) && i <= |ring| && j <= |ring| && i != j
    ensures At(ring, i) != At(ring, j)
  {
  }

  /** The first two stores of brelse's list surgery take `b` out of the ring. */
  function Unlinked(s: seq<Buf>, b: nat): seq<Buf>
    requires b < |s| && s[b].next < |s| && s[b].prev < |s|
  {
    var t := s[s[b].next := s[s[b].next].(prev := s[b].prev)];
    t[t[b].prev := t[t[b].prev].(next := t[b].next)]
  }

  function Without(ring: seq<nat>, j: nat): seq<nat>
    requires j < |ring|
  {
    ring[..j] + ring[j + 1..]
  }

  lemma AtWithout(ring: seq<nat>, j: nat, i: nat)
    requires j < |ring| && i <= |ring|
    ensures At(Without(ring, j), i) == if i <= j then At(ring, i) else At(ring, i + 1)
  {
  }

  lemma WithoutNoDup(ring: seq<nat>, j: nat)
    requires Distinct(ring) && (forall i :: 0 <= i < |ring| ==> ring[i] < NBUF) && j < |ring|
    ensures Distinct(Without(ring, j)) && (forall i :: 0 <= i < |Without(ring, j)| ==> Without(ring, j)[i] < NBUF)
    ensures forall k :: 0 <= k < |Without(ring, j)| ==> Without(ring, j)[k] != ring[j]
  {
  }

  /** Only links differ. */
  ghost predicate SameBufs(s: seq<Buf>, t: seq<Buf>) {
    |s| == |t| && forall k :: 0 <= k < |s| ==> t[k] == s[k].(prev := t[k].prev, next := t[k].next)
  }

  lemma UnlinkOk(s: seq<Buf>, ring: seq<nat>, j: nat)
    requires RingOk(s, ring) && j < |ring|
    ensures ring[j] < |s| && s[ring[j]].next < |s| && s[ring[j]].prev < |s|
    ensures RingOk(Unlinked(s, ring[j]), Without(ring, j)) && SameBufs(s, Unlinked(s, ring[j]))
  {
    assert LinkAt(s, ring, j) && LinkAt(s, ring, j + 1);
    WithoutNoDup(ring, j);
    forall i: nat | i <= |ring| - 1 ensures LinkAt(Unlinked(s, ring[j]), Without(ring, j), i) {
      LinkWithout(s, ring, j, i);
    }
  }

  lemma LinkWithout(s: seq<Buf>, ring: seq<nat>, j: nat, i: nat)
    requires RingOk(s, ring) && j < |ring| && i < |ring|
    requires ring[j] < |s| && s[ring[j]].next < |s| && s[ring[j]].prev < |s|
    ensures LinkAt(Unlinked(s, ring[j]), Without(ring, j), i)
  {
    AtWithout(ring, j, i);
    AtWithout(ring, j, i + 1);
    UnlinkAt(s, ring, j, i);
  }

  lemma UnlinkAt(s: seq<Buf>, ring: seq<nat>, j: nat, i: nat)
    requires RingOk(s, ring) && j < |ring| && i < |ring|
    requires ring[j] < |s| && s[ring[j]].next < |s| && s[ring[j]].prev < |s|
    ensures var t := Unlinked(s, ring[j]);
            var x, y := if i <= j then At(ring, i) else At(ring, i + 1), if i + 1 <= j then At(ring, i + 1)
                else At(ring, i + 2);
            x < |t| && y < |t| && t[x].next == y && t[y].prev == x
  {
    assert LinkAt(s, ring, j) && LinkAt(s, ring, j + 1) && LinkAt(s, ring, i) && LinkAt(s, ring, i + 1);
    if i != j { AtDistinct(s, ring, i, j); }
    if i + 1 != j { AtDistinct(s, ring, i + 1, j); }
    assert At(ring, |ring| + 1) == At(ring, 0);
    if i + 1 != j + 2 && i + 1 <= |ring| && j + 2 <= |ring| { AtDistinct(s, ring, i + 1, j + 2); }
  }

  /** The last four stores of brelse's list surgery, and the loop body of binit: `b` becomes the first. */
  function Fronted(s: seq<Buf>, b: nat): seq<Buf>
    requires b < |s| && HEAD < |s| && s[HEAD].next < |s|
  {
    var t := s[b := s[b].(next := s[HEAD].next, prev := HEAD)];
    var u := t[t[HEAD].next := t[t[HEAD].next].(prev := b)];
    u[HEAD := u[HEAD].(next := b)]
  }

  lemma FrontOk(s: seq<Buf>, ring: seq<nat>, b: nat)
    requires RingOk(s, ring) && b < NBUF && b !in ring
    ensures s[HEAD].next < |s| && RingOk(Fronted(s, b), [b] + ring) && SameBufs(s, Fronted(s, b))
  {
    assert LinkAt(s, ring, 0);
    forall i: nat | i <= |ring| + 1 ensures LinkAt(Fronted(s, b), [b] + ring, i) {
      LinkFront(s, ring, b, i);
    }
  }

  lemma LinkFront(s: seq<Buf>, ring: seq<nat>, b: nat, i: nat)
    requires RingOk(s, ring) && b < NBUF && b !in ring && s[HEAD].next < |s| && i <= |ring| + 1
    ensures LinkAt(Fronted(s, b), [b] + ring, i)
  {
    assert LinkAt(s, ring, 0);
    var r := [b] + ring;
    assert At(r, 0) == HEAD && At(r, 1) == b;
    if i >= 1 {
      assert At(r, i + 1) == At(ring, i);
      if i >= 2 {
        assert At(r, i) == At(ring, i - 1) && LinkAt(s, ring, i - 1);
        if i <= |ring| { AtDistinct(s, ring, 0, i); AtDistinct(s, ring, 1, i); }
      }
    }
  }
}
