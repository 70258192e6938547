/**
 Requests and completions of kernel/virtio_disk.c over a split virtqueue (sections 2.6
 and 5.2 of VIRTIO 1.1), against a device that completes requests in any order.
 */
module Virtio {

  import opened Common
  import opened Gates

  const NUM: nat := 8
  const U16: nat := 65536

  /** struct virtq_desc: the next link, if VRING_DESC_F_NEXT is set. */
  datatype Desc = Desc(hasNext: bool, next: nat)

  const NODESC: Desc := Desc(false, 0)

  /** How far a request has come: in the avail ring, taken by the device, in the used ring, or handled. */
  datatype Phase = Queued | AtDevice | Done | Handled

  /** A request in flight, under the number of its first descriptor; `ok` is the status the device wrote. */
  datatype Req = Req(d1: nat, d2: nat, buf: nat, phase: Phase, ok: bool)

  const FREE: int := -1
  const HELD: int := -2            // allocated, not yet submitted

  /**
   What the driver and the device share, with unbounded counts of entries added to and
   taken from each ring, and the heads that were put there.
   */
  datatype Q = Q(fl: map<nat, Req>, owner: seq<int>, heads: seq<nat>, taken: nat, used: seq<nat>, seen: nat)

  predicate ChainOk(q: Q, h: nat)
    requires h in q.fl && |q.owner| == NUM
  {
    var r := q.fl[h];
    h < NUM && r.d1 < NUM && r.d2 < NUM && q.owner[h] == h && q.owner[r.d1] == h && q.owner[r.d2] == h && h != r.d1
        && h != r.d2 && r.d1 != r.d2
  }

  predicate OwnerOk(q: Q, i: nat)
    requires i < NUM && |q.owner| == NUM
  {
    var h := q.owner[i];
    h >= 0 ==> h in q.fl && (i == h || i == q.fl[h].d1 || i == q.fl[h].d2)
  }

  /** An entry in a ring that has not been taken stands for a request of the right phase. */
  predicate EntryOk(q: Q, s: seq<nat>, k: nat, phase: Phase)
    requires k < |s|
  {
    s[k] in q.fl && q.fl[s[k]].phase == phase
  }

  ghost predicate QOk(q: Q) {
    && |q.owner| == NUM && q.taken <= |q.heads| && q.seen <= |q.used|
    && (forall h :: h in q.fl ==> ChainOk(q, h))
    && (forall i: nat :: i < NUM ==> OwnerOk(q, i))
    && (forall k: nat :: q.taken <= k < |q.heads| ==> EntryOk(q, q.heads, k, Queued))
    && (forall k: nat :: q.seen <= k < |q.used| ==> EntryOk(q, q.used, k, Done))
    && (forall j: nat, k: nat :: q.taken <= j < k < |q.heads| ==> q.heads[j] != q.heads[k])
    && (forall j: nat, k: nat :: q.seen <= j < k < |q.used| ==> q.used[j] != q.used[k])
    && (forall h, g :: h in q.fl && g in q.fl && h != g ==> q.fl[h].buf != q.fl[g].buf)
  }

  /** QOk, unfolded only by OpenQ. */
  ghost predicate QIs(q: Q) {
    forall z: nat {:trigger Gate(z)} :: Gate(z) ==> QOk(q)
  }

  lemma OpenQ(q: Q)
    requires QIs(q)
    ensures QOk(q)
  {
    assert Gate(0);
  }

  function Indices(): (s: set<nat>)
    ensures |s| == NUM
  {
    {0, 1, 2, 3, 4, 5, 6, 7}
  }

  function Triple(q: Q, h: nat): set<nat>
    requires h in q.fl
  {
    {h, q.fl[h].d1, q.fl[h].d2}
  }

  lemma TripleSize(q: Q, h: nat)
    requires QOk(q) && h in q.fl
    ensures |Triple(q, h)| == 3 && Triple(q, h) <= Indices() && forall i :: i in Triple(q, h) ==>
            i < NUM && q.owner[i] == h
  {
    assert ChainOk(q, h);
    assert |{h, q.fl[h].d1}| == 2;
    assert Triple(q, h) == {h, q.fl[h].d1} + {q.fl[h].d2};
  }

  /** Three disjoint triples do not fit into eight descriptors. */
  lemma NoThird(a: set<nat>, b: set<nat>, c: set<nat>)
    requires |a| == 3 && |b| == 3 && |c| == 3 && a !! b && a <= Indices() && b <= Indices() && c <= Indices()
    ensures exists i :: i in c && (i in a || i in b)
  {
    assert |a + b| == 6;
    if (a + b) !! c {
      assert |(a + b) + c| == 9;
      SubsetSize(a + b + c, Indices());
    }
  }

  /** At most two requests are in flight: three would need nine descriptors. */
  lemma AtMostTwo(q: Q, a: nat, b: nat, c: nat)
    requires QOk(q) && a in q.fl && b in q.fl && c in q.fl && a != b
    ensures c == a || c == b
  {
    TripleSize(q, a);
    TripleSize(q, b);
    TripleSize(q, c);
    NoThird(Triple(q, a), Triple(q, b), Triple(q, c));
  }

  /** So neither ring ever holds more than two entries that have not been taken. */
  lemma FewEntries(q: Q)
    requires QIs(q)
    ensures |q.heads| - q.taken <= 2 && |q.used| - q.seen <= 2
  {
    OpenQ(q);
    if |q.heads| - q.taken > 2 {
      assert EntryOk(q, q.heads, q.taken, Queued) && EntryOk(q, q.heads, q.taken + 1, Queued)
          && EntryOk(q, q.heads, q.taken + 2, Queued);
      AtMostTwo(q, q.heads[q.taken], q.heads[q.taken + 1], q.heads[q.taken + 2]);
      assert false;
    }
    if |q.used| - q.seen > 2 {
      assert EntryOk(q, q.used, q.seen, Done) && EntryOk(q, q.used, q.seen + 1, Done)
          && EntryOk(q, q.used, q.seen + 2, Done);
      AtMostTwo(q, q.used[q.seen], q.used[q.seen + 1], q.used[q.seen + 2]);
      assert false;
    }
  }

  /** Links of a request's chain, and nothing more. */
  predicate LinksOk(q: Q, desc: seq<Desc>, h: nat)
    requires h in q.fl
  {
    var r := q.fl[h];
    && h < |desc| && r.d1 < |desc| && r.d2 < |desc|
    && desc[h] == Desc(true, r.d1) && desc[r.d1] == Desc(true, r.d2) && !desc[r.d2].hasNext
  }

  /** A ring and its two 16-bit indices stand for the unbounded sequence of entries, of which `lo` are taken. */
  ghost predicate RingOk(entries: seq<nat>, lo: nat, ring: seq<nat>, tail: nat, head: nat) {
    && |ring| == NUM && lo <= |entries| && tail == |entries| % U16 && head == lo % U16
    && forall k: nat :: lo <= k < |entries| ==> ring[k % NUM] == entries[k]
  }

  ghost predicate TablesOk(q: Q, free: seq<bool>, desc: seq<Desc>, info: seq<nat>, busy: set<nat>) {
    && |free| == NUM == |desc| && |info| == NUM == |q.owner|
    && (forall i: nat :: i < NUM ==> (free[i] <==> q.owner[i] == FREE))
    && (forall h :: h in q.fl ==> h < NUM && LinksOk(q, desc, h) && info[h] == q.fl[h].buf)
    && BusyOk(q, busy)
  }

  /** b->disk is set exactly while a request for the buffer is not handled. */
  ghost predicate BusyOk(q: Q, busy: set<nat>) {
    && (forall h :: h in q.fl ==> (q.fl[h].phase != Handled <==> q.fl[h].buf in busy))
    && (forall b :: b in busy ==> exists h :: h in q.fl && q.fl[h].buf == b && q.fl[h].phase != Handled)
  }

  // ---------- the steps of driver and device on requests ----------

  /**
   A request is entered in the avail ring, taken, completed with a status, handled without error,
   and its chain freed.
   */
  datatype Step =
    | Owners | Issue(a: nat, d1: nat, d2: nat, b: nat) | Take(h: nat) | Complete(h: nat, ok: bool) | Handle(h: nat)
        | Drop(h: nat)

  ghost predicate QStep(q: Q, r: Q, step: Step) {
    match step
    case Owners => r == q.(owner := r.owner)
    case Issue(a, d1, d2, b) => a !in q.fl && a < |q.owner| && d1 < |q.owner| && d2 < |q.owner|
        && r == Submitted(q, a, d1, d2, b)
    case Take(h) => q.taken < |q.heads| && h == q.heads[q.taken] && h in q.fl && q.fl[h].phase == Queued
        && r == Taken(q)
    case Complete(h, ok) => h in q.fl && q.fl[h].phase == AtDevice && r == Completed(q, h, ok)
    case Handle(h) => q.seen < |q.used| && h == q.used[q.seen] && h in q.fl && q.fl[h].phase == Done && q.fl[h].ok
        && r == HandledNext(q)
    case Drop(h) =>
      && h in q.fl && q.fl[h].phase == Handled && h < |q.owner| && q.fl[h].d1 < |q.owner| && q.fl[h].d2 < |q.owner|
      && r == Dropped(q, h, FREE)
  }

  /** The status bytes are those of the requests. */
  ghost predicate StatusOk(q: Q, infoOk: seq<bool>) {
    forall h :: h in q.fl ==> h < |infoOk| && infoOk[h] == q.fl[h].ok
  }

  class Disk {
    const free: array<bool>
    const desc: array<Desc>
    const availRing: array<nat>
    const usedRing: array<nat>
    const infoBuf: array<nat>            // info[].b
    const infoOk: array<bool>            // info[].status == 0
    var availIdx: nat                    // disk.avail->idx
    var deviceIdx: nat                   // how far the device has read the avail ring
    var usedIdx: nat                     // disk.used->idx
    var seenIdx: nat                     // disk.used_idx
    var busy: set<nat>                   // the buffers with b->disk == 1
    ghost var q: Q

    ghost predicate Sizes()
      reads this
    {
      && free.Length == NUM == desc.Length && availRing.Length == NUM == usedRing.Length
          && infoBuf.Length == NUM == infoOk.Length
      && free != infoOk && availRing != usedRing && availRing != infoBuf && usedRing != infoBuf
    }

    ghost predicate Valid()
      reads this, free, desc, availRing, usedRing, infoBuf, infoOk
    {
      && Sizes() && QIs(q) && TablesOk(q, free[..], desc[..], infoBuf[..], busy) && StatusOk(q, infoOk[..])
      && RingOk(q.heads, q.taken, availRing[..], availIdx, deviceIdx)
          && RingOk(q.used, q.seen, usedRing[..], usedIdx, seenIdx)
    }

    /** After virtio_disk_init: every descriptor free, nothing in flight. */
    constructor ()
      ensures Valid() && q == Q(map[], seq(NUM, _ => FREE), [], 0, [], 0) && busy == {}
    {
      free := new bool[NUM](_ => true);
      desc := new Desc[NUM](_ => NODESC);
      availRing := new nat[NUM](_ => 0);
      usedRing := new nat[NUM](_ => 0);
      infoBuf := new nat[NUM](_ => 0);
      infoOk := new bool[NUM](_ => true);
      availIdx, deviceIdx, usedIdx, seenIdx, busy := 0, 0, 0, 0, {};
      q := Q(map[], seq(NUM, _ => FREE), [], 0, [], 0);
    }

    /** alloc_desc: the lowest free descriptor, now held; -1 when there is none. */
    method AllocDesc() returns (i: int)
      requires Valid()
      modifies this`q, free
      ensures Valid() && q == old(q).(owner := q.owner)
      ensures i == -1 <==> forall j: nat :: j < NUM ==> old(q).owner[j] != FREE
      ensures i == -1 ==> q == old(q)
      ensures i != -1 ==> 0 <= i < NUM && old(q).owner[i] == FREE && q.owner == old(q).owner[i := HELD]
    {
      i := 0;
      while i < NUM
        invariant 0 <= i <= NUM && forall j: nat :: j < i ==> !free[j]
      {
        if free[i] {
          OwnerOnly(q, i, HELD);
          free[i] := false;
          q := q.(owner := q.owner[i := HELD]);
          return;
        }
        i := i + 1;
      }
      i := -1;
    }

    /** free_desc of a held descriptor: no panic. */
    method FreeDesc(i: nat) returns (panicked: bool)
      requires Valid() && i < NUM && q.owner[i] == HELD
      modifies this`q, free, desc
      ensures !panicked && Valid() && q == old(q).(owner := old(q).owner[i := FREE])
              && desc[..] == old(desc[..])[i := NODESC]
    {
      if i >= NUM || free[i] {
        return true;
      }
      OwnerOnly(q, i, FREE);
      desc[i] := NODESC;
      free[i] := true;
      q := q.(owner := q.owner[i := FREE]);
      panicked := false;
    }

    /** alloc3_desc: three descriptors or none; it fails only when fewer than three are free. */
    method Alloc3Desc() returns (ok: bool, idx: seq<nat>)
      requires Valid()
      modifies this`q, free, desc
      ensures Valid()
      ensures ok ==>
                |idx| == 3 && Distinct(idx) && q == old(q).(owner := q.owner) && HeldNow(old(q).owner, q.owner, idx)
      ensures !ok ==> q == old(q) && FewFree(old(q).owner)
    {
      idx := [];
      while |idx| < 3
        invariant |idx| <= 3 && Valid() && Distinct(idx) && q == old(q).(owner := q.owner)
                  && HeldNow(old(q).owner, q.owner, idx)
        decreases 3 - |idx|
      {
        var i := AllocDesc();
        if i < 0 {
          NotThree(old(q).owner, q.owner, idx);
          GiveBack(idx, old(q));
          return false, [];
        }
        idx := idx + [i];
      }
      ok := true;
    }

    /** alloc3_desc's error path. */
    method GiveBack(idx: seq<nat>, ghost q0: Q)
      requires Valid() && Distinct(idx) && q == q0.(owner := q.owner) && |q0.owner| == NUM
               && HeldNow(q0.owner, q.owner, idx)
      modifies this`q, free, desc
      ensures Valid() && q == q0
    {
      var j := 0;
      while j < |idx|
        invariant 0 <= j <= |idx| && Valid() && q == q0.(owner := q.owner) && HeldNow(q0.owner, q.owner, idx[j..])
      {
        assert idx[j..][0] == idx[j] && idx[j..][1..] == idx[j + 1..];
        var panicked := FreeDesc(idx[j]);
        j := j + 1;
      }
      assert q.owner == q0.owner;
    }

    /**
     The rest of virtio_disk_rw up to the wait: the chain is linked and its head entered
     in the avail ring.  No entry that the device has not taken is overwritten.
     */
    method Submit(idx: seq<nat>, b: nat)
      requires Valid() && |idx| == 3 && Distinct(idx)
               && (forall j :: 0 <= j < 3 ==> idx[j] < NUM && q.owner[idx[j]] == HELD)
      requires forall h :: h in q.fl ==> q.fl[h].buf != b            // the caller holds the buffer's lock
      modifies this`q, this`busy, this`availIdx, desc, infoBuf, infoOk, availRing
      ensures Valid() && busy == old(busy) + {b}
      ensures QStep(old(q), q, Issue(idx[0], idx[1], idx[2], b))
    {
      SubmitOk(q, idx[0], idx[1], idx[2], b);
      FewEntries(q);
      SubmitTables(q, free[..], desc[..], infoBuf[..], busy, idx[0], idx[1], idx[2], b);
      AddEntry(q.heads, q.taken, availRing[..], availIdx, deviceIdx, idx[0]);
      Format(idx, b);
      busy := busy + {b};
      Enter(idx[0]);
      q := Submitted(q, idx[0], idx[1], idx[2], b);
    }

    /** The entry in the avail ring. */
    method Enter(h: nat)
      requires Sizes()
      modifies this`availIdx, availRing
      ensures availRing[..] == old(availRing[..])[old(availIdx) % NUM := h] && availIdx == (old(availIdx) + 1) % U16
    {
      availRing[availIdx % NUM] := h;
      availIdx := (availIdx + 1) % U16;
    }

    /** The three descriptors and the request's record. */
    method Format(idx: seq<nat>, b: nat)
      requires Sizes() && |idx| == 3 && forall j :: 0 <= j < 3 ==> idx[j] < NUM
      modifies desc, infoBuf, infoOk
      ensures desc[..]
              == old(desc[..])[idx[0] := Desc(true, idx[1])][idx[1] := Desc(true, idx[2])][idx[2] := Desc(false, 0)]
      ensures infoBuf[..] == old(infoBuf[..])[idx[0] := b] && infoOk[..] == old(infoOk[..])[idx[0] := false]
    {
      desc[idx[0]] := Desc(true, idx[1]);
      desc[idx[1]] := Desc(true, idx[2]);
      infoOk[idx[0]] := false;
      desc[idx[2]] := Desc(false, 0);
      infoBuf[idx[0]] := b;
    }

    /** The device takes the next entry of the avail ring: the oldest request not yet taken. */
    method DeviceTake() returns (h: nat)
      requires Valid() && availIdx != deviceIdx
      modifies this`q, this`deviceIdx
      ensures Valid() && QStep(old(q), q, Take(h))
    {
      FewEntries(q);
      NextEntry(q.heads, q.taken, availRing[..], availIdx, deviceIdx);
      h := availRing[deviceIdx % NUM];
      TakenOk(q);
      SameTables(q, Taken(q), free[..], desc[..], infoBuf[..], busy);
      deviceIdx := (deviceIdx + 1) % U16;
      q := Taken(q);
    }

    /** The device finishes any request it has taken; no completion that was not handled is overwritten. */
    method DeviceComplete(h: nat, ok: bool)
      requires Valid() && h in q.fl && q.fl[h].phase == AtDevice
      modifies this`q, this`usedIdx, usedRing, infoOk
      ensures Valid() && infoOk[..] == old(infoOk[..])[h := ok] && QStep(old(q), q, Complete(h, ok))
    {
      FewEntries(q);
      CompletedAll(q, h, ok, free[..], desc[..], infoBuf[..], busy, infoOk[..]);
      AddEntry(q.used, q.seen, usedRing[..], usedIdx, seenIdx, h);
      infoOk[h] := ok;
      usedRing[usedIdx % NUM] := h;
      usedIdx := (usedIdx + 1) % U16;
      q := Completed(q, h, ok);
    }

    /** One round of virtio_disk_intr: the oldest completion not yet handled; its buffer is released. */
    method IntrStep() returns (panicked: bool)
      requires Valid() && seenIdx != usedIdx
      modifies this`q, this`seenIdx, this`busy
      ensures Valid() && old(q).seen < |old(q).used| && old(q).used[old(q).seen] in old(q).fl
      ensures panicked <==> !old(q).fl[old(q).used[old(q).seen]].ok
      ensures panicked ==> q == old(q) && busy == old(busy)
      ensures !panicked ==>
                && QStep(old(q), q, Handle(old(q).used[old(q).seen]))
                && busy == old(busy) - {old(q).fl[old(q).used[old(q).seen]].buf}
    {
      FewEntries(q);
      NextEntry(q.used, q.seen, usedRing[..], usedIdx, seenIdx);
      HandledOk(q);
      var id := usedRing[seenIdx % NUM];
      if !infoOk[id] {
        return true;
      }
      HandledTables(q, free[..], desc[..], infoBuf[..], busy);
      var b := infoBuf[id];
      busy := busy - {b};
      seenIdx := (seenIdx + 1) % U16;
      q := HandledNext(q);
      panicked := false;
    }

    /**
     virtio_disk_intr: every completion is handled, oldest first and each once, and exactly
     the buffers of those requests are released, unless the device reported an error.
     */
    method Intr() returns (panicked: bool, ghost path: seq<Q>)
      requires Valid()
      modifies this`q, this`seenIdx, this`busy
      ensures Valid() && q.used == old(q).used && old(q).seen <= q.seen
      ensures !panicked ==> q.seen == |q.used|
      ensures panicked ==> q.seen < |q.used| && q.used[q.seen] in q.fl && !q.fl[q.used[q.seen]].ok
      ensures HandledRun(old(q), q, path) && busy == old(busy) - BufsOf(old(q), old(q).seen, q.seen)
    {
      ghost var q0, busy0 := q, busy;
      path := HandlingStart(q0, busy0);
      while seenIdx != usedIdx
        invariant Valid() && Handling(q0, busy0, q, busy, path)
        decreases |q.used| - q.seen
      {
        ghost var q1, busy1 := q, busy;
        panicked := IntrStep();
        if panicked {
          HandlingIs(q0, busy0, q, busy, path);
          return;
        }
        path := HandlingNext(q0, busy0, q1, busy1, q, busy, path);
      }
      FewEntries(q);
      NextEntry(q.used, q.seen, usedRing[..], usedIdx, seenIdx);
      HandlingIs(q0, busy0, q, busy, path);
      panicked := false;
    }

    /**
     The end of virtio_disk_rw, once b->disk is clear: its own request has been completed
     and handled, and exactly its three descriptors are free again.
     */
    method Finish(h: nat, b: nat) returns (panicked: bool)
      requires Valid() && h in q.fl && q.fl[h].buf == b && b !in busy
      modifies this`q, free, desc, infoBuf
      ensures !panicked && Valid() && QStep(old(q), q, Drop(h))
    {
      ghost var q0 := q;
      DroppedOk(q, h);
      DroppedTables(q, free[..], desc[..], infoBuf[..], busy, h);
      ghost var r := q.fl[h];
      infoBuf[h] := 0;
      q := Dropped(q, h, HELD);
      panicked := FreeChain(h, r);
      assert q == Dropped(q0, h, FREE);
    }

    /** free_chain: the three descriptors of the chain, and no panic. */
    method FreeChain(h: nat, ghost r: Req) returns (panicked: bool)
      requires Valid() && h < NUM && r.d1 < NUM && r.d2 < NUM && h != r.d1 && h != r.d2 && r.d1 != r.d2
      requires q.owner[h] == HELD && q.owner[r.d1] == HELD && q.owner[r.d2] == HELD
      requires desc[h] == Desc(true, r.d1) && desc[r.d1] == Desc(true, r.d2) && !desc[r.d2].hasNext
      modifies this`q, free, desc
      ensures !panicked && Valid() && q == old(q).(owner := old(q).owner[h := FREE][r.d1 := FREE][r.d2 := FREE])
    {
      var i := h;
      ghost var done: nat := 0;
      panicked := false;
      while true
        invariant done < 3 && i == [h, r.d1, r.d2][done] && !panicked && Valid()
        invariant q == old(q).(owner := if done == 0 then old(q).owner else if done == 1 then old(q).owner[h := FREE]
                  else old(q).owner[h := FREE][r.d1 := FREE])
        invariant done < 1 ==> desc[h] == Desc(true, r.d1)
        invariant done < 2 ==> desc[r.d1] == Desc(true, r.d2)
        invariant !desc[r.d2].hasNext
        decreases 3 - done
      {
        var flag, nxt := desc[i].hasNext, desc[i].next;
        panicked := FreeDesc(i);
        if !flag {
          break;
        }
        i := nxt;
        done := done + 1;
      }
    }
  }

  /** Changing the owner of a descriptor that is in no chain. */
  lemma OwnerOnly(q: Q, i: nat, o: int)
    requires QIs(q) && |q.owner| == NUM && i < NUM && q.owner[i] < 0 && o < 0
    ensures QIs(q.(owner := q.owner[i := o]))
    ensures forall h :: h in q.fl ==> h != i && q.fl[h].d1 != i && q.fl[h].d2 != i
  {
    OpenQ(q);
    var r := q.(owner := q.owner[i := o]);
    forall h | h in q.fl ensures ChainOk(r, h) && h != i && q.fl[h].d1 != i && q.fl[h].d2 != i { assert ChainOk(q, h); }
    forall j: nat | j < NUM ensures OwnerOk(r, j) { assert OwnerOk(q, j); }
    forall k: nat | q.taken <= k < |q.heads|
        ensures EntryOk(r, r.heads, k, Queued) { assert EntryOk(q, q.heads, k, Queued); }
    forall k: nat | q.seen <= k < |q.used| ensures EntryOk(r, r.used, k, Done) { assert EntryOk(q, q.used, k, Done); }
  }

  /** The listed descriptors were free and are held; the others are as they were. */
  ghost predicate HeldNow(owner0: seq<int>, owner: seq<int>, idx: seq<nat>) {
    && |owner0| == NUM && |owner| == NUM
    && (forall j :: 0 <= j < |idx| ==> idx[j] < NUM && owner0[idx[j]] == FREE)
    && (forall i: nat :: i < NUM ==> owner[i] == if i in idx then HELD else owner0[i])
  }

  ghost predicate FewFree(owner: seq<int>) {
    forall i: nat, j: nat, k: nat :: i < j < k < |owner| && owner[i] == FREE && owner[j] == FREE ==> owner[k] != FREE
  }

  lemma NotThree(owner0: seq<int>, owner: seq<int>, idx: seq<nat>)
    requires HeldNow(owner0, owner, idx) && |idx| < 3 && forall i: nat :: i < NUM ==> owner[i] != FREE
    ensures FewFree(owner0)
  {
    forall i: nat | i < NUM && owner0[i] == FREE ensures i in idx {}
  }

  function Submitted(q: Q, a: nat, d1: nat, d2: nat, b: nat): Q
    requires a < |q.owner| && d1 < |q.owner| && d2 < |q.owner|
  {
    q.(fl := q.fl[a := Req(d1, d2, b, Queued, false)], owner := q.owner[a := a][d1 := a][d2 := a], heads :=
        q.heads + [a])
  }

  lemma SubmitOk(q: Q, a: nat, d1: nat, d2: nat, b: nat)
    requires QIs(q) && |q.owner| == NUM && a < NUM && d1 < NUM && d2 < NUM && a != d1 && a != d2 && d1 != d2
    requires q.owner[a] == HELD && q.owner[d1] == HELD && q.owner[d2] == HELD
    requires forall h :: h in q.fl ==> q.fl[h].buf != b
    ensures QIs(Submitted(q, a, d1, d2, b)) && a !in q.fl
  {
    OpenQ(q);
    var r := Submitted(q, a, d1, d2, b);
    assert a in q.fl ==> ChainOk(q, a);
    SubmitChains(q, a, d1, d2, b);
    SubmitRings(q, a, d1, d2, b);
    assert QOk(r);
  }

  lemma SubmitRings(q: Q, a: nat, d1: nat, d2: nat, b: nat)
    requires QOk(q) && a < NUM && d1 < NUM && d2 < NUM && a !in q.fl
    ensures forall k: nat :: q.taken <= k < |q.heads| + 1 ==>
            EntryOk(Submitted(q, a, d1, d2, b), q.heads + [a], k, Queued)
    ensures forall k: nat :: q.seen <= k < |q.used| ==> EntryOk(Submitted(q, a, d1, d2, b), q.used, k, Done)
    ensures forall j: nat, k: nat :: q.taken <= j < k < |q.heads| + 1 ==> (q.heads + [a])[j] != (q.heads + [a])[k]
  {
    var r := Submitted(q, a, d1, d2, b);
    forall k: nat | q.taken <= k < |r.heads|
        ensures EntryOk(r, r.heads, k, Queued) && (k < |q.heads| ==> r.heads[k] != a) {
      if k < |q.heads| { assert EntryOk(q, q.heads, k, Queued); }
    }
    forall k: nat | q.seen <= k < |q.used| ensures EntryOk(r, r.used, k, Done) { assert EntryOk(q, q.used, k, Done); }
  }

  lemma SubmitChains(q: Q, a: nat, d1: nat, d2: nat, b: nat)
    requires QOk(q) && a < NUM && d1 < NUM && d2 < NUM && a != d1 && a != d2 && d1 != d2
    requires q.owner[a] == HELD && q.owner[d1] == HELD && q.owner[d2] == HELD && a !in q.fl
    ensures forall h :: h in Submitted(q, a, d1, d2, b).fl ==> ChainOk(Submitted(q, a, d1, d2, b), h)
    ensures forall i: nat :: i < NUM ==> OwnerOk(Submitted(q, a, d1, d2, b), i)
  {
    var r := Submitted(q, a, d1, d2, b);
    forall h | h in r.fl ensures ChainOk(r, h) {
      if h != a { KeptChain(q, r, h, a, d1, d2); }
    }
    forall j: nat | j < NUM ensures OwnerOk(r, j) { KeptOwner(q, r, j, a, d1, d2); }
  }

  lemma KeptChain(q: Q, r: Q, h: nat, a: nat, d1: nat, d2: nat)
    requires |q.owner| == NUM == |r.owner| && h in q.fl && ChainOk(q, h) && h in r.fl && r.fl[h] == q.fl[h]
    requires a < NUM && d1 < NUM && d2 < NUM && q.owner[a] == HELD && q.owner[d1] == HELD && q.owner[d2] == HELD
    requires r.owner == q.owner[a := a][d1 := a][d2 := a]
    ensures ChainOk(r, h)
  {
  }

  lemma KeptOwner(q: Q, r: Q, j: nat, a: nat, d1: nat, d2: nat)
    requires |q.owner| == NUM == |r.owner| && j < NUM && OwnerOk(q, j)
    requires a < NUM && d1 < NUM && d2 < NUM && r.owner == q.owner[a := a][d1 := a][d2 := a]
    requires a !in q.fl && a in r.fl && r.fl[a].d1 == d1 && r.fl[a].d2 == d2 && r.fl == q.fl[a := r.fl[a]]
    ensures OwnerOk(r, j)
  {
  }

  lemma ChainAt(q: Q, h: nat)
    requires QIs(q) && h in q.fl && |q.owner| == NUM
    ensures ChainOk(q, h)
  {
    OpenQ(q);
  }

  lemma SubmitTables(q: Q, free: seq<bool>, desc: seq<Desc>, info: seq<nat>, busy: set<nat>, a: nat, d1: nat, d2: nat,
      b: nat)
    requires QIs(q) && TablesOk(q, free, desc, info, busy) && a < NUM && d1 < NUM && d2 < NUM && a != d1 && a != d2
             && d1 != d2
    requires q.owner[a] == HELD && q.owner[d1] == HELD && q.owner[d2] == HELD && a !in q.fl
             && (forall h :: h in q.fl ==> q.fl[h].buf != b)
    ensures TablesOk(Submitted(q, a, d1, d2, b), free,
            desc[a := Desc(true, d1)][d1 := Desc(true, d2)][d2 := Desc(false, 0)], info[a := b], busy + {b})
  {
    var r, e := Submitted(q, a, d1, d2, b), desc[a := Desc(true, d1)][d1 := Desc(true, d2)][d2 := Desc(false, 0)];
    forall h | h in r.fl ensures h < NUM && LinksOk(r, e, h) && info[a := b][h] == r.fl[h].buf {
      if h != a {
        ChainAt(q, h);
        assert LinksOk(q, desc, h);
      }
    }
    SubmitBusy(q, r, busy, a, d1, d2, b);
  }

  lemma SubmitBusy(q: Q, r: Q, busy: set<nat>, a: nat, d1: nat, d2: nat, b: nat)
    requires BusyOk(q, busy) && (forall h :: h in q.fl ==> q.fl[h].buf != b) && a !in q.fl
             && r.fl == q.fl[a := Req(d1, d2, b, Queued, false)]
    ensures BusyOk(r, busy + {b})
  {
    forall c | c in busy + {b} ensures exists h :: h in r.fl && r.fl[h].buf == c && r.fl[h].phase != Handled {
      if c == b {
        assert r.fl[a].buf == b;
      } else {
        var h :| h in q.fl && q.fl[h].buf == c && q.fl[h].phase != Handled;
        assert r.fl[h].buf == c;
      }
    }
  }

  /** Entering one more entry overwrites none that is not taken. */
  lemma AddEntry(entries: seq<nat>, lo: nat, ring: seq<nat>, tail: nat, head: nat, x: nat)
    requires RingOk(entries, lo, ring, tail, head) && |entries| < lo + NUM
    ensures tail % NUM < |ring| && RingOk(entries + [x], lo, ring[tail % NUM := x], (tail + 1) % U16, head)
  {
    RingSlots(lo, |entries|);
  }

  /** A ring of eight slots with fewer than eight entries has room at the next index, also when the index wraps. */
  lemma RingSlots(lo: nat, hi: nat)
    requires lo <= hi < lo + NUM
    ensures hi % U16 % NUM == hi % NUM && (hi + 1) % U16 == (hi % U16 + 1) % U16
    ensures forall k: nat :: lo <= k < hi ==> k % NUM != hi % NUM
  {
    WrapSlot(hi);
    forall k: nat | lo <= k < hi ensures k % NUM != hi % NUM { OtherSlot(k, hi); }
  }

  lemma WrapSlot(h: nat)
    ensures h % U16 % NUM == h % NUM && (h + 1) % U16 == (h % U16 + 1) % U16
  {
    var a, r := h / U16, h % U16;
    Residue(h, NUM, 8192 * a + r / NUM, r % NUM);
    Residue(h + 1, U16, if r == U16 - 1 then a + 1 else a, if r == U16 - 1 then 0 else r + 1);
  }

  lemma OtherSlot(k: nat, h: nat)
    requires k < h < k + NUM
    ensures k % NUM != h % NUM
  {
    assert k == NUM * (k / NUM) + k % NUM && h == NUM * (h / NUM) + h % NUM;
  }

  // ---------- taking entries, and the life of a request ----------

  /** The indices differ exactly when an entry is left, and the head index leads to the oldest. */
  lemma NextEntry(entries: seq<nat>, lo: nat, ring: seq<nat>, tail: nat, head: nat)
    requires RingOk(entries, lo, ring, tail, head) && |entries| - lo <= 2
    ensures tail != head <==> lo < |entries|
    ensures tail != head ==> head % NUM < |ring| && ring[head % NUM] == entries[lo]
    ensures tail != head ==> RingOk(entries, lo + 1, ring, tail, (head + 1) % U16)
  {
    RingSlots(lo, lo);
  }

  /** The path from `q0` to `q` handles the completions in order. */
  ghost predicate HandledRun(q0: Q, q: Q, path: seq<Q>) {
    && q0.seen <= q.seen <= |q0.used| && |path| == 1 + q.seen - q0.seen && path[0] == q0 && path[|path| - 1] == q
    && (forall t :: 0 <= t < |path| - 1 ==> QStep(path[t], path[t + 1], Handle(q0.used[q0.seen + t])))
    && (forall h :: h in q.fl <==> h in q0.fl) && (forall h :: h in q.fl ==> q.fl[h].buf == q0.fl[h].buf)
  }

  /** How far virtio_disk_intr has come (unfolded only at a Gate). */
  ghost predicate Handling(q0: Q, busy0: set<nat>, q: Q, busy: set<nat>, path: seq<Q>) {
    forall z: nat {:trigger Gate(z)} :: Gate(z) ==>
      q.used == q0.used && HandledRun(q0, q, path) && busy == busy0 - BufsOf(q0, q0.seen, q.seen)
  }

  lemma HandlingStart(q: Q, busy: set<nat>) returns (path: seq<Q>)
    requires q.seen <= |q.used|
    ensures Handling(q, busy, q, busy, path)
  {
    path := [q];
    assert BufsOf(q, q.seen, q.seen) == {};
  }

  lemma HandlingNext(q0: Q, busy0: set<nat>, q1: Q, busy1: set<nat>, q: Q, busy: set<nat>, path: seq<Q>)
    returns (next: seq<Q>)
    requires Handling(q0, busy0, q1, busy1, path) && q1.seen < |q1.used| && q1.used[q1.seen] in q1.fl
    requires QStep(q1, q, Handle(q1.used[q1.seen])) && busy == busy1 - {q1.fl[q1.used[q1.seen]].buf}
    ensures Handling(q0, busy0, q, busy, next)
  {
    assert Gate(0);
    HandledMore(q0, q1, q, path);
    next := path + [q];
  }

  lemma HandlingIs(q0: Q, busy0: set<nat>, q: Q, busy: set<nat>, path: seq<Q>)
    requires Handling(q0, busy0, q, busy, path)
    ensures q.used == q0.used && HandledRun(q0, q, path) && busy == busy0 - BufsOf(q0, q0.seen, q.seen)
  {
    assert Gate(0);
  }

  /** The buffers of these completions. */
  ghost function BufsOf(q: Q, lo: nat, hi: nat): set<nat> {
    set k: nat | lo <= k < hi && k < |q.used| && q.used[k] in q.fl :: q.fl[q.used[k]].buf
  }

  lemma HandledMore(q0: Q, q1: Q, q: Q, path: seq<Q>)
    requires HandledRun(q0, q1, path) && q1.used == q0.used
    requires q1.seen < |q1.used| && QStep(q1, q, Handle(q1.used[q1.seen]))
    ensures HandledRun(q0, q, path + [q])
    ensures BufsOf(q0, q0.seen, q.seen) == BufsOf(q0, q0.seen, q1.seen) + {q1.fl[q1.used[q1.seen]].buf}
  {
    var next := path + [q];
    forall t | 0 <= t < |next| - 1 ensures QStep(next[t], next[t + 1], Handle(q0.used[q0.seen + t])) {
      if t < |path| - 1 { assert QStep(path[t], path[t + 1], Handle(q0.used[q0.seen + t])); }
    }
    var b := q1.fl[q1.used[q1.seen]].buf;
    assert b in BufsOf(q0, q0.seen, q.seen) by { assert q0.used[q1.seen] in q0.fl; }
    forall c | c in BufsOf(q0, q0.seen, q.seen) ensures c in BufsOf(q0, q0.seen, q1.seen) + {b} {
    }
  }

  ghost function Taken(q: Q): Q
    requires q.taken < |q.heads| && q.heads[q.taken] in q.fl
  {
    var h := q.heads[q.taken];
    q.(fl := q.fl[h := q.fl[h].(phase := AtDevice)], taken := q.taken + 1)
  }

  ghost function Completed(q: Q, h: nat, ok: bool): Q
    requires h in q.fl
  {
    q.(fl := q.fl[h := q.fl[h].(phase := Done, ok := ok)], used := q.used + [h])
  }

  ghost function HandledNext(q: Q): Q
    requires q.seen < |q.used| && q.used[q.seen] in q.fl
  {
    var h := q.used[q.seen];
    q.(fl := q.fl[h := q.fl[h].(phase := Handled)], seen := q.seen + 1)
  }

  ghost function Dropped(q: Q, h: nat, o: int): Q
    requires h in q.fl && h < |q.owner| && q.fl[h].d1 < |q.owner| && q.fl[h].d2 < |q.owner|
  {
    q.(fl := q.fl - {h}, owner := q.owner[h := o][q.fl[h].d1 := o][q.fl[h].d2 := o])
  }

  /** Only the phase of one request changes. */
  lemma PhaseOk(q: Q, r: Q, h: nat)
    requires QOk(q) && h in q.fl && h in r.fl && r.owner == q.owner
             && r.fl == q.fl[h := q.fl[h].(phase := r.fl[h].phase, ok := r.fl[h].ok)]
    ensures forall g :: g in r.fl ==> ChainOk(r, g)
    ensures forall i: nat :: i < NUM ==> OwnerOk(r, i)
    ensures forall g, f :: g in r.fl && f in r.fl && g != f ==> r.fl[g].buf != r.fl[f].buf
  {
    forall g | g in r.fl ensures ChainOk(r, g) { assert ChainOk(q, g); }
    forall i: nat | i < NUM ensures OwnerOk(r, i) { assert OwnerOk(q, i); }
  }

  lemma TakenOk(q: Q)
    requires QIs(q) && q.taken < |q.heads|
    ensures q.heads[q.taken] in q.fl && q.fl[q.heads[q.taken]].phase == Queued && QIs(Taken(q))
  {
    OpenQ(q);
    assert EntryOk(q, q.heads, q.taken, Queued);
    var r := Taken(q);
    PhaseOk(q, r, q.heads[q.taken]);
    forall k: nat | r.taken <= k < |r.heads|
        ensures EntryOk(r, r.heads, k, Queued) { assert EntryOk(q, q.heads, k, Queued); }
    forall k: nat | r.seen <= k < |r.used| ensures EntryOk(r, r.used, k, Done) { assert EntryOk(q, q.used, k, Done); }
  }

  lemma CompletedOk(q: Q, h: nat, ok: bool)
    requires QIs(q) && h in q.fl && q.fl[h].phase == AtDevice
    ensures QIs(Completed(q, h, ok)) && h < NUM
  {
    OpenQ(q);
    assert ChainOk(q, h);
    var r := Completed(q, h, ok);
    PhaseOk(q, r, h);
    forall k: nat | r.taken <= k < |r.heads|
        ensures EntryOk(r, r.heads, k, Queued) { assert EntryOk(q, q.heads, k, Queued); }
    forall k: nat | r.seen <= k < |r.used| ensures EntryOk(r, r.used, k, Done) && (k < |q.used| ==> r.used[k] != h) {
      if k < |q.used| { assert EntryOk(q, q.used, k, Done); }
    }
  }

  lemma HandledOk(q: Q)
    requires QIs(q) && q.seen < |q.used|
    ensures q.used[q.seen] in q.fl && q.used[q.seen] < NUM && q.fl[q.used[q.seen]].phase == Done && QIs(HandledNext(q))
  {
    OpenQ(q);
    assert EntryOk(q, q.used, q.seen, Done);
    assert ChainOk(q, q.used[q.seen]);
    var r := HandledNext(q);
    PhaseOk(q, r, q.used[q.seen]);
    forall k: nat | r.taken <= k < |r.heads|
        ensures EntryOk(r, r.heads, k, Queued) { assert EntryOk(q, q.heads, k, Queued); }
    forall k: nat | r.seen <= k < |r.used| ensures EntryOk(r, r.used, k, Done) { assert EntryOk(q, q.used, k, Done); }
  }

  lemma DroppedOk(q: Q, h: nat)
    requires QIs(q) && |q.owner| == NUM && h in q.fl && q.fl[h].phase == Handled
    ensures ChainOk(q, h) && QIs(Dropped(q, h, HELD))
  {
    OpenQ(q);
    assert ChainOk(q, h);
    var r := Dropped(q, h, HELD);
    forall g | g in r.fl ensures ChainOk(r, g) { assert ChainOk(q, g); }
    forall i: nat | i < NUM ensures OwnerOk(r, i) { assert OwnerOk(q, i); }
    forall k: nat | r.taken <= k < |r.heads|
        ensures EntryOk(r, r.heads, k, Queued) { assert EntryOk(q, q.heads, k, Queued); }
    forall k: nat | r.seen <= k < |r.used| ensures EntryOk(r, r.used, k, Done) { assert EntryOk(q, q.used, k, Done); }
  }

  // ---------- the tables in step with it ----------

  /** A step between phases in which the buffer stays busy. */
  lemma SameTables(q: Q, r: Q, free: seq<bool>, desc: seq<Desc>, info: seq<nat>, busy: set<nat>)
    requires TablesOk(q, free, desc, info, busy) && r.owner == q.owner && r.fl.Keys == q.fl.Keys
    requires forall h :: h in q.fl ==>
             r.fl[h] == q.fl[h].(phase := r.fl[h].phase, ok := r.fl[h].ok)
                 && (r.fl[h].phase == Handled <==> q.fl[h].phase == Handled)
    ensures TablesOk(r, free, desc, info, busy)
  {
    forall h | h in r.fl ensures LinksOk(r, desc, h) { assert LinksOk(q, desc, h); }
    forall b | b in busy ensures exists h :: h in r.fl && r.fl[h].buf == b && r.fl[h].phase != Handled {
      var h :| h in q.fl && q.fl[h].buf == b && q.fl[h].phase != Handled;
      assert r.fl[h].buf == b;
    }
  }

  /** The device's completion, in the queue, the tables and the status bytes. */
  lemma CompletedAll(q: Q, h: nat, ok: bool, free: seq<bool>, desc: seq<Desc>, info: seq<nat>, busy: set<nat>,
      infoOk: seq<bool>)
    requires QIs(q) && h in q.fl && q.fl[h].phase == AtDevice && TablesOk(q, free, desc, info, busy)
             && StatusOk(q, infoOk)
    ensures h < NUM && h < |infoOk| && QIs(Completed(q, h, ok)) && StatusOk(Completed(q, h, ok), infoOk[h := ok])
    ensures TablesOk(Completed(q, h, ok), free, desc, info, busy)
  {
    CompletedOk(q, h, ok);
    SameTables(q, Completed(q, h, ok), free, desc, info, busy);
  }

  lemma HandledTables(q: Q, free: seq<bool>, desc: seq<Desc>, info: seq<nat>, busy: set<nat>)
    requires QIs(q) && TablesOk(q, free, desc, info, busy) && q.seen < |q.used| && q.used[q.seen] in q.fl
             && q.fl[q.used[q.seen]].phase == Done
    ensures TablesOk(HandledNext(q), free, desc, info, busy - {q.fl[q.used[q.seen]].buf})
  {
    OpenQ(q);
    var g := q.used[q.seen];
    var r := HandledNext(q);
    forall h | h in r.fl ensures LinksOk(r, desc, h) { assert LinksOk(q, desc, h); }
    forall b | b in busy - {q.fl[g].buf} ensures exists h :: h in r.fl && r.fl[h].buf == b && r.fl[h].phase != Handled {
      var h :| h in q.fl && q.fl[h].buf == b && q.fl[h].phase != Handled;
      assert h != g && r.fl[h].buf == b;
    }
  }

  lemma DroppedTables(q: Q, free: seq<bool>, desc: seq<Desc>, info: seq<nat>, busy: set<nat>, h: nat)
    requires QIs(q) && TablesOk(q, free, desc, info, busy) && h in q.fl && q.fl[h].phase == Handled && ChainOk(q, h)
    ensures TablesOk(Dropped(q, h, HELD), free, desc, info[h := 0], busy) && LinksOk(q, desc, h)
  {
    OpenQ(q);
    var r := Dropped(q, h, HELD);
    forall g | g in r.fl ensures g < NUM && LinksOk(r, desc, g) && info[h := 0][g] == r.fl[g].buf {
        assert LinksOk(q, desc, g); }
    forall b | b in busy ensures exists g :: g in r.fl && r.fl[g].buf == b && r.fl[g].phase != Handled {
      var g :| g in q.fl && q.fl[g].buf == b && q.fl[g].phase != Handled;
      assert r.fl[g].buf == b;
    }
  }
}
