/**
 The buffer cache of kernel/bio.c.  `latest` is the contents of an uncached disk:
 what was last passed to log_write or bwrite for each block.
 */
module Bio {
  import opened BioRing
  import opened Common

  /** The ghost view: who uses and who pins each buffer, which are locked, and the two disks. */
  datatype View = View(s: seq<Buf>, users: seq<nat>, locked: set<nat>, pinned: set<nat>, device: imap<Key, Block>,
      latest: imap<Key, Block>)

  /** A reference count is the number of users plus one for the log's pin. */
  predicate CountOk(v: View, b: nat)
    requires b < |v.s| && b < |v.users|
  {
    && v.s[b].refcnt == v.users[b] + (if b in v.pinned then 1 else 0)
    && (b in v.locked ==> v.users[b] > 0)
    && (b in v.pinned ==> v.s[b].valid && v.s[b].dev != 0)
  }

  /** A buffer nobody is changing holds the latest contents of its block. */
  predicate CleanOk(v: View, b: nat)
    requires b < |v.s|
  {
    v.s[b].valid && v.s[b].dev != 0 && b !in v.locked ==>
        KeyOf(v.s[b]) in v.latest && v.s[b].data == v.latest[KeyOf(v.s[b])]
  }

  /** A block whose latest contents are not on the device is in a pinned buffer. */
  ghost predicate DeviceOk(v: View, k: Key) {
    && k in v.device && k in v.latest
    && (k.0 != 0 ==> v.device[k] == v.latest[k] || exists b :: 0 <= b < |v.s| && b in v.pinned && KeyOf(v.s[b]) == k)
  }

  /** At most one buffer for a block of a nonzero device. */
  ghost predicate OneBuffer(s: seq<Buf>) {
    forall b, c :: 0 <= b < c < NBUF && b < |s| && c < |s| && s[b].dev != 0 ==> KeyOf(s[b]) != KeyOf(s[c])
  }

  ghost predicate ViewOk(v: View) {
    && |v.s| == NBUF + 1 && |v.users| == NBUF
    && (forall b :: b in v.locked || b in v.pinned ==> b < NBUF)
    && (forall b: nat :: b < NBUF ==> CountOk(v, b) && CleanOk(v, b))
    && (forall k: Key :: DeviceOk(v, k))
    && OneBuffer(v.s)
  }

  class Cache {
    const buf: array<Buf>
    ghost var ring: seq<nat>
    ghost var users: seq<nat>
    ghost var locked: set<nat>
    ghost var pinned: set<nat>
    var device: imap<Key, Block>
    ghost var latest: imap<Key, Block>

    ghost function V(): View
      reads this, buf
    {
      View(buf[..], users, locked, pinned, device, latest)
    }

    ghost predicate Valid()
      reads this, buf
    {
      && buf.Length == NBUF + 1
      && RingOk(buf[..], ring) && |ring| == NBUF && (forall b: nat :: b < NBUF ==> b in ring)
      && ViewOk(V())
    }

    /** The cache at boot. */
    constructor (d: imap<Key, Block>)
      requires forall k: Key :: k in d
      ensures Valid() && device == d && latest == d && fresh(buf)
      ensures forall b :: 0 <= b < NBUF ==> ring[b] == NBUF - 1 - b
    {
      buf := new Buf[NBUF + 1](_ => Buf(false, 0, 0, 0, HEAD, HEAD, []));
      ring, users, locked, pinned := [], seq(NBUF, _ => 0), {}, {};
      device, latest := d, d;
      new;
      Binit();
    }

    /** binit: the last buffer ends up first. */
    method Binit()
      requires buf.Length == NBUF + 1 && ring == [] && forall i :: 0 <= i <= NBUF ==>
               buf[i] == Buf(false, 0, 0, 0, HEAD, HEAD, [])
      modifies this`ring, buf
      ensures RingOk(buf[..], ring) && |ring| == NBUF && (forall b: nat :: b < NBUF ==> b in ring)
      ensures (forall b :: 0 <= b < NBUF ==> ring[b] == NBUF - 1 - b) && SameBufs(old(buf[..]), buf[..])
    {
      var b := 0;
      while b < NBUF
        invariant 0 <= b <= NBUF && RingOk(buf[..], ring) && Countdown(ring, b) && SameBufs(old(buf[..]), buf[..])
      {
        ghost var s := buf[..];
        FrontOk(s, ring, b);
        Front(b);
        SameBoth(old(buf[..]), s, buf[..]);
        ring := [b] + ring;
        b := b + 1;
      }
      forall c: nat | c < NBUF ensures c in ring { assert ring[NBUF - 1 - c] == c; }
    }

    /** Link `b` in right after the head. */
    method Front(b: nat)
      requires buf.Length == NBUF + 1 && b < NBUF && buf[HEAD].next <= NBUF
      modifies buf
      ensures buf[..] == Fronted(old(buf[..]), b)
    {
      buf[b] := buf[b].(next := buf[HEAD].next, prev := HEAD);
      buf[buf[HEAD].next] := buf[buf[HEAD].next].(prev := b);
      buf[HEAD] := buf[HEAD].(next := b);
    }

    /**
     bget, up to the sleep lock: the buffer of the block if there is one, else the unused
     buffer nearest the tail, which is recycled; it panics only when all are in use.
     */
    method Bget(dev: nat, blockno: nat) returns (panicked: bool, b: nat)
      requires Valid() && dev != 0
      modifies buf, this`users
      ensures Valid() && ring == old(ring)
      ensures panicked <==> !Cached(old(buf[..]), (dev, blockno)) && AllUsed(old(buf[..]))
      ensures panicked ==> V() == old(V())
      ensures !panicked ==> b < NBUF && users == old(users)[b := old(users)[b] + 1] && KeyOf(buf[b]) == (dev, blockno)
      ensures !panicked && Cached(old(buf[..]), (dev, blockno)) ==> buf[..] == old(buf[..])[b := Used(old(buf[..])[b])]
      ensures !panicked && !Cached(old(buf[..]), (dev, blockno)) ==>
                buf[..] == old(buf[..])[b := Recycled(old(buf[..])[b], dev, blockno)]
                    && NearestTail(old(buf[..]), ring, b)
    {
      var hit;
      hit, b := Lookup(dev, blockno);
      if hit {
        UseOk(V(), b);
        SetBuf(b, Used(buf[b]));
        users := users[b := users[b] + 1];
        return false, b;
      }
      panicked, b := FindUnused();
      if !panicked {
        RecycleOk(V(), b, dev, blockno);
        SetBuf(b, Recycled(buf[b], dev, blockno));
        users := users[b := 1];
      }
    }

    /** Store one buffer whose links do not change. */
    method SetBuf(b: nat, x: Buf)
      requires buf.Length == NBUF + 1 && b < NBUF && RingOk(buf[..], ring) && x.prev == buf[b].prev
               && x.next == buf[b].next
      modifies buf
      ensures buf[..] == old(buf[..])[b := x] && RingOk(buf[..], ring)
    {
      RingStays(buf[..], buf[..][b := x], ring);
      buf[b] := x;
    }

    /** The first loop of bget. */
    method Lookup(dev: nat, blockno: nat) returns (hit: bool, b: nat)
      requires Valid()
      ensures hit ==> b < NBUF && KeyOf(buf[b]) == (dev, blockno)
      ensures !hit ==> !Cached(buf[..], (dev, blockno))
    {
      ghost var i := 0;
      assert LinkAt(buf[..], ring, 0);
      b := buf[HEAD].next;
      while b != HEAD
        invariant 0 <= i <= NBUF && b == At(ring, i + 1) && b <= NBUF
        invariant forall j :: 0 <= j < i ==> KeyOf(buf[ring[j]]) != (dev, blockno)
        decreases NBUF - i
      {
        if KeyOf(buf[b]) == (dev, blockno) {
          return true, b;
        }
        assert LinkAt(buf[..], ring, i + 1);
        b := buf[b].next;
        i := i + 1;
      }
      NotInRing(buf[..], ring, (dev, blockno));
      hit := false;
    }

    /** The second loop of bget. */
    method FindUnused() returns (none: bool, b: nat)
      requires Valid()
      ensures none <==> AllUsed(buf[..])
      ensures !none ==> b < NBUF && buf[b].refcnt == 0 && NearestTail(buf[..], ring, b)
    {
      ghost var i := NBUF;
      assert LinkAt(buf[..], ring, NBUF);
      b := buf[HEAD].prev;
      while b != HEAD
        invariant 0 <= i <= NBUF && b == At(ring, i) && b <= NBUF
        invariant forall j :: i <= j < NBUF ==> buf[ring[j]].refcnt > 0
        decreases i
      {
        if buf[b].refcnt == 0 {
          assert ring[i - 1] == b;
          return false, b;
        }
        assert LinkAt(buf[..], ring, i - 1);
        b := buf[b].prev;
        i := i - 1;
      }
      NoneUnused(buf[..], ring);
      none := true;
    }

    /**
     The rest of bread, once the sleep lock is free: lock the buffer, and read the block
     if the buffer is new.  Whatever happened while waiting, it then holds the latest
     contents of its block.
     */
    method LockAndFill(b: nat)
      requires Valid() && b < NBUF && users[b] > 0 && b !in locked && buf[b].dev != 0
      modifies buf, this`locked
      ensures Valid() && ring == old(ring) && locked == old(locked) + {b}
      ensures KeyOf(buf[b]) == KeyOf(old(buf[b])) && KeyOf(buf[b]) in latest && buf[b].valid
              && buf[b].data == latest[KeyOf(buf[b])]
      ensures buf[..] == old(buf[..])[b := old(buf[b]).(valid := true, data := buf[b].data)]
    {
      FillOk(V(), b);
      locked := locked + {b};
      if !buf[b].valid {
        SetBuf(b, buf[b].(valid := true, data := device[KeyOf(buf[b])]));
      }
      assert buf[..] == old(buf[..])[b := old(buf[b]).(valid := true, data := buf[b].data)];
    }

    /** bread: a locked buffer with the latest contents of the block. */
    method Bread(dev: nat, blockno: nat) returns (panicked: bool, b: nat)
      requires Valid() && dev != 0
      requires forall c :: 0 <= c < NBUF && c in locked ==> KeyOf(buf[c]) != (dev, blockno)      // or it would sleep
      modifies buf, this`users, this`locked
      ensures Valid() && ring == old(ring)
      ensures panicked <==> !Cached(old(buf[..]), (dev, blockno)) && AllUsed(old(buf[..]))
      ensures !panicked ==>
                b < NBUF && b !in old(locked) && locked == old(locked) + {b}
                && users == old(users)[b := old(users)[b] + 1]
      ensures !panicked ==>
                KeyOf(buf[b]) == (dev, blockno) && buf[b].valid && (dev, blockno) in latest
                && buf[b].data == latest[(dev, blockno)]
      ensures forall c :: 0 <= c < NBUF && old(buf[c]).refcnt > 0 && c != b ==> buf[c] == old(buf[c])
    {
      panicked, b := Bget(dev, blockno);
      if !panicked {
        LockedHolds(old(V()), b);
        LockAndFill(b);
      }
    }

    /** The holder of the buffer changes its contents. */
    method Modify(b: nat, d: Block)
      requires Valid() && b in locked
      modifies buf
      ensures Valid() && buf[..] == old(buf[..])[b := old(buf[b]).(data := d)]
    {
      LockedOk(V(), b, buf[b].(data := d));
      SetBuf(b, buf[b].(data := d));
    }

    /** bwrite: the contents go to the device. */
    method Bwrite(b: nat)
      requires Valid() && b in locked && buf[b].valid && buf[b].dev != 0
      modifies this`device, this`latest
      ensures Valid() && device == old(device)[KeyOf(buf[b]) := buf[b].data]
              && latest == old(latest)[KeyOf(buf[b]) := buf[b].data]
    {
      BwriteOk(V(), b);
      device := device[KeyOf(buf[b]) := buf[b].data];
      latest := latest[KeyOf(buf[b]) := buf[b].data];
    }

    /** log_write's part in the cache: a block new to the log is pinned. */
    method LogWrite(b: nat, absorbed: bool)
      requires Valid() && b in locked && buf[b].valid && buf[b].dev != 0 && (absorbed <==> b in pinned)
      modifies buf, this`pinned, this`latest
      ensures Valid() && ring == old(ring) && pinned == old(pinned) + {b}
              && latest == old(latest)[KeyOf(buf[b]) := buf[b].data]
      ensures buf[..] == if absorbed then old(buf[..]) else old(buf[..])[b := Used(old(buf[b]))]
    {
      LogWriteOk(V(), b);
      latest := latest[KeyOf(buf[b]) := buf[b].data];
      pinned := pinned + {b};
      if !absorbed {
        SetBuf(b, Used(buf[b]));
      }
      assert absorbed ==> buf[..] == old(buf[..]);
    }

    /** bunpin, once the block has been installed. */
    method Bunpin(b: nat)
      requires Valid() && b in pinned && b < NBUF && KeyOf(buf[b]) in device && KeyOf(buf[b]) in latest
               && device[KeyOf(buf[b])] == latest[KeyOf(buf[b])]
      modifies buf, this`pinned
      ensures Valid() && ring == old(ring) && pinned == old(pinned) - {b}
      ensures buf[..] == old(buf[..])[b := Released(old(buf[b]))]
    {
      UnpinOk(V(), b);
      SetBuf(b, Released(buf[b]));
      pinned := pinned - {b};
    }

    /** brelse: unlock; the last user moves the buffer to the front of the ring. */
    method Brelse(b: nat)
      requires Valid() && b in locked && b < NBUF
      requires buf[b].valid && buf[b].dev != 0 ==> KeyOf(buf[b]) in latest && buf[b].data == latest[KeyOf(buf[b])]
      modifies buf, this`ring, this`users, this`locked
      ensures Valid() && locked == old(locked) - {b} && old(users)[b] > 0 && users == old(users)[b := old(users)[b] - 1]
      ensures SameBufs(old(buf[..])[b := Released(old(buf[b]))], buf[..])
      ensures exists j ::
                0 <= j < NBUF && old(ring)[j] == b
                && ring == if old(buf[b]).refcnt == 1 then [b] + Without(old(ring), j) else old(ring)
    {
      ReleaseOk(V(), b);
      locked := locked - {b};
      users := users[b := users[b] - 1];
      SetBuf(b, Released(buf[b]));
      assert b in ring;
      ghost var j :| 0 <= j < |ring| && ring[j] == b;
      if buf[b].refcnt == 0 {
        ghost var s, v := buf[..], V();
        ToFront(b, j);
        RelinkOk(v, s, V(), buf[..]);
        FrontAll(ring, j);
        ring := [b] + Without(ring, j);
      }
    }

    /** The list surgery of brelse. */
    method ToFront(b: nat, ghost j: nat)
      requires buf.Length == NBUF + 1 && RingOk(buf[..], ring) && j < |ring| && ring[j] == b
      modifies buf
      ensures RingOk(buf[..], [b] + Without(ring, j)) && SameBufs(old(buf[..]), buf[..])
    {
      ghost var s := buf[..];
      UnlinkOk(s, ring, j);
      buf[buf[b].next] := buf[buf[b].next].(prev := buf[b].prev);
      buf[buf[b].prev] := buf[buf[b].prev].(next := buf[b].next);
      assert buf[..] == Unlinked(s, b);
      ghost var t := buf[..];
      WithoutNoDup(ring, j);
      FrontOk(t, Without(ring, j), b);
      Front(b);
      SameBoth(s, t, buf[..]);
    }
  }

  predicate Countdown(ring: seq<nat>, b: nat) {
    |ring| == b && forall i :: 0 <= i < b ==> ring[i] == b - 1 - i
  }

  lemma SameBoth(s: seq<Buf>, t: seq<Buf>, u: seq<Buf>)
    requires SameBufs(s, t) && SameBufs(t, u)
    ensures SameBufs(s, u)
  {
  }

  ghost predicate Cached(s: seq<Buf>, k: Key) {
    exists b :: 0 <= b < NBUF && b < |s| && KeyOf(s[b]) == k
  }

  ghost predicate AllUsed(s: seq<Buf>) {
    forall b :: 0 <= b < NBUF && b < |s| ==> s[b].refcnt > 0
  }

  /** Unused, and every buffer closer to the tail of the ring is in use. */
  ghost predicate NearestTail(s: seq<Buf>, ring: seq<nat>, b: nat) {
    exists j :: 0 <= j < |ring| && ring[j] == b && b < |s| && s[b].refcnt == 0
                && forall i :: j < i < |ring| ==> ring[i] < |s| && s[ring[i]].refcnt > 0
  }

  function Used(b: Buf): Buf {
    b.(refcnt := b.refcnt + 1)
  }

  function Released(b: Buf): Buf {
    b.(refcnt := if b.refcnt > 0 then b.refcnt - 1 else 0)
  }

  function Recycled(b: Buf, dev: nat, blockno: nat): Buf {
    b.(dev := dev, blockno := blockno, valid := false, refcnt := 1)
  }

  lemma RingStays(s: seq<Buf>, t: seq<Buf>, ring: seq<nat>)
    requires RingOk(s, ring) && |t| == |s| && forall k :: 0 <= k < |s| ==>
             t[k].prev == s[k].prev && t[k].next == s[k].next
    ensures RingOk(t, ring)
  {
    forall i: nat | i <= |ring| ensures LinkAt(t, ring, i) { assert LinkAt(s, ring, i); }
  }

  lemma NotInRing(s: seq<Buf>, ring: seq<nat>, k: Key)
    requires (forall b: nat :: b < NBUF ==> b in ring) && |s| == NBUF + 1 && |ring| == NBUF
    requires forall j :: 0 <= j < |ring| ==> ring[j] < |s| && KeyOf(s[ring[j]]) != k
    ensures !Cached(s, k)
  {
    forall b: nat | b < NBUF ensures KeyOf(s[b]) != k {
      assert b in ring;
      var j :| 0 <= j < |ring| && ring[j] == b;
      assert KeyOf(s[ring[j]]) != k;
    }
  }

  lemma NoneUnused(s: seq<Buf>, ring: seq<nat>)
    requires (forall b: nat :: b < NBUF ==> b in ring) && |s| == NBUF + 1 && |ring| == NBUF
    requires forall j :: 0 <= j < |ring| ==> ring[j] < |s| && s[ring[j]].refcnt > 0
    ensures AllUsed(s)
  {
    forall b: nat | b < NBUF ensures s[b].refcnt > 0 {
      assert b in ring;
      var j :| 0 <= j < |ring| && ring[j] == b;
      assert s[ring[j]].refcnt > 0;
    }
  }

  /** One more user. */
  lemma UseOk(v: View, b: nat)
    requires ViewOk(v) && b < NBUF
    ensures ViewOk(v.(s := v.s[b := Used(v.s[b])], users := v.users[b := v.users[b] + 1]))
  {
    var w := v.(s := v.s[b := Used(v.s[b])], users := v.users[b := v.users[b] + 1]);
    forall c: nat | c < NBUF ensures CountOk(w, c) && CleanOk(w, c) { assert CountOk(v, c) && CleanOk(v, c); }
    forall k: Key ensures DeviceOk(w, k) { DeviceStays(v, w, k); }
  }

  /** Pins and the two disks are all that DeviceOk depends on. */
  lemma DeviceStays(v: View, w: View, k: Key)
    requires DeviceOk(v, k) && w.device == v.device && w.latest == v.latest && v.pinned <= w.pinned && |w.s| == |v.s|
    requires forall b :: b in v.pinned && 0 <= b < |v.s| ==> KeyOf(w.s[b]) == KeyOf(v.s[b])
    ensures DeviceOk(w, k)
  {
    if k.0 != 0 && v.device[k] != v.latest[k] {
      var b :| 0 <= b < |v.s| && b in v.pinned && KeyOf(v.s[b]) == k;
      assert KeyOf(w.s[b]) == k;
    }
  }

  /** A buffer with no users and no pin may be given to another block. */
  lemma RecycleOk(v: View, b: nat, dev: nat, blockno: nat)
    requires ViewOk(v) && b < NBUF && v.s[b].refcnt == 0 && !Cached(v.s, (dev, blockno)) && dev != 0
    ensures b !in v.pinned && b !in v.locked && v.users[b] == 0
    ensures ViewOk(v.(s := v.s[b := Recycled(v.s[b], dev, blockno)], users := v.users[b := 1]))
  {
    assert CountOk(v, b);
    var w := v.(s := v.s[b := Recycled(v.s[b], dev, blockno)], users := v.users[b := 1]);
    forall c: nat | c < NBUF ensures CountOk(w, c) && CleanOk(w, c) { assert CountOk(v, c) && CleanOk(v, c); }
    forall k: Key ensures DeviceOk(w, k) { DeviceStays(v, w, k); }
  }

  /** A pinned block is in its only buffer, so a buffer that is not valid can be read from the device. */
  lemma FillOk(v: View, b: nat)
    requires ViewOk(v) && b < NBUF && v.users[b] > 0 && b !in v.locked && v.s[b].dev != 0
    ensures KeyOf(v.s[b]) in v.device && KeyOf(v.s[b]) in v.latest
    ensures v.s[b].valid ==> v.s[b].data == v.latest[KeyOf(v.s[b])]
    ensures !v.s[b].valid ==> v.device[KeyOf(v.s[b])] == v.latest[KeyOf(v.s[b])]
    ensures forall d: Block :: ViewOk(v.(s := v.s[b := v.s[b].(valid := true, data := d)], locked := v.locked + {b}))
    ensures v.s[b].valid ==> ViewOk(v.(locked := v.locked + {b}))
  {
    var k := KeyOf(v.s[b]);
    assert DeviceOk(v, k) && CleanOk(v, b) && CountOk(v, b);
    forall c | 0 <= c < |v.s| && c in v.pinned && KeyOf(v.s[c]) == k ensures c == b && v.s[b].valid {
      assert CountOk(v, c);
      assert c < b || b < c || c == b;
    }
    forall d: Block ensures ViewOk(v.(s := v.s[b := v.s[b].(valid := true, data := d)], locked := v.locked + {b})) {
      LockOk(v, b, v.s[b].(valid := true, data := d));
    }
    if v.s[b].valid {
      LockOk(v, b, v.s[b]);
      assert v.s[b := v.s[b]] == v.s;
    }
  }

  lemma LockOk(v: View, b: nat, x: Buf)
    requires ViewOk(v) && b < NBUF && v.users[b] > 0 && KeyOf(x) == KeyOf(v.s[b]) && x.refcnt == v.s[b].refcnt
             && (v.s[b].valid ==> x.valid)
    ensures ViewOk(v.(s := v.s[b := x], locked := v.locked + {b}))
  {
    var w := v.(s := v.s[b := x], locked := v.locked + {b});
    forall c: nat | c < NBUF ensures CountOk(w, c) && CleanOk(w, c) { assert CountOk(v, c) && CleanOk(v, c); }
    forall k: Key ensures DeviceOk(w, k) { DeviceStays(v, w, k); }
  }

  lemma LockedOk(v: View, b: nat, x: Buf)
    requires ViewOk(v) && b in v.locked && KeyOf(x) == KeyOf(v.s[b]) && x.refcnt == v.s[b].refcnt
             && (v.s[b].valid ==> x.valid)
    ensures b < NBUF && ViewOk(v.(s := v.s[b := x]))
  {
    assert CountOk(v, b);
    LockOk(v, b, x);
    assert v.locked + {b} == v.locked;
  }

  lemma LockedHolds(v: View, b: nat)
    requires ViewOk(v) && b < NBUF
    ensures b in v.locked ==> v.s[b].refcnt > 0
  {
    assert CountOk(v, b);
  }

  lemma BwriteOk(v: View, b: nat)
    requires ViewOk(v) && b in v.locked && v.s[b].dev != 0
    ensures ViewOk(v.(device := v.device[KeyOf(v.s[b]) := v.s[b].data], latest :=
            v.latest[KeyOf(v.s[b]) := v.s[b].data]))
  {
    var k := KeyOf(v.s[b]);
    var w := v.(device := v.device[k := v.s[b].data], latest := v.latest[k := v.s[b].data]);
    forall c: nat | c < NBUF ensures CountOk(w, c) && CleanOk(w, c) {
      assert CountOk(v, c) && CleanOk(v, c);
      assert c < b || b < c || c == b;
    }
    forall l: Key ensures DeviceOk(w, l) { assert DeviceOk(v, l); }
  }

  lemma LogWriteOk(v: View, b: nat)
    requires ViewOk(v) && b in v.locked && v.s[b].valid && v.s[b].dev != 0
    ensures b < NBUF
    ensures ViewOk(v.(s := if b in v.pinned then v.s else v.s[b := Used(v.s[b])], pinned := v.pinned + {b}, latest :=
            v.latest[KeyOf(v.s[b]) := v.s[b].data]))
  {
    var k := KeyOf(v.s[b]);
    var s := if b in v.pinned then v.s else v.s[b := Used(v.s[b])];
    var w := v.(s := s, pinned := v.pinned + {b}, latest := v.latest[k := v.s[b].data]);
    forall c: nat | c < NBUF ensures CountOk(w, c) && CleanOk(w, c) {
      assert CountOk(v, c) && CleanOk(v, c);
      assert c < b || b < c || c == b;
    }
    forall l: Key ensures DeviceOk(w, l) {
      assert DeviceOk(v, l);
      if l == k {
        assert KeyOf(w.s[b]) == k;
      } else if l.0 != 0 && v.device[l] != v.latest[l] {
        var c :| 0 <= c < |v.s| && c in v.pinned && KeyOf(v.s[c]) == l;
        assert KeyOf(w.s[c]) == l;
      }
    }
  }

  lemma UnpinOk(v: View, b: nat)
    requires ViewOk(v) && b in v.pinned && KeyOf(v.s[b]) in v.device && KeyOf(v.s[b]) in v.latest
             && v.device[KeyOf(v.s[b])] == v.latest[KeyOf(v.s[b])]
    ensures b < NBUF && v.s[b].refcnt > 0
    ensures ViewOk(v.(s := v.s[b := Released(v.s[b])], pinned := v.pinned - {b}))
  {
    assert CountOk(v, b);
    var w := v.(s := v.s[b := Released(v.s[b])], pinned := v.pinned - {b});
    forall c: nat | c < NBUF ensures CountOk(w, c) && CleanOk(w, c) { assert CountOk(v, c) && CleanOk(v, c); }
    forall l: Key ensures DeviceOk(w, l) {
      assert DeviceOk(v, l);
      if l.0 != 0 && v.device[l] != v.latest[l] {
        var c :| 0 <= c < |v.s| && c in v.pinned && KeyOf(v.s[c]) == l;
        assert c != b && KeyOf(w.s[c]) == l;
      }
    }
  }

  lemma ReleaseOk(v: View, b: nat)
    requires ViewOk(v) && b in v.locked
    requires v.s[b].valid && v.s[b].dev != 0 ==> KeyOf(v.s[b]) in v.latest && v.s[b].data == v.latest[KeyOf(v.s[b])]
    ensures b < NBUF && v.users[b] > 0 && v.s[b].refcnt > 0
    ensures ViewOk(v.(s := v.s[b := Released(v.s[b])], users := v.users[b := v.users[b] - 1], locked := v.locked - {b}))
  {
    assert CountOk(v, b);
    var w := v.(s := v.s[b := Released(v.s[b])], users := v.users[b := v.users[b] - 1], locked := v.locked - {b});
    forall c: nat | c < NBUF ensures CountOk(w, c) && CleanOk(w, c) { assert CountOk(v, c) && CleanOk(v, c); }
    forall k: Key ensures DeviceOk(w, k) { DeviceStays(v, w, k); }
  }

  /** Links do not matter to the view. */
  lemma RelinkOk(v: View, s: seq<Buf>, w: View, t: seq<Buf>)
    requires ViewOk(v) && v.s == s && w == v.(s := t) && SameBufs(s, t)
    ensures ViewOk(w)
  {
    forall c: nat | c < NBUF ensures CountOk(w, c) && CleanOk(w, c) { assert CountOk(v, c) && CleanOk(v, c); }
    forall k: Key ensures DeviceOk(w, k) { DeviceStays(v, w, k); }
  }

  lemma FrontAll(ring: seq<nat>, j: nat)
    requires |ring| == NBUF && j < NBUF && forall b: nat :: b < NBUF ==> b in ring
    ensures forall b: nat :: b < NBUF ==> b in [ring[j]] + Without(ring, j)
  {
    var r := [ring[j]] + Without(ring, j);
    forall b: nat | b < NBUF ensures b in r {
      assert b in ring;
      var i :| 0 <= i < |ring| && ring[i] == b;
      if i < j { assert r[i + 1] == b; } else if i > j { assert r[i] == b; } else { assert r[0] == b; }
    }
  }
}
