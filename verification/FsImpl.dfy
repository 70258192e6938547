/**
 The block and inode operations of kernel/fs.c on the volume: balloc, bfree, bmap,
 iupdate, itrunc, readi and writei, and filewrite of kernel/file.c.
 */
module FsImpl {
  import opened Common
  import opened Gates
  import opened FsDisk
  import opened FsVol
  import LogCore

  predicate IsBitmap(sb: Super, x: nat) {
    sb.bmapstart <= x < DataStart(sb)
  }

  predicate Full(sb: Super, d: Disk) {
    forall c: nat :: c < sb.size ==> BitOf(sb, d, c)
  }

  /**
   No block differs from what it was at the beginning of the transaction unless it was logged
   (unfolded only at a Gate).
   */
  ghost predicate Covered(base: Disk, disk: Disk, logged: set<nat>) {
    forall z: nat {:trigger Gate(z)} :: Gate(z) ==>
      forall b :: b !in logged ==> (b in disk <==> b in base) && (b in disk ==> disk[b] == base[b])
  }

  lemma CoveredNext(base: Disk, disk: Disk, logged: set<nat>, b: nat, c: Block)
    requires Covered(base, disk, logged)
    ensures Covered(base, disk[b := c], logged + {b})
  {
    assert Gate(0);
  }

  class Fs {
    const sb: Super
    var disk: Disk
    var node: map<nat, Inode>
    ghost var owner: map<nat, Ref>
    ghost var logged: set<nat>             // block numbers passed to log_write in this transaction
    ghost var base: Disk                   // the disk when the transaction began
    ghost var done: seq<set<nat>>          // the same for the transactions that have ended

    ghost function V(): Vol
      reads this
    {
      Vol(disk, node, owner)
    }

    ghost predicate Valid()
      reads this
    {
      VolIs(sb, V()) && Covered(base, disk, logged)
    }

    constructor (s: Super, d: Disk, ns: map<nat, Inode>, ghost os: map<nat, Ref>)
      requires VolIs(s, Vol(d, ns, os))
      ensures sb == s && disk == d && node == ns && Valid()
    {
      sb, disk, node, owner, logged, done, base := s, d, ns, os, {}, [], d;
    }

    method LogWrite(b: nat, c: Block)
      modifies this`disk, this`logged
      ensures disk == old(disk)[b := c] && logged == old(logged) + {b}
      ensures old(Covered(base, disk, logged)) ==> Covered(base, disk, logged)
    {
      if Covered(base, disk, logged) { CoveredNext(base, disk, logged, b, c); }
      disk := disk[b := c];
      logged := logged + {b};
    }

    /**
     balloc: the lowest free block, marked, zeroed and held by the caller; 0 exactly
     when every block is marked.
     */
    method Balloc() returns (r: nat)
      requires Valid()
      modifies this`disk, this`owner, this`logged
      ensures Valid() && SameFiles(old(V()), V()) && forall n: nat, i: nat :: Addr(V(), n, i) == Addr(old(V()), n, i)
      ensures r == 0 ==> V() == old(V()) && logged == old(logged) && Full(sb, disk)
      ensures r != 0 ==>
                DataStart(sb) <= r < sb.size && r !in old(owner) && owner == old(owner)[r := Held] && r in disk
                && disk[r] == Zeros()
      ensures r != 0 ==> (forall c: nat :: c < r ==> BitOf(sb, old(disk), c)) && !BitOf(sb, old(disk), r)
      ensures r != 0 ==> logged == old(logged) + {BBlock(sb, r), r}
    {
      SameFilesSelf(sb, V());
      var found;
      r, found := FindClear();
      if found {
        Take(r);
      }
    }

    /** The loops of balloc: the first block whose bit is clear. */
    method FindClear() returns (r: nat, found: bool)
      requires Valid()
      ensures found ==> r < sb.size && !BitOf(sb, disk, r) && forall c: nat :: c < r ==> BitOf(sb, disk, c)
      ensures !found ==> r == 0 && Full(sb, disk)
    {
      OpenVol(sb, V());
      var b := 0;
      while b < sb.size
        invariant b % BPB == 0 && forall c: nat :: c < b && c < sb.size ==> BitOf(sb, disk, c)
      {
        BBlockAt(sb, b);
        var bp := disk[BBlock(sb, b)];
        var bi := 0;
        while bi < BPB && b + bi < sb.size
          invariant 0 <= bi <= BPB && forall c: nat :: c < b + bi && c < sb.size ==> BitOf(sb, disk, c)
        {
          SameBitmap(sb, b, bi);
          if bp[bi / 8] & Mask(bi % 8) == 0 {
            return b + bi, true;
          }
          bi := bi + 1;
        }
        b := b + BPB;
      }
      return 0, false;
    }

    /** The rest of balloc once a free bit is found. */
    method Take(b: nat)
      requires Valid() && b < sb.size && !BitOf(sb, disk, b)
      modifies this`disk, this`owner, this`logged
      ensures Valid() && SameFiles(old(V()), V()) && forall n: nat, i: nat :: Addr(V(), n, i) == Addr(old(V()), n, i)
      ensures DataStart(sb) <= b && b !in old(owner) && owner == old(owner)[b := Held] && b in disk
              && disk[b] == Zeros()
      ensures logged == old(logged) + {BBlock(sb, b), b}
    {
      ghost var v0 := V();
      MarkOk(sb, v0, b);
      LogWrite(BBlock(sb, b), SetBit(disk[BBlock(sb, b)], b % BPB));
      owner := owner[b := Held];
      ghost var v1 := V();
      assert v1 == Marked(sb, v0, b);
      DataWriteOk(sb, v1, b, Zeros());
      LogWrite(b, Zeros());
      SameFilesBoth(v0, v1, V());
    }

    /**
     bmap: the block of file block `bn`, allocated if there was none; 0 only when the disk
     is full.  A block that was there is found without any change.
     */
    method Bmap(n: nat, bn: nat) returns (addr: nat)
      requires Valid() && n in node && bn < MAXFILE
      modifies this`disk, this`node, this`owner, this`logged
      ensures Valid() && SameFiles(old(V()), V()) && n in node
      ensures Addr(old(V()), n, bn) != 0 ==> addr == Addr(old(V()), n, bn) && V() == old(V()) && logged == old(logged)
      ensures Addr(V(), n, bn) == addr && (addr == 0 ==> Full(sb, disk))
      ensures AddrsBut(old(V()), V(), n, bn) && HeldStays(old(owner), owner) && node == old(node)[n := node[n]]
      ensures IndOf(old(V()), n) != 0 ==> IndOf(V(), n) == IndOf(old(V()), n)
      ensures LoggedIn(sb, V(), n, bn, bn, old(logged), logged)
    {
      OpenVol(sb, V());
      assert NodeOk(sb, V(), n);
      SameFilesSelf(sb, V());
      if bn < NDIRECT {
        addr := node[n].addrs[bn];
        if addr == 0 {
          addr := NewDirect(n, bn);
        }
        return;
      }
      ghost var v0 := V();
      if node[n].addrs[NDIRECT] == 0 {
        var ok := NewIndirect(n);
        if !ok {
          return 0;
        }
      }
      ghost var v1, logged1 := V(), logged;
      addr := IndirectEntry(n, bn);
      SameFilesBoth(v0, v1, V());
      LoggedBoth(sb, v1, V(), n, bn, old(logged), logged1, logged);
    }

    /** bmap's allocation of the indirect block. */
    method NewIndirect(n: nat) returns (ok: bool)
      requires Valid() && n in node && IndOf(V(), n) == 0
      modifies this`disk, this`node, this`owner, this`logged
      ensures Valid() && SameFiles(old(V()), V()) && n in node
              && forall m: nat, j: nat :: Addr(V(), m, j) == Addr(old(V()), m, j)
      ensures HeldStays(old(owner), owner) && (ok <==> IndOf(V(), n) != 0) && node == old(node)[n := node[n]]
      ensures !ok ==> Full(sb, disk) && V() == old(V())
      ensures LoggedIn(sb, V(), n, 1, 0, old(logged), logged)
    {
      var b := Balloc();
      if b == 0 {
        return false;
      }
      ghost var v1 := V();
      IndirectOk(sb, v1, n, b);
      node := node[n := node[n].(addrs := node[n].addrs[NDIRECT := b])];
      owner := owner[b := Ind(n)];
      assert V() == WithInd(v1, n, b);
      SameFilesBoth(old(V()), v1, V());
      BitmapLogged(sb, b) by { OpenVol(sb, v1); }
      ok := true;
    }

    /** bmap's use of the indirect block. */
    method IndirectEntry(n: nat, bn: nat) returns (addr: nat)
      requires Valid() && n in node && NDIRECT <= bn < MAXFILE && IndOf(V(), n) != 0
      modifies this`disk, this`owner, this`logged
      ensures Valid() && SameFiles(old(V()), V())
      ensures Addr(old(V()), n, bn) != 0 ==> addr == Addr(old(V()), n, bn) && V() == old(V()) && logged == old(logged)
      ensures Addr(V(), n, bn) == addr && (addr == 0 ==> Full(sb, disk))
      ensures AddrsBut(old(V()), V(), n, bn) && HeldStays(old(owner), owner)
      ensures LoggedIn(sb, V(), n, bn, bn, old(logged), logged)
    {
      var ind := node[n].addrs[NDIRECT];
      IndAt(sb, V(), n);
      SameFilesSelf(sb, V());
      addr := U32At(disk[ind], bn - NDIRECT);
      if addr == 0 {
        addr := NewEntry(n, bn, ind);
      }
    }

    method NewEntry(n: nat, bn: nat, ind: nat) returns (addr: nat)
      requires Valid() && n in node && NDIRECT <= bn < MAXFILE && ind != 0 && IndOf(V(), n) == ind
               && Addr(V(), n, bn) == 0
      modifies this`disk, this`owner, this`logged
      ensures Valid() && SameFiles(old(V()), V())
      ensures Addr(V(), n, bn) == addr && (addr == 0 ==> Full(sb, disk))
      ensures AddrsBut(old(V()), V(), n, bn) && HeldStays(old(owner), owner)
      ensures LoggedIn(sb, V(), n, bn, bn, old(logged), logged)
    {
      addr := Balloc();
      if addr == 0 {
        return;
      }
      ghost var v1 := V();
      EntryRoom(sb, v1, n, addr);
      var r := PutU32(disk[ind], bn - NDIRECT, addr);
      EntryOk(sb, v1, n, bn, addr, r);
      LogWrite(ind, r);
      owner := owner[addr := Data(n, bn)];
      assert V() == WithEntry(v1, n, bn, addr, r);
      SameFilesBoth(old(V()), v1, V());
      BitmapLogged(sb, addr) by { OpenVol(sb, v1); }
      assert IsBlock(V(), n, bn, addr) && IsInd(V(), n, ind);
    }

    method NewDirect(n: nat, bn: nat) returns (addr: nat)
      requires Valid() && n in node && bn < NDIRECT && Addr(V(), n, bn) == 0
      modifies this`disk, this`node, this`owner, this`logged
      ensures Valid() && SameFiles(old(V()), V()) && n in node
      ensures Addr(V(), n, bn) == addr && (addr == 0 ==> Full(sb, disk))
      ensures AddrsBut(old(V()), V(), n, bn) && HeldStays(old(owner), owner) && node == old(node)[n := node[n]]
      ensures IndOf(V(), n) == IndOf(old(V()), n)
      ensures LoggedIn(sb, V(), n, bn, bn, old(logged), logged)
    {
      addr := Balloc();
      if addr == 0 {
        return;
      }
      ghost var v1 := V();
      DirectOk(sb, v1, n, bn, addr);
      node := node[n := node[n].(addrs := node[n].addrs[bn := addr])];
      owner := owner[addr := Data(n, bn)];
      assert V() == WithDirect(v1, n, bn, addr);
      SameFilesBoth(old(V()), v1, V());
      BitmapLogged(sb, addr) by { OpenVol(sb, v1); }
      assert IsBlock(V(), n, bn, addr);
    }

    /** iupdate: the inode on disk is the inode in memory, and nothing else changes. */
    method Iupdate(n: nat)
      requires Valid() && n in node
      modifies this`disk, this`logged
      ensures Valid() && SameFiles(old(V()), V()) && forall m: nat, i: nat :: Addr(V(), m, i) == Addr(old(V()), m, i)
      ensures OnDisk(sb, V(), n) && forall m :: m in node && m != n && OnDisk(sb, old(V()), m) ==> OnDisk(sb, V(), m)
      ensures logged == old(logged) + {IBlock(sb, n)} && IBlock(sb, n) in disk
              && disk == old(disk)[IBlock(sb, n) := disk[IBlock(sb, n)]]
      ensures IBlock(sb, n) < sb.bmapstart
    {
      ghost var v0 := V();
      InodeAt(sb, v0, n);
      var x := IBlock(sb, n);
      InodeWriteOk(sb, v0, x, PutInode(disk[x], n % IPB, node[n]));
      forall m | m in node ensures m == n || OnDisk(sb, v0, m) ==>
          OnDisk(sb, v0.(disk := v0.disk[x := PutInode(v0.disk[x], n % IPB, node[n])]), m) {
        InodeAt(sb, v0, m);
        InodeRoundTrip(v0.disk[x], n % IPB, node[n], m % IPB);
      }
      LogWrite(x, PutInode(disk[x], n % IPB, node[n]));
    }

    /** bfree: it panics exactly on a block that is not marked. */
    method Bfree(b: nat) returns (panicked: bool)
      requires BBlock(sb, b) in disk && |disk[BBlock(sb, b)]| == BSIZE
      modifies this`disk, this`logged
      ensures panicked <==> !BitOf(sb, old(disk), b)
      ensures panicked ==> disk == old(disk) && logged == old(logged)
      ensures !panicked ==>
                disk == old(disk)[BBlock(sb, b) := ClearBit(old(disk)[BBlock(sb, b)], b % BPB)]
                && logged == old(logged) + {BBlock(sb, b)}
      ensures old(Covered(base, disk, logged)) ==> Covered(base, disk, logged)
    {
      var bp := disk[BBlock(sb, b)];
      var bi := b % BPB;
      if bp[bi / 8] & Mask(bi % 8) == 0 {
        return true;
      }
      LogWrite(BBlock(sb, b), ClearBit(bp, bi));
      panicked := false;
    }

    /** bfree of a block that the caller holds in volume `g`. */
    method FreeHeld(b: nat, ghost g: Vol) returns (panicked: bool, ghost h: Vol)
      requires VolIs(sb, g) && g.disk == disk && b in g.owner && g.owner[b] == Held
      requires Covered(base, disk, logged)
      modifies this`disk, this`logged
      ensures Covered(base, disk, logged)
      ensures !panicked && VolIs(sb, h) && h == Vol(disk, g.node, g.owner - {b}) && SameFiles(g, h)
      ensures forall n: nat, i: nat :: Addr(h, n, i) == Addr(g, n, i)
    {
      UnmarkOk(sb, g, b);
      panicked := Bfree(b);
      h := Unmarked(sb, g, b);
    }

    /** One round of itrunc's first loop, on the volume `g` in which the file is already empty. */
    method FreeDirect(n: nat, i: nat, ghost g: Vol) returns (panicked: bool, ghost h: Vol)
      requires n in node && |node[n].addrs| == NDIRECT + 1 && i < NDIRECT && node[n].addrs[i] != 0
      requires VolIs(sb, g) && g == Vol(disk, node[n := node[n].(size := 0)], owner)
      requires Covered(base, disk, logged)
      modifies this`disk, this`node, this`owner, this`logged
      ensures Covered(base, disk, logged)
      ensures !panicked && node == old(node)[n := old(node)[n].(addrs := old(node)[n].addrs[i := 0])]
      ensures VolIs(sb, h) && h == Vol(disk, node[n := node[n].(size := 0)], owner) && OthersKept(g, h, n)
      ensures old(node)[n].addrs[i] in g.owner && g.owner[old(node)[n].addrs[i]] == Data(n, i)
              && owner == old(owner) - {old(node)[n].addrs[i]}
    {
      var b := node[n].addrs[i];
      WithoutDirectOk(sb, g, n, i);
      ghost var g1 := WithoutDirect(g, n, i);
      panicked, h := FreeHeld(b, g1);
      node := node[n := node[n].(addrs := node[n].addrs[i := 0])];
      owner := owner - {b};
      assert h == Vol(disk, node[n := node[n].(size := 0)], owner);
      OthersBoth(g, g1, h, n);
    }

    /** itrunc's first loop. */
    method FreeDirects(n: nat, ghost g: Vol) returns (panicked: bool, ghost h: Vol)
      requires n in node && |node[n].addrs| == NDIRECT + 1 && VolIs(sb, g)
               && g == Vol(disk, node[n := node[n].(size := 0)], owner)
      requires Covered(base, disk, logged)
      modifies this`disk, this`node, this`owner, this`logged
      ensures Covered(base, disk, logged)
      ensures !panicked && n in node && |node[n].addrs| == NDIRECT + 1
              && (forall j :: 0 <= j < NDIRECT ==> node[n].addrs[j] == 0)
      ensures node == old(node)[n := old(node)[n].(addrs := node[n].addrs)]
              && node[n].addrs[NDIRECT] == old(node)[n].addrs[NDIRECT]
      ensures VolIs(sb, h) && h == Vol(disk, node[n := node[n].(size := 0)], owner) && OthersKept(g, h, n)
      ensures Freed(old(owner), owner, n, NDIRECT)
    {
      h := g;
      panicked := false;
      OthersSelf(sb, g, n);
      var i := 0;
      while i < NDIRECT
        invariant 0 <= i <= NDIRECT && !panicked && n in node && |node[n].addrs| == NDIRECT + 1
        invariant forall j :: 0 <= j < i ==> node[n].addrs[j] == 0
        invariant node == old(node)[n := old(node)[n].(addrs := node[n].addrs)]
                  && node[n].addrs[NDIRECT] == old(node)[n].addrs[NDIRECT]
        invariant VolIs(sb, h) && h == Vol(disk, node[n := node[n].(size := 0)], owner) && OthersKept(g, h, n)
        invariant Freed(old(owner), owner, n, i) && Covered(base, disk, logged)
      {
        ghost var h1, owner1 := h, owner;
        if node[n].addrs[i] != 0 {
          panicked, h := FreeDirect(n, i, h);
          OthersBoth(g, h1, h, n);
          FreedNext(sb, h1, old(owner), owner, n, i);
        } else {
          FreedSkip(sb, h, old(owner), owner, n, i);
        }
        i := i + 1;
      }
    }

    /** itrunc's second part, on the volume `g` in which the indirect block is already out of the inode. */
    method FreeEntries(ind: nat, n: nat, ghost g: Vol, ghost h: Vol) returns (panicked: bool, ghost w: Vol)
      requires VolIs(sb, g) && g.disk == disk && n in g.node && IndOf(g, n) == ind && ind != 0
      requires ind in disk && |disk[ind]| == BSIZE && |g.node[n].addrs| == NDIRECT + 1
      requires VolIs(sb, h) && h == WithoutInd(g, n)
      requires g.owner.Keys == h.owner.Keys && forall j: nat :: NDIRECT <= j < MAXFILE && Addr(g, n, j) != 0 ==>
               Addr(g, n, j) in g.owner && g.owner[Addr(g, n, j)] == Data(n, j)
      requires Covered(base, disk, logged)
      modifies this`disk, this`logged
      ensures Covered(base, disk, logged)
      ensures !panicked && VolIs(sb, w) && w.disk == disk && w.node == h.node && OthersKept(h, w, n)
      ensures EntriesFreed(g.owner, h.owner, w.owner, n, MAXFILE)
    {
      var bp := disk[ind];
      w := h;
      panicked := false;
      OthersSelf(sb, h, n);
      var j := 0;
      while j < NINDIRECT
        invariant 0 <= j <= NINDIRECT && !panicked && VolIs(sb, w) && w.disk == disk && w.node == h.node
                  && OthersKept(h, w, n)
        invariant EntriesFreed(g.owner, h.owner, w.owner, n, NDIRECT + j) && Covered(base, disk, logged)
      {
        assert Addr(g, n, NDIRECT + j) == U32At(bp, j);
        ghost var w1 := w;
        if U32At(bp, j) != 0 {
          panicked, w := FreeHeld(U32At(bp, j), w);
          OthersBoth(h, w1, w, n);
        }
        EntriesNext(sb, g, h.owner, w1.owner, w.owner, n, NDIRECT + j);
        j := j + 1;
      }
    }

    /** itrunc's second part: the entries of the indirect block, then the block itself. */
    method FreeIndirect(n: nat, ghost g: Vol) returns (panicked: bool, ghost h: Vol)
      requires n in node && |node[n].addrs| == NDIRECT + 1 && node[n].addrs[NDIRECT] != 0
      requires VolIs(sb, g) && g == Vol(disk, node[n := node[n].(size := 0)], owner)
      requires Covered(base, disk, logged)
      modifies this`disk, this`node, this`owner, this`logged
      ensures Covered(base, disk, logged)
      ensures !panicked && node == old(node)[n := old(node)[n].(addrs := old(node)[n].addrs[NDIRECT := 0])]
      ensures VolIs(sb, h) && h == Vol(disk, node[n := node[n].(size := 0)], owner) && OthersKept(g, h, n)
      ensures IndirectFreed(old(owner), owner, n)
    {
      var ind := node[n].addrs[NDIRECT];
      IndAt(sb, g, n);
      WithoutIndOk(sb, g, n);
      ghost var g1 := WithoutInd(g, n);
      ghost var g2;
      panicked, g2 := FreeEntries(ind, n, g, g1);
      OthersBoth(g, g1, g2, n);
      panicked, h := FreeHeld(ind, g2);
      OthersBoth(g, g2, h, n);
      node := node[n := node[n].(addrs := node[n].addrs[NDIRECT := 0])];
      owner := h.owner;
      assert h == Vol(disk, node[n := node[n].(size := 0)], owner);
      IndirectIs(sb, g, g1.owner, g2.owner, owner, n);
    }

    /**
     itrunc: the file is empty in memory and on disk, exactly its blocks are free again,
     bfree meets no free block, and other files are untouched.
     */
    method Itrunc(n: nat) returns (panicked: bool)
      requires Valid() && n in node
      modifies this`disk, this`node, this`owner, this`logged
      ensures !panicked && Valid() && n in node && OnDisk(sb, V(), n)
      ensures node == old(node)[n := old(node)[n].(size := 0, addrs := node[n].addrs)]
      ensures |node[n].addrs| == NDIRECT + 1 && forall i :: 0 <= i <= NDIRECT ==> node[n].addrs[i] == 0
      ensures OthersKept(old(V()), V(), n) && AllFreed(old(owner), owner, n)
      ensures SameContents(old(V()), V(), n)
    {
      ghost var v0 := V();
      panicked := Truncate(n);
      OthersContents(sb, v0, V(), n);
    }

    /** itrunc on the volume. */
    method Truncate(n: nat) returns (panicked: bool)
      requires Valid() && n in node
      modifies this`disk, this`node, this`owner, this`logged
      ensures !panicked && Valid() && n in node && OnDisk(sb, V(), n)
      ensures node == old(node)[n := old(node)[n].(size := 0, addrs := node[n].addrs)]
      ensures |node[n].addrs| == NDIRECT + 1 && forall i :: 0 <= i <= NDIRECT ==> node[n].addrs[i] == 0
      ensures OthersKept(old(V()), V(), n) && AllFreed(old(owner), owner, n)
    {
      ghost var v0 := V();
      InodeAt(sb, v0, n);
      SizeOk(sb, v0, n, 0);
      ghost var g := v0.(node := v0.node[n := v0.node[n].(size := 0)]);
      ghost var h;
      panicked, h := FreeBlocks(n, g);
      node := node[n := node[n].(size := 0)];
      Iupdate(n);
      OthersBoth(g, h, V(), n);
      TruncOthers(sb, v0, g, V(), n);
    }

    /** Both loops of itrunc. */
    method FreeBlocks(n: nat, ghost g: Vol) returns (panicked: bool, ghost h: Vol)
      requires n in node && |node[n].addrs| == NDIRECT + 1 && VolIs(sb, g)
               && g == Vol(disk, node[n := node[n].(size := 0)], owner)
      requires Covered(base, disk, logged)
      modifies this`disk, this`node, this`owner, this`logged
      ensures Covered(base, disk, logged)
      ensures !panicked && n in node && |node[n].addrs| == NDIRECT + 1
              && (forall j :: 0 <= j <= NDIRECT ==> node[n].addrs[j] == 0)
      ensures node == old(node)[n := old(node)[n].(addrs := node[n].addrs)]
      ensures VolIs(sb, h) && h == Vol(disk, node[n := node[n].(size := 0)], owner) && OthersKept(g, h, n)
      ensures AllFreed(old(owner), owner, n)
    {
      panicked, h := FreeDirects(n, g);
      if node[n].addrs[NDIRECT] != 0 {
        ghost var h1 := h;
        panicked, h := FreeIndirect(n, h);
        OthersBoth(g, h1, h, n);
      } else {
        NoEntries(sb, h, n);
      }
    }

    /**
     readi: exactly the requested slice of the file, cut off at its end; nothing is
     allocated or logged.  `room` is how many bytes the destination can take.
     */
    method Readi(n: nat, off: nat, len: nat, room: nat) returns (r: int, dst: seq<bv8>)
      requires Valid() && n in node && off < U32 && len < U32
      modifies this`disk, this`node, this`owner, this`logged
      ensures V() == old(V()) && logged == old(logged)
      ensures off > node[n].size || off + len >= U32 ==> r == 0 && dst == []
      ensures off <= node[n].size && off + len < U32 ==>
                var cnt := if off + len > node[n].size then node[n].size - off else len;
                if cnt <= room then r == cnt && dst == Content(V(), n)[off..off + cnt] else r == -1
    {
      if off > node[n].size || (off + len) % U32 < off {
        return 0, [];
      }
      var cnt := if off + len > node[n].size then node[n].size - off else len;
      r, dst := ReadPieces(n, off, cnt, room);
    }

    /** The loop of readi.  There are no holes, so bmap always finds a block. */
    method ReadPieces(n: nat, off: nat, cnt: nat, room: nat) returns (r: int, dst: seq<bv8>)
      requires Valid() && n in node && off + cnt <= node[n].size
      modifies this`disk, this`node, this`owner, this`logged
      ensures V() == old(V()) && logged == old(logged)
      ensures if cnt <= room then r == cnt && dst == Content(V(), n)[off..off + cnt] else r == -1
    {
      ghost var v0, s := V(), Content(V(), n);
      dst := [];
      while |dst| < cnt
        invariant |dst| <= cnt && V() == v0 && logged == old(logged) && |dst| <= room && dst == s[off..off + |dst|]
        decreases cnt - |dst|
      {
        var o := off + |dst|;
        var piece := ReadPiece(n, o, cnt - |dst|);
        assert piece == s[o..o + |piece|];
        if |dst| + |piece| > room {
          return -1, dst;
        }
        PieceJoins(s, off, dst, piece);
        dst := dst + piece;
      }
      r := |dst|;
    }

    /** One round of readi: bmap, bread and the bytes copied out. */
    method ReadPiece(n: nat, o: nat, left: nat) returns (piece: seq<bv8>)
      requires Valid() && n in node && 0 < left && o + left <= node[n].size
      modifies this`disk, this`node, this`owner, this`logged
      ensures V() == old(V()) && logged == old(logged) && 0 < |piece| <= left
              && piece == Content(V(), n)[o..o + |piece|]
    {
      var m := PieceLen(o, left);
      BlockAt(sb, V(), n, o);
      var addr := Bmap(n, o / BSIZE);
      ReadBlock(sb, V(), n, o, m);
      piece := disk[addr][o % BSIZE..o % BSIZE + m];
    }

    /** One round of writei: bmap, and the bytes copied in and logged; 0 when either fails. */
    method WritePiece(n: nat, off: nat, src: seq<bv8>, tot: nat, avail: nat, ghost v0: Vol, ghost logged0: set<nat>)
        returns (m: nat)
      requires Valid() && tot < |src| && off + |src| <= MAXFILE * BSIZE && n in v0.node && off <= v0.node[n].size
               && Written(v0, V(), n, off, src, tot)
      requires LoggedIn(sb, V(), n, off / BSIZE, (off + |src| - 1) / BSIZE, logged0, logged)
      modifies this`disk, this`node, this`owner, this`logged
      ensures Valid() && tot + m <= |src| && Written(v0, V(), n, off, src, tot + m) && HeldStays(old(owner), owner)
      ensures (m == 0 ==> Full(sb, disk) || avail < |src|) && (m > 0 ==> tot + m <= avail)
      ensures LoggedIn(sb, V(), n, off / BSIZE, (off + |src| - 1) / BSIZE, logged0, logged)
    {
      ghost var lo, hi := off / BSIZE, (off + |src| - 1) / BSIZE;
      var o := off + tot;
      var addr := PieceBlock(n, off, src, tot, v0, logged0, lo, hi);
      ghost var v1 := V();
      m := PieceLen(o, |src| - tot);
      if addr == 0 || tot + m > avail {
        m := 0;
        return;
      }
      PutPiece(n, off, src, tot, m, o, addr, v0, logged0, lo, hi);
    }

    /** The copy into the block and its log_write. */
    method PutPiece(n: nat, off: nat, src: seq<bv8>, tot: nat, m: nat, o: nat, addr: nat, ghost v0: Vol,
        ghost logged0: set<nat>, ghost lo: nat, ghost hi: nat)
      requires Valid() && Written(v0, V(), n, off, src, tot) && m > 0 && tot + m <= |src| && o == off + tot
      requires o % BSIZE + m <= BSIZE && lo <= o / BSIZE <= hi < MAXFILE
               && LoggedIn(sb, V(), n, lo, hi, logged0, logged)
      requires addr == Addr(V(), n, o / BSIZE) && addr != 0
      modifies this`disk, this`logged
      ensures Valid() && Written(v0, V(), n, off, src, tot + m) && LoggedIn(sb, V(), n, lo, hi, logged0, logged)
    {
      ghost var v1 := V();
      WrittenNext(sb, v0, v1, n, off, src, tot, m);
      var block := Splice(disk[addr], o % BSIZE, src[tot..tot + m]);
      LoggedBlock(sb, v1, v1.(disk := v1.disk[addr := block]), n, lo, hi, o / BSIZE, logged0, logged);
      LogWrite(addr, block);
    }

    /** writei's call of bmap. */
    method PieceBlock(n: nat, off: nat, src: seq<bv8>, tot: nat, ghost v0: Vol, ghost logged0: set<nat>, ghost lo: nat,
        ghost hi: nat)
        returns (addr: nat)
      requires Valid() && tot < |src| && off + |src| <= MAXFILE * BSIZE && n in v0.node
               && Written(v0, V(), n, off, src, tot)
      requires lo == off / BSIZE && hi == (off + |src| - 1) / BSIZE && LoggedIn(sb, V(), n, lo, hi, logged0, logged)
      modifies this`disk, this`node, this`owner, this`logged
      ensures Valid() && Written(v0, V(), n, off, src, tot) && HeldStays(old(owner), owner)
      ensures lo <= (off + tot) / BSIZE <= hi < MAXFILE && LoggedIn(sb, V(), n, lo, hi, logged0, logged)
      ensures addr == Addr(V(), n, (off + tot) / BSIZE) && (addr == 0 ==> Full(sb, disk))
    {
      var bn := (off + tot) / BSIZE;
      ghost var v := V();
      BlockRange(off, tot, |src|);
      addr := Bmap(n, bn);
      LoggedMore(sb, v, V(), n, lo, hi, bn, logged0, old(logged), logged);
      WrittenStays(v0, v, V(), n, off, src, tot);
    }

    /** The loop of writei. */
    method WritePieces(n: nat, off: nat, src: seq<bv8>, avail: nat) returns (tot: nat)
      requires Valid() && n in node && off <= node[n].size && off + |src| <= MAXFILE * BSIZE
      modifies this`disk, this`node, this`owner, this`logged
      ensures Valid() && tot <= |src| && Written(old(V()), V(), n, off, src, tot) && HeldStays(old(owner), owner)
      ensures (tot < |src| ==> Full(sb, disk) || avail < |src|) && tot <= avail
      ensures LoggedIn(sb, V(), n, off / BSIZE, if |src| == 0 then 0
              else (off + |src| - 1) / BSIZE, old(logged), logged)
    {
      ghost var v0 := V();
      WrittenStart(sb, v0, n, off, src);
      tot := 0;
      while tot < |src|
        invariant tot <= |src| && Valid() && Written(v0, V(), n, off, src, tot) && HeldStays(old(owner), owner)
        invariant tot <= avail
        invariant |src| > 0 ==> LoggedIn(sb, V(), n, off / BSIZE, (off + |src| - 1) / BSIZE, old(logged), logged)
        invariant |src| == 0 ==> logged == old(logged)
      {
        ghost var owner1 := owner;
        var m := WritePiece(n, off, src, tot, avail, v0, old(logged));
        if m == 0 {
          break;
        }
        tot := tot + m;
      }
    }

    /**
     writei: the bytes written are spliced into the file, growing it as needed; all other
     files are untouched and the inode on disk follows.  It writes less than asked only
     when the disk is full or the source cannot be read.
     */
    method Writei(n: nat, off: nat, src: seq<bv8>, avail: nat) returns (r: int)
      requires Valid() && n in node && off < U32 && |src| < U32
      modifies this`disk, this`node, this`owner, this`logged
      ensures Valid() && n in node && HeldStays(old(owner), owner)
      ensures -1 <= r <= |src|
              && (r == -1 <==> off > old(node)[n].size || off + |src| >= U32 || off + |src| > MAXFILE * BSIZE)
      ensures r == -1 ==> V() == old(V()) && logged == old(logged)
      ensures r >= 0 ==> Content(V(), n) == Spliced(Content(old(V()), n), off, src[..r])
      ensures r >= 0 ==> OthersKept(old(V()), V(), n) && OnDisk(sb, V(), n)
      ensures SameContents(old(V()), V(), n)
      ensures (0 <= r < |src| ==> Full(sb, disk) || avail < |src|) && r <= avail
      ensures |src| <= 3 * BSIZE && sb.size < BPB ==> |logged - old(logged)| <= 7
    {
      if off > node[n].size || (off + |src|) % U32 < off {
        return -1;
      }
      if off + |src| > MAXFILE * BSIZE {
        return -1;
      }
      ghost var v0 := V();
      var tot := WritePieces(n, off, src, avail);
      r := tot;
      FinishWrite(n, off, src, tot, v0, old(logged), avail);
      OthersContents(sb, v0, V(), n);
    }

    /** The end of writei: the size and the inode on disk. */
    method FinishWrite(n: nat, off: nat, src: seq<bv8>, tot: nat, ghost v0: Vol, ghost logged0: set<nat>,
        ghost avail: nat)
      requires Valid() && VolIs(sb, v0) && Written(v0, V(), n, off, src, tot) && off <= v0.node[n].size
               && off + |src| <= MAXFILE * BSIZE
      requires tot < |src| ==> Full(sb, disk) || avail < |src|
      requires LoggedIn(sb, V(), n, off / BSIZE, if |src| == 0 then 0 else (off + |src| - 1) / BSIZE, logged0, logged)
      modifies this`disk, this`node, this`logged
      ensures Valid() && n in node && Content(V(), n) == Spliced(Content(v0, n), off, src[..tot])
      ensures OthersKept(v0, V(), n) && OnDisk(sb, V(), n)
      ensures tot < |src| ==> Full(sb, disk) || avail < |src|
      ensures |src| <= 3 * BSIZE && sb.size < BPB ==> |logged - logged0| <= 7
    {
      ghost var v1 := V();
      LoggedCount(sb, v1, n, off, |src|, logged0, logged);
      SizedIs(sb, v0, v1, n, off, src, tot);
      if off + tot > node[n].size {
        node := node[n := node[n].(size := off + tot)];
      }
      ghost var v2 := V();
      assert v2 == Sized(v1, n, off + tot);
      Iupdate(n);
      OthersBoth(v0, v2, V(), n);
      SameContent(sb, v2, V(), n);
      FullStays(sb, v2, disk, IBlock(sb, n));
    }

    /** One transaction of filewrite: begin_op, writei and end_op. */
    method WriteChunk(n: nat, off: nat, chunk: seq<bv8>, avail: nat, ghost since: nat) returns (r: int)
      requires Valid() && n in node && off < U32 && |chunk| <= 3 * BSIZE && SmallSince(sb, since, done)
      modifies this
      ensures Valid() && n in node && -1 <= r <= |chunk| && HeldStays(old(owner), owner)
      ensures |done| == |old(done)| + 1 && SmallSince(sb, since, done)
      ensures r == -1 ==> V() == old(V())
      ensures r >= 0 <==> off <= old(node)[n].size && off + |chunk| <= MAXFILE * BSIZE
      ensures (0 <= r < |chunk| ==> Ends(sb, disk, avail, |chunk|)) && r <= avail
      ensures r >= 0 ==> ChunkIn(old(V()), V(), n, off, chunk, r)
    {
      logged, base := {}, disk;
      ghost var v0 := V();
      r := Writei(n, off, chunk, avail);
      if r >= 0 { ChunkIsIn(v0, V(), n, off, chunk, r); }
      assert logged - {} == logged;
      done := done + [logged];
      SmallMore(sb, since, old(done), done);
    }

    /**
     filewrite on an inode: transaction after transaction of at most three blocks.  What
     was written in all, which the new offset tells, is spliced into the file; the return
     value is the length only when that is everything.  Otherwise the offset is beyond the
     file, the file would be too long, the disk is full or the source cannot be read.
     */
    method Filewrite(n: nat, foff: nat, src: seq<bv8>, avail: nat) returns (ret: int, off: nat, ghost stages: seq<Vol>)
      requires Valid() && n in node && foff < U32 && |src| < 0x8000_0000
      modifies this
      ensures Valid() && n in node && OthersKept(old(V()), V(), n) && HeldStays(old(owner), owner)
      ensures foff <= off <= foff + |src| && ret == if off - foff == |src| then |src| else -1
      ensures ret == -1 ==>
                foff > old(node)[n].size || foff + |src| > MAXFILE * BSIZE || Full(sb, disk) || avail < |src|
      ensures ret == |src| && src != [] ==>
                foff <= old(node)[n].size && foff + |src| <= MAXFILE * BSIZE && |src| <= avail
      ensures foff > old(node)[n].size ==> off == foff && V() == old(V())
      ensures foff <= old(node)[n].size ==> Content(V(), n) == Spliced(Content(old(V()), n), foff, src[..off - foff])
      ensures |done| >= |old(done)| && (sb.size < BPB ==> forall t :: |old(done)| <= t < |done| ==> |done[t]| <= 7)
      ensures SameContents(old(V()), V(), n)
      ensures |stages| == 1 + |done| - |old(done)| > 0 && stages[0] == old(V()) && stages[|stages| - 1] == V()
      ensures forall t :: 0 <= t < |stages| ==> VolIs(sb, stages[t]) && PartWritten(old(V()), stages[t], n, foff, src)
    {
      ghost var v0 := V();
      var w;
      ret, w, stages := WriteChunks(n, foff, src, avail, v0);
      off := foff + w;
      if ret == -1 && !TooLong(v0, n, foff, src) { EndsIs(sb, disk, avail, |src|); }
      FileSplicedIs(v0, V(), n, foff, src, w);
      SmallSinceIs(sb, |old(done)|, done);
      OthersContents(sb, v0, V(), n);
      StagedIs(sb, v0, n, foff, src, stages);
    }

    /** The loop of filewrite; `w` is how far f->off has moved. */
    method WriteChunks(n: nat, foff: nat, src: seq<bv8>, avail: nat, ghost v0: Vol)
      returns (ret: int, w: nat, ghost stages: seq<Vol>)
      requires Valid() && n in node && foff < U32 && |src| < 0x8000_0000 && v0 == V()
      modifies this
      ensures Valid() && HeldStays(old(owner), owner) && w <= |src| && ret == if w == |src| then |src| else -1
      ensures FileSpliced(v0, V(), n, foff, src, w) && SmallSince(sb, |old(done)|, done)
      ensures ret == -1 ==> TooLong(v0, n, foff, src) || Ends(sb, disk, avail, |src|)
      ensures ret == |src| && src != [] ==> !TooLong(v0, n, foff, src) && |src| <= avail
      ensures |stages| == 1 + |done| - |old(done)| > 0 && stages[0] == v0 && stages[|stages| - 1] == V()
      ensures Staged(sb, v0, n, foff, src, stages)
    {
      var max := (LogCore.MAXOPBLOCKS - 1 - 1 - 2) / 2 * BSIZE;
      var i := 0;
      w := 0;
      SplicedStart(sb, v0, n, foff, src);
      stages := [v0];
      StagedNext(sb, v0, n, foff, src, [], v0, 0);
      assert [] + [v0] == [v0];
      while i < |src|
        invariant 0 <= i == w <= |src| && foff + i < U32 && Valid() && HeldStays(old(owner), owner)
        invariant FileSpliced(v0, V(), n, foff, src, w) && SmallSince(sb, |old(done)|, done)
        invariant i <= avail && (i == |src| > 0 ==> !TooLong(v0, n, foff, src))
        invariant |stages| == 1 + |done| - |old(done)| > 0 && stages[0] == v0 && stages[|stages| - 1] == V()
        invariant Staged(sb, v0, n, foff, src, stages)
      {
        var n1 := if |src| - i > max then max else |src| - i;
        var r;
        r, w := WriteNext(n, foff, src, w, n1, avail, v0, |old(done)|);
        StagedNext(sb, v0, n, foff, src, stages, V(), w);
        stages := stages + [V()];
        if r != n1 {
          break;
        }
        i := i + r;
      }
      ret := if i == |src| then |src| else -1;
    }

    /** One round of filewrite's loop. */
    method WriteNext(n: nat, foff: nat, src: seq<bv8>, i: nat, n1: nat, avail: nat, ghost v0: Vol, ghost since: nat)
        returns (r: int, next: nat)
      requires Valid() && foff + i < U32 && i + n1 <= |src| && 0 < n1 <= 3 * BSIZE
      requires FileSpliced(v0, V(), n, foff, src, i) && SmallSince(sb, since, done)
      modifies this
      ensures Valid() && -1 <= r <= n1 && HeldStays(old(owner), owner) && SmallSince(sb, since, done)
      ensures FileSpliced(v0, V(), n, foff, src, next) && next == if r > 0 then i + r else i
      ensures r >= 0 ==> foff + i + n1 <= MAXFILE * BSIZE
      ensures r != n1 ==> TooLong(v0, n, foff, src) || Ends(sb, disk, avail, |src|)
      ensures r == n1 ==> i + n1 <= avail && (i + n1 == |src| ==> !TooLong(v0, n, foff, src))
      ensures |done| == |old(done)| + 1
    {
      SplicedNode(v0, V(), n, foff, src, i);
      SplicedSize(v0, V(), n, foff, src, i);
      ghost var v1 := V();
      var left, chunk, off := if avail > i then avail - i else 0, src[i..i + n1], foff + i;
      r := WriteChunk(n, off, chunk, left, since);
      next := if r > 0 then i + r else i;
      if 0 <= r < n1 {
        EndsLater(sb, disk, left, n1, avail, i, |src|);
      }
      ChunkSpliced(v0, v1, V(), n, foff, src, i, r, n1, off, chunk, next);
    }
  }

  /** No file block moves but block `i` of inode `n`. */
  ghost predicate AddrsBut(v: Vol, w: Vol, n: nat, i: nat) {
    forall m: nat, j: nat :: !(m == n && j == i) ==> Addr(w, m, j) == Addr(v, m, j)
  }

  /** No block is left held that was not. */
  ghost predicate HeldStays(owner0: map<nat, Ref>, owner: map<nat, Ref>) {
    forall b :: b in owner && owner[b] == Held ==> b in owner0 && owner0[b] == Held
  }

  /**
   What writing file blocks lo to hi of inode `n` logs: bitmap blocks, the indirect
   block, and these blocks.
   */
  ghost predicate LoggedIn(sb: Super, v: Vol, n: nat, lo: nat, hi: nat, logged0: set<nat>, logged: set<nat>) {
    && logged0 <= logged
    && forall x :: x in logged && x !in logged0 ==>
        IsBitmap(sb, x) || IsInd(v, n, x) || exists i :: lo <= i <= hi && IsBlock(v, n, i, x)
  }

  predicate IsInd(v: Vol, n: nat, x: nat) {
    x != 0 && IndOf(v, n) == x
  }

  predicate IsBlock(v: Vol, n: nat, i: nat, x: nat) {
    x != 0 && Addr(v, n, i) == x
  }

  lemma BitmapLogged(sb: Super, b: nat)
    requires SuperOk(sb) && b < sb.size
    ensures IsBitmap(sb, BBlock(sb, b))
  {
  }

  lemma LoggedBoth(sb: Super, v1: Vol, v: Vol, n: nat, i: nat, logged0: set<nat>, logged1: set<nat>, logged: set<nat>)
    requires LoggedIn(sb, v1, n, 1, 0, logged0, logged1) && LoggedIn(sb, v, n, i, i, logged1, logged)
             && IndOf(v, n) == IndOf(v1, n)
    ensures LoggedIn(sb, v, n, i, i, logged0, logged)
  {
    forall x | x in logged && x !in logged0
        ensures IsBitmap(sb, x) || IsInd(v, n, x) || exists j :: i <= j <= i && IsBlock(v, n, j, x) {
      if x in logged1 { assert IsInd(v1, n, x) ==> IsInd(v, n, x); }
    }
  }

  lemma IndAt(sb: Super, v: Vol, n: nat)
    requires VolIs(sb, v) && n in v.node && IndOf(v, n) != 0
    ensures IndOf(v, n) in v.disk && |v.disk[IndOf(v, n)]| == BSIZE && |v.node[n].addrs| == NDIRECT + 1
  {
    OpenVol(sb, v);
    assert IndOk(v, n) && OwnOk(sb, v, IndOf(v, n));
  }

  /** What ilock would read from the disk is the inode in memory. */
  ghost predicate OnDisk(sb: Super, v: Vol, n: nat) {
    n in v.node && IBlock(sb, n) in v.disk && |v.disk[IBlock(sb, n)]| == BSIZE
        && GetInode(v.disk[IBlock(sb, n)], n % IPB) == v.node[n]
  }

  lemma InodeAt(sb: Super, v: Vol, n: nat)
    requires VolIs(sb, v) && n in v.node
    ensures IBlock(sb, n) in v.disk && |v.disk[IBlock(sb, n)]| == BSIZE && IBlock(sb, n) < sb.bmapstart
            && InodeOk(v.node[n])
    ensures 0 < n < sb.ninodes && v.node[n].size <= MAXFILE * BSIZE
  {
    OpenVol(sb, v);
    assert NodeOk(sb, v, n);
    IBlockAt(sb, n);
  }

  lemma OthersBoth(v0: Vol, v1: Vol, v: Vol, n: nat)
    requires OthersKept(v0, v1, n) && (OthersKept(v1, v, n) || (SameFiles(v1, v) && v.node == v1.node))
    ensures OthersKept(v0, v, n)
  {
    forall m: nat, i: nat | m in v0.node && m != n && i < MAXFILE && Addr(v0, m, i) != 0
        ensures BlockKept(v0, v, m, i) {
      assert BlockKept(v0, v1, m, i);
      assert BlockKept(v1, v, m, i);
    }
  }

  lemma OthersSelf(sb: Super, v: Vol, n: nat)
    requires VolIs(sb, v)
    ensures OthersKept(v, v, n)
  {
    SameFilesSelf(sb, v);
  }

  /** Exactly the file's blocks below file block `i` are freed. */
  ghost predicate Freed(owner0: map<nat, Ref>, owner: map<nat, Ref>, n: nat, i: nat) {
    && (forall b :: b in owner <==> b in owner0 && !(owner0[b].Data? && owner0[b].inum == n && owner0[b].i < i))
    && (forall b :: b in owner ==> owner[b] == owner0[b])
  }

  lemma FreedNext(sb: Super, v: Vol, owner0: map<nat, Ref>, owner: map<nat, Ref>, n: nat, i: nat)
    requires VolIs(sb, v) && Freed(owner0, v.owner, n, i)
    requires Addr(v, n, i) in v.owner && v.owner[Addr(v, n, i)] == Data(n, i) && owner == v.owner - {Addr(v, n, i)}
    ensures Freed(owner0, owner, n, i + 1)
  {
    OpenVol(sb, v);
    forall b | b in v.owner && v.owner[b] == Data(n, i) ensures b == Addr(v, n, i) { assert OwnOk(sb, v, b); }
  }

  lemma FreedSkip(sb: Super, v: Vol, owner0: map<nat, Ref>, owner: map<nat, Ref>, n: nat, i: nat)
    requires VolIs(sb, v) && v.owner == owner && Freed(owner0, owner, n, i) && Addr(v, n, i) == 0
    ensures Freed(owner0, owner, n, i + 1)
  {
    OpenVol(sb, v);
    forall b | b in owner ensures !(owner[b] == Data(n, i)) { assert OwnOk(sb, v, b); }
  }

  /** Of the blocks that `g` had in the indirect block, exactly those below file block `i` are freed. */
  ghost predicate EntriesFreed(ownerG: map<nat, Ref>, ownerH: map<nat, Ref>, owner: map<nat, Ref>, n: nat, i: nat) {
    && (forall b :: b in owner ==> b in ownerH && b in ownerG && owner[b] == ownerH[b])
    && (forall b :: b in ownerG && b in ownerH ==>
        (b in owner <==> !(ownerG[b].Data? && ownerG[b].inum == n && NDIRECT <= ownerG[b].i < i)))
  }

  lemma EntriesNext(sb: Super, g: Vol, ownerH: map<nat, Ref>, owner1: map<nat, Ref>, owner: map<nat, Ref>, n: nat,
      i: nat)
    requires VolIs(sb, g) && EntriesFreed(g.owner, ownerH, owner1, n, i) && NDIRECT <= i
    requires owner == if Addr(g, n, i) != 0 then owner1 - {Addr(g, n, i)} else owner1
    requires Addr(g, n, i) != 0 ==> Addr(g, n, i) in g.owner && g.owner[Addr(g, n, i)] == Data(n, i)
    ensures EntriesFreed(g.owner, ownerH, owner, n, i + 1)
  {
    OpenVol(sb, g);
    forall b | b in g.owner && g.owner[b] == Data(n, i) ensures b == Addr(g, n, i) && b != 0 { assert OwnOk(sb, g, b); }
  }

  /** The indirect block and the blocks entered in it are freed, and no others. */
  ghost predicate IndirectFreed(owner0: map<nat, Ref>, owner: map<nat, Ref>, n: nat) {
    && (forall b :: b in owner <==>
        b in owner0 && owner0[b] != Ind(n) && !(owner0[b].Data? && owner0[b].inum == n && owner0[b].i >= NDIRECT))
    && (forall b :: b in owner ==> owner[b] == owner0[b])
  }

  /** Exactly the blocks of file `n` are freed. */
  ghost predicate AllFreed(owner0: map<nat, Ref>, owner: map<nat, Ref>, n: nat) {
    && (forall b :: b in owner <==> b in owner0 && !OfFile(owner0[b], n))
    && (forall b :: b in owner ==> owner[b] == owner0[b])
  }

  lemma IndirectIs(sb: Super, g: Vol, owner1: map<nat, Ref>, owner2: map<nat, Ref>, owner: map<nat, Ref>, n: nat)
    requires VolIs(sb, g) && n in g.node && NDIRECT < |g.node[n].addrs| && owner1 == WithoutInd(g, n).owner
             && IndOf(g, n) != 0
    requires EntriesFreed(g.owner, owner1, owner2, n, MAXFILE) && owner == owner2 - {IndOf(g, n)}
    ensures IndirectFreed(g.owner, owner, n)
  {
    OpenVol(sb, g);
    assert IndOk(g, n);
    forall b | b in g.owner ensures (g.owner[b] == Ind(n) ==> b == IndOf(g, n))
        && (g.owner[b].Data? ==> g.owner[b].i < MAXFILE) {
      assert OwnOk(sb, g, b);
    }
  }

  /** Without an indirect block there are no entries. */
  lemma NoEntries(sb: Super, g: Vol, n: nat)
    requires VolIs(sb, g) && n in g.node && IndOf(g, n) == 0
    ensures IndirectFreed(g.owner, g.owner, n)
  {
    OpenVol(sb, g);
    forall b | b in g.owner ensures g.owner[b] != Ind(n)
        && !(g.owner[b].Data? && g.owner[b].inum == n && g.owner[b].i >= NDIRECT) {
      assert OwnOk(sb, g, b);
    }
  }

  lemma TruncOthers(sb: Super, v0: Vol, g: Vol, v: Vol, n: nat)
    requires OthersKept(g, v, n) && n in v0.node && g == v0.(node := v0.node[n := v0.node[n].(size := 0)])
    ensures OthersKept(v0, v, n)
  {
    forall m: nat, i: nat | m in v0.node && m != n && i < MAXFILE && Addr(v0, m, i) != 0
        ensures BlockKept(v0, v, m, i) {
      assert Addr(g, m, i) == Addr(v0, m, i);
      assert BlockKept(g, v, m, i);
    }
  }

  /** A byte below the size has a block. */
  lemma BlockAt(sb: Super, v: Vol, n: nat, o: nat)
    requires VolIs(sb, v) && n in v.node && o < v.node[n].size
    ensures o / BSIZE < MAXFILE && Addr(v, n, o / BSIZE) != 0 && Addr(v, n, o / BSIZE) in v.disk
            && |v.disk[Addr(v, n, o / BSIZE)]| == BSIZE
  {
    OpenVol(sb, v);
    assert NodeOk(sb, v, n) && HoleOk(v, n, o / BSIZE) && RefOk(v, n, o / BSIZE) && OwnOk(sb, v, Addr(v, n, o / BSIZE));
  }

  /** A piece of a block is a piece of the file. */
  lemma ReadBlock(sb: Super, v: Vol, n: nat, o: nat, m: nat)
    requires VolIs(sb, v) && n in v.node && m > 0 && o + m <= v.node[n].size && o % BSIZE + m <= BSIZE
    ensures Addr(v, n, o / BSIZE) in v.disk && |v.disk[Addr(v, n, o / BSIZE)]| == BSIZE
    ensures v.disk[Addr(v, n, o / BSIZE)][o % BSIZE..o % BSIZE + m] == Content(v, n)[o..o + m]
  {
    BlockAt(sb, v, n, o);
    var s, t := v.disk[Addr(v, n, o / BSIZE)][o % BSIZE..o % BSIZE + m], Content(v, n)[o..o + m];
    forall j | 0 <= j < m ensures s[j] == t[j] {
      assert (o + j) / BSIZE == o / BSIZE && (o + j) % BSIZE == o % BSIZE + j;
      assert Content(v, n)[o + j] == FileByte(v, n, o + j);
    }
  }

  /** min(n - tot, BSIZE - off % BSIZE) */
  function PieceLen(o: nat, left: nat): (m: nat)
    ensures m <= left && o % BSIZE + m <= BSIZE && (left > 0 ==> m > 0)
  {
    if left < BSIZE - o % BSIZE then left else BSIZE - o % BSIZE
  }

  lemma BlockRange(off: nat, tot: nat, len: nat)
    requires tot < len && off + len <= MAXFILE * BSIZE
    ensures off / BSIZE <= (off + tot) / BSIZE <= (off + len - 1) / BSIZE < MAXFILE
  {
  }

  lemma PieceJoins(s: seq<bv8>, off: nat, dst: seq<bv8>, piece: seq<bv8>)
    requires off + |dst| + |piece| <= |s| && dst == s[off..off + |dst|]
             && piece == s[off + |dst|..off + |dst| + |piece|]
    ensures dst + piece == s[off..off + |dst + piece|]
  {
  }

  /** The first `tot` bytes of `src` are in the file at `off`; the rest of it, and all other files, are as before. */
  ghost predicate Written(v0: Vol, v: Vol, n: nat, off: nat, src: seq<bv8>, tot: nat) {
    && n in v0.node && n in v.node && tot <= |src| && OthersKept(v0, v, n)
    && v.node[n] == v0.node[n].(addrs := v.node[n].addrs)
    && forall k: nat :: k < v0.node[n].size || off <= k < off + tot ==> WroteAt(v0, v, n, off, src, tot, k)
  }

  predicate WroteAt(v0: Vol, v: Vol, n: nat, off: nat, src: seq<bv8>, tot: nat, k: nat)
    requires tot <= |src|
  {
    && Addr(v, n, k / BSIZE) != 0 && k / BSIZE < MAXFILE
    && FileByte(v, n, k) == if off <= k < off + tot then src[k - off] else FileByte(v0, n, k)
  }

  lemma KeptByte(v: Vol, w: Vol, n: nat, k: nat)
    requires BlockKept(v, w, n, k / BSIZE)
    ensures FileByte(w, n, k) == FileByte(v, n, k)
  {
  }

  lemma WrittenStays(v0: Vol, v: Vol, w: Vol, n: nat, off: nat, src: seq<bv8>, tot: nat)
    requires Written(v0, v, n, off, src, tot) && SameFiles(v, w) && w.node == v.node[n := w.node[n]] && n in w.node
    ensures Written(v0, w, n, off, src, tot)
  {
    OthersMore(v0, v, w, n, MAXFILE);
    forall k: nat | k < v0.node[n].size || off <= k < off + tot ensures WroteAt(v0, w, n, off, src, tot, k) {
      assert WroteAt(v0, v, n, off, src, tot, k);
      assert BlockKept(v, w, n, k / BSIZE);
      KeptByte(v, w, n, k);
    }
  }

  lemma OthersMore(v0: Vol, v: Vol, w: Vol, n: nat, x: nat)
    requires OthersKept(v0, v, n) && n in v.node && n in w.node && w.node == v.node[n := w.node[n]]
    requires BlocksKept(v, w, n, x) || BlocksKept(v, w, 0, MAXFILE)
    ensures OthersKept(v0, w, n)
  {
    forall m: nat, i: nat | m in v0.node && m != n && i < MAXFILE && Addr(v0, m, i) != 0
        ensures BlockKept(v0, w, m, i) {
      assert BlockKept(v0, v, m, i);
      assert BlockKept(v, w, m, i);
    }
  }

  lemma WrittenNext(sb: Super, v0: Vol, v: Vol, n: nat, off: nat, src: seq<bv8>, tot: nat, m: nat)
    requires VolIs(sb, v) && Written(v0, v, n, off, src, tot) && tot + m <= |src| && m > 0
    requires Addr(v, n, (off + tot) / BSIZE) != 0 && (off + tot) / BSIZE < MAXFILE && (off + tot) % BSIZE + m <= BSIZE
    ensures var a, o := Addr(v, n, (off + tot) / BSIZE), (off + tot) % BSIZE;
            && a in v.disk && |v.disk[a]| == BSIZE
            && var w := v.(disk := v.disk[a := Splice(v.disk[a], o, src[tot..tot + m])]);
               VolIs(sb, w) && Written(v0, w, n, off, src, tot + m)
                   && forall x: nat, i: nat :: Addr(w, x, i) == Addr(v, x, i)
  {
    var bn, o := (off + tot) / BSIZE, (off + tot) % BSIZE;
    var a := Addr(v, n, bn);
    OwnedBlock(sb, v, n, bn);
    var w := v.(disk := v.disk[a := Splice(v.disk[a], o, src[tot..tot + m])]);
    DataWriteOk(sb, v, a, w.disk[a]);
    assert w.node == v.node[n := w.node[n]];
    OthersMore(v0, v, w, n, bn);
    var end := tot + m;
    forall k: nat | k < v0.node[n].size || off <= k < off + end ensures WroteAt(v0, w, n, off, src, end, k) {
      WroteByte(v0, v, w, n, off, src, tot, m, k);
    }
  }

  lemma OwnedBlock(sb: Super, v: Vol, n: nat, i: nat)
    requires VolIs(sb, v) && n in v.node && i < MAXFILE && Addr(v, n, i) != 0
    ensures Addr(v, n, i) in v.owner && v.owner[Addr(v, n, i)] == Data(n, i) && Addr(v, n, i) in v.disk
            && |v.disk[Addr(v, n, i)]| == BSIZE
  {
    OpenVol(sb, v);
    assert RefOk(v, n, i) && OwnOk(sb, v, Addr(v, n, i));
  }

  lemma WroteByte(v0: Vol, v: Vol, w: Vol, n: nat, off: nat, src: seq<bv8>, tot: nat, m: nat, k: nat)
    requires Written(v0, v, n, off, src, tot) && tot + m <= |src| && (k < v0.node[n].size || off <= k < off + tot + m)
    requires var a, o := Addr(v, n, (off + tot) / BSIZE), (off + tot) % BSIZE;
             && a != 0 && a in v.disk && |v.disk[a]| == BSIZE && o + m <= BSIZE && (off + tot) / BSIZE < MAXFILE
             && w == v.(disk := v.disk[a := Splice(v.disk[a], o, src[tot..tot + m])])
    requires BlocksKept(v, w, n, (off + tot) / BSIZE) && forall x: nat, i: nat :: Addr(w, x, i) == Addr(v, x, i)
    ensures WroteAt(v0, w, n, off, src, tot + m, k)
  {
    var bn, o := (off + tot) / BSIZE, (off + tot) % BSIZE;
    if k / BSIZE == bn {
      assert k % BSIZE - o == k - (off + tot);
      if !(off + tot <= k < off + tot + m) { assert WroteAt(v0, v, n, off, src, tot, k); }
    } else {
      assert !(off + tot <= k < off + tot + m);
      assert WroteAt(v0, v, n, off, src, tot, k);
      assert BlockKept(v, w, n, k / BSIZE);
      KeptByte(v, w, n, k);
    }
  }

  /** What bmap logs for a block in the range is within what the range logs. */
  lemma LoggedMore(sb: Super, v: Vol, w: Vol, n: nat, lo: nat, hi: nat, i: nat, logged0: set<nat>, logged1: set<nat>,
      logged: set<nat>)
    requires LoggedIn(sb, v, n, lo, hi, logged0, logged1) && LoggedIn(sb, w, n, i, i, logged1, logged)
             && lo <= i <= hi < MAXFILE
    requires SameFiles(v, w) && n in v.node && (IndOf(v, n) != 0 ==> IndOf(w, n) == IndOf(v, n))
    ensures LoggedIn(sb, w, n, lo, hi, logged0, logged)
  {
    forall x | x in logged && x !in logged0
        ensures IsBitmap(sb, x) || IsInd(w, n, x) || exists j :: lo <= j <= hi && IsBlock(w, n, j, x) {
      if x in logged1 {
        assert IsBitmap(sb, x) || IsInd(v, n, x) || exists j :: lo <= j <= hi && IsBlock(v, n, j, x);
        if !IsBitmap(sb, x) && !IsInd(v, n, x) {
          var j :| lo <= j <= hi && IsBlock(v, n, j, x);
          assert BlockKept(v, w, n, j);
          assert IsBlock(w, n, j, x);
        }
      }
    }
  }

  lemma LoggedBlock(sb: Super, v: Vol, w: Vol, n: nat, lo: nat, hi: nat, i: nat, logged0: set<nat>, logged: set<nat>)
    requires LoggedIn(sb, v, n, lo, hi, logged0, logged) && lo <= i <= hi && Addr(v, n, i) != 0 && w.node == v.node
    requires forall j: nat :: Addr(w, n, j) == Addr(v, n, j)
    ensures LoggedIn(sb, w, n, lo, hi, logged0, logged + {Addr(v, n, i)})
  {
    assert IsBlock(w, n, i, Addr(v, n, i));
    forall x | x in logged && x !in logged0
        ensures IsBitmap(sb, x) || IsInd(w, n, x) || exists j :: lo <= j <= hi && IsBlock(w, n, j, x) {
      if !IsBitmap(sb, x) && !IsInd(v, n, x) {
        var j :| lo <= j <= hi && IsBlock(v, n, j, x);
        assert IsBlock(w, n, j, x);
      } else {
        assert IsInd(v, n, x) ==> IsInd(w, n, x);
      }
    }
  }

  /** Overwrite from `off` on, growing the sequence if needed. */
  function Spliced(s: seq<bv8>, off: nat, b: seq<bv8>): seq<bv8>
    requires off <= |s|
  {
    s[..off] + b + if off + |b| < |s| then s[off + |b|..] else []
  }

  function Sized(v: Vol, n: nat, end: nat): Vol
    requires n in v.node
  {
    if end > v.node[n].size then v.(node := v.node[n := v.node[n].(size := end)]) else v
  }

  lemma WrittenStart(sb: Super, v: Vol, n: nat, off: nat, src: seq<bv8>)
    requires VolIs(sb, v) && n in v.node
    ensures Written(v, v, n, off, src, 0)
  {
    OthersSelf(sb, v, n);
    forall k: nat | k < v.node[n].size ensures WroteAt(v, v, n, off, src, 0, k) { BlockAt(sb, v, n, k); }
  }

  /** Once the size follows, the file is the old contents with the new bytes spliced in. */
  lemma SizedIs(sb: Super, v0: Vol, v: Vol, n: nat, off: nat, src: seq<bv8>, tot: nat)
    requires VolIs(sb, v) && Written(v0, v, n, off, src, tot) && off <= v0.node[n].size
             && off + |src| <= MAXFILE * BSIZE
    ensures VolIs(sb, Sized(v, n, off + tot)) && OthersKept(v0, Sized(v, n, off + tot), n)
    ensures Content(Sized(v, n, off + tot), n) == Spliced(Content(v0, n), off, src[..tot])
  {
    if off + tot > v.node[n].size { SizedGrow(sb, v0, v, n, off, src, tot); }
    SizedContent(v0, v, Sized(v, n, off + tot), n, off, src, tot);
  }

  lemma SizedGrow(sb: Super, v0: Vol, v: Vol, n: nat, off: nat, src: seq<bv8>, tot: nat)
    requires VolIs(sb, v) && Written(v0, v, n, off, src, tot) && off <= v0.node[n].size
             && off + |src| <= MAXFILE * BSIZE
    requires off + tot > v.node[n].size
    ensures VolIs(sb, Sized(v, n, off + tot)) && OthersKept(v0, Sized(v, n, off + tot), n)
    ensures forall i: nat :: Addr(Sized(v, n, off + tot), n, i) == Addr(v, n, i)
  {
    GrownBlocks(v0, v, n, off, src, tot);
    SizeOk(sb, v, n, off + tot);
    SizedOthers(v0, v, Sized(v, n, off + tot), n);
  }

  lemma GrownBlocks(v0: Vol, v: Vol, n: nat, off: nat, src: seq<bv8>, tot: nat)
    requires Written(v0, v, n, off, src, tot) && off <= v0.node[n].size
    ensures forall i: nat :: i * BSIZE < off + tot ==> Addr(v, n, i) != 0
  {
    forall i: nat | i * BSIZE < off + tot ensures Addr(v, n, i) != 0 {
      assert WroteAt(v0, v, n, off, src, tot, i * BSIZE);
    }
  }

  lemma SizedContent(v0: Vol, v: Vol, w: Vol, n: nat, off: nat, src: seq<bv8>, tot: nat)
    requires Written(v0, v, n, off, src, tot) && off <= v0.node[n].size && n in w.node && w.disk == v.disk
    requires w.node[n].size == if off + tot > v0.node[n].size then off + tot else v0.node[n].size
    requires forall i: nat :: Addr(w, n, i) == Addr(v, n, i)
    ensures Content(w, n) == Spliced(Content(v0, n), off, src[..tot])
  {
    var c, c0 := Content(w, n), Content(v0, n);
    forall k | 0 <= k < |c| ensures c[k] == if off <= k < off + tot then src[k - off] else c0[k] {
      assert WroteAt(v0, v, n, off, src, tot, k);
      assert FileByte(w, n, k) == FileByte(v, n, k);
    }
    SplicedIs(c, c0, off, src[..tot]);
  }

  lemma SplicedIs(c: seq<bv8>, s: seq<bv8>, off: nat, b: seq<bv8>)
    requires off <= |s| && |c| == (if off + |b| > |s| then off + |b| else |s|)
    requires forall k :: 0 <= k < |c| ==> c[k] == if off <= k < off + |b| then b[k - off] else s[k]
    ensures c == Spliced(s, off, b)
  {
  }

  lemma SizedOthers(v0: Vol, v: Vol, w: Vol, n: nat)
    requires OthersKept(v0, v, n) && n in v.node && w.node.Keys == v.node.Keys && w.disk == v.disk
             && w.node == v.node[n := w.node[n]]
    requires forall m: nat, i: nat :: Addr(w, m, i) == Addr(v, m, i)
    ensures OthersKept(v0, w, n)
  {
    forall m: nat, i: nat | m in v0.node && m != n && i < MAXFILE && Addr(v0, m, i) != 0
        ensures BlockKept(v0, w, m, i) {
      assert BlockKept(v0, v, m, i);
    }
  }

  lemma FullStays(sb: Super, v: Vol, d: Disk, x: nat)
    requires VolIs(sb, v) && x < sb.bmapstart && x in d && d == v.disk[x := d[x]]
    ensures Full(sb, v.disk) ==> Full(sb, d)
  {
    OpenVol(sb, v);
    forall c: nat | c < sb.size ensures BitOf(sb, d, c) == BitOf(sb, v.disk, c) { BBlockAt(sb, c); }
  }

  /** A write of at most three blocks' worth of bytes logs at most seven blocks, when there is one bitmap block. */
  lemma LoggedCount(sb: Super, v: Vol, n: nat, off: nat, len: nat, logged0: set<nat>, logged: set<nat>)
    requires LoggedIn(sb, v, n, off / BSIZE, if len == 0 then 0 else (off + len - 1) / BSIZE, logged0, logged)
    ensures len <= 3 * BSIZE && sb.size < BPB ==> |logged + {IBlock(sb, n)} - logged0| <= 7
  {
    if len <= 3 * BSIZE && sb.size < BPB {
      var lo := off / BSIZE;
      var hi := if len == 0 then 0 else (off + len - 1) / BSIZE;
      FourBlocks(off, len);
      LoggedAmong(sb, v, n, lo, hi, logged0, logged);
      var all := Loggable(sb, v, n, lo);
      var fresh_ := logged + {IBlock(sb, n)} - logged0;
      forall x | x in fresh_ ensures x in all {}
      SubsetSize(fresh_, all);
    }
  }

  /** The bitmap block, the indirect block, the inode's block and four file blocks. */
  ghost function Loggable(sb: Super, v: Vol, n: nat, lo: nat): (s: set<nat>)
    ensures |s| <= 7
  {
    {sb.bmapstart, IndOf(v, n), IBlock(sb, n), Addr(v, n, lo), Addr(v, n, lo + 1), Addr(v, n, lo + 2),
        Addr(v, n, lo + 3)}
  }

  lemma FourBlocks(off: nat, len: nat)
    requires len <= 3 * BSIZE
    ensures len > 0 ==> (off + len - 1) / BSIZE <= off / BSIZE + 3
  {
  }

  lemma LoggedAmong(sb: Super, v: Vol, n: nat, lo: nat, hi: nat, logged0: set<nat>, logged: set<nat>)
    requires LoggedIn(sb, v, n, lo, hi, logged0, logged) && hi <= lo + 3 && sb.size < BPB
    ensures forall x :: x in logged && x !in logged0 ==> x in Loggable(sb, v, n, lo)
  {
    forall x | x in logged && x !in logged0 ensures x in Loggable(sb, v, n, lo) {
      if IsBitmap(sb, x) {
        OneBitmap(sb, x);
      } else if !IsInd(v, n, x) {
        var i :| lo <= i <= hi && IsBlock(v, n, i, x);
        BlockAmong(sb, v, n, lo, i, x);
      }
    }
  }

  lemma BlockAmong(sb: Super, v: Vol, n: nat, lo: nat, i: nat, x: nat)
    requires lo <= i <= lo + 3 && IsBlock(v, n, i, x)
    ensures x in Loggable(sb, v, n, lo)
  {
    assert i == lo || i == lo + 1 || i == lo + 2 || i == lo + 3;
  }

  lemma OneBitmap(sb: Super, x: nat)
    requires IsBitmap(sb, x) && sb.size < BPB
    ensures x == sb.bmapstart
  {
  }

  lemma SplicedTwice(s: seq<bv8>, off: nat, a: seq<bv8>, b: seq<bv8>)
    requires off <= |s|
    ensures off + |a| <= |Spliced(s, off, a)| && Spliced(Spliced(s, off, a), off + |a|, b) == Spliced(s, off, a + b)
  {
  }

  /** `src[..i]` is in file `n` from `foff` on; nothing else changed (unfolded only at a Gate). */
  ghost predicate FileSpliced(v0: Vol, v: Vol, n: nat, foff: nat, src: seq<bv8>, i: nat) {
    forall z: nat {:trigger Gate(z)} :: Gate(z) ==>
      && n in v0.node && n in v.node && i <= |src| && OthersKept(v0, v, n)
      && (foff > v0.node[n].size ==> i == 0 && v == v0)
      && (foff <= v0.node[n].size ==> Content(v, n) == Spliced(Content(v0, n), foff, src[..i]))
  }

  lemma SmallSinceIs(sb: Super, from: nat, done: seq<set<nat>>)
    requires SmallSince(sb, from, done)
    ensures |done| >= from && (sb.size < BPB ==> forall t :: from <= t < |done| ==> |done[t]| <= 7)
  {
    assert Gate(0);
  }

  lemma FileSplicedIs(v0: Vol, v: Vol, n: nat, foff: nat, src: seq<bv8>, i: nat)
    requires FileSpliced(v0, v, n, foff, src, i)
    ensures n in v0.node && n in v.node && i <= |src| && OthersKept(v0, v, n)
    ensures foff > v0.node[n].size ==> i == 0 && v == v0
    ensures foff <= v0.node[n].size ==> Content(v, n) == Spliced(Content(v0, n), foff, src[..i])
  {
    assert Gate(0);
  }

  /** The volume with some first part of a filewrite done. */
  ghost predicate PartWritten(v0: Vol, v: Vol, n: nat, foff: nat, src: seq<bv8>) {
    exists i :: 0 <= i <= |src| && FileSpliced(v0, v, n, foff, src, i)
  }

  /** What is on the volume between the transactions of a filewrite (unfolded only at a Gate). */
  ghost predicate Staged(sb: Super, v0: Vol, n: nat, foff: nat, src: seq<bv8>, stages: seq<Vol>) {
    forall z: nat {:trigger Gate(z)} :: Gate(z) ==>
      forall t :: 0 <= t < |stages| ==> VolIs(sb, stages[t]) && PartWritten(v0, stages[t], n, foff, src)
  }

  lemma StagedNext(sb: Super, v0: Vol, n: nat, foff: nat, src: seq<bv8>, stages: seq<Vol>, v: Vol, i: nat)
    requires Staged(sb, v0, n, foff, src, stages) && VolIs(sb, v) && FileSpliced(v0, v, n, foff, src, i) && i <= |src|
    ensures Staged(sb, v0, n, foff, src, stages + [v])
  {
    assert Gate(0);
    assert PartWritten(v0, v, n, foff, src);
  }

  lemma StagedIs(sb: Super, v0: Vol, n: nat, foff: nat, src: seq<bv8>, stages: seq<Vol>)
    requires Staged(sb, v0, n, foff, src, stages)
    ensures forall t :: 0 <= t < |stages| ==> VolIs(sb, stages[t]) && PartWritten(v0, stages[t], n, foff, src)
  {
    assert Gate(0);
  }

  /** There is no block to allocate or no more source to read (unfolded only at a Gate). */
  ghost predicate Ends(sb: Super, d: Disk, avail: nat, len: nat) {
    forall z: nat {:trigger Gate(z)} :: Gate(z) ==> Full(sb, d) || avail < len
  }

  lemma EndsLater(sb: Super, d: Disk, left: nat, n1: nat, avail: nat, i: nat, len: nat)
    requires Ends(sb, d, left, n1) && left == (if avail > i then avail - i else 0) && i + n1 <= len
    ensures Ends(sb, d, avail, len)
  {
    assert Gate(0);
  }

  lemma EndsIs(sb: Super, d: Disk, avail: nat, len: nat)
    requires Ends(sb, d, avail, len)
    ensures Full(sb, d) || avail < len
  {
    assert Gate(0);
  }

  /** filewrite asks for more than a file can hold, or beyond its end. */
  predicate TooLong(v: Vol, n: nat, foff: nat, src: seq<bv8>) {
    n in v.node ==> foff > v.node[n].size || foff + |src| > MAXFILE * BSIZE
  }

  /** Between two transactions the next offset is within the file, if the first was. */
  lemma SplicedSize(v0: Vol, v: Vol, n: nat, foff: nat, src: seq<bv8>, i: nat)
    requires FileSpliced(v0, v, n, foff, src, i)
    ensures n in v0.node && n in v.node && (foff <= v0.node[n].size <==> foff + i <= v.node[n].size)
  {
    assert Gate(0);
  }

  lemma SplicedNode(v0: Vol, v: Vol, n: nat, foff: nat, src: seq<bv8>, i: nat)
    requires FileSpliced(v0, v, n, foff, src, i)
    ensures n in v.node
  {
    assert Gate(0);
  }

  /** The first `r` bytes of the chunk are in the file (unfolded only at a Gate). */
  ghost predicate ChunkIn(v0: Vol, v: Vol, n: nat, off: nat, chunk: seq<bv8>, r: nat) {
    forall z: nat {:trigger Gate(z)} :: Gate(z) ==>
      && n in v0.node && n in v.node && OthersKept(v0, v, n) && r <= |chunk| && off <= v0.node[n].size
      && Content(v, n) == Spliced(Content(v0, n), off, chunk[..r])
  }

  lemma ChunkIsIn(v0: Vol, v: Vol, n: nat, off: nat, chunk: seq<bv8>, r: nat)
    requires n in v0.node && n in v.node && OthersKept(v0, v, n) && r <= |chunk| && off <= v0.node[n].size
    requires Content(v, n) == Spliced(Content(v0, n), off, chunk[..r])
    ensures ChunkIn(v0, v, n, off, chunk, r)
  {
  }

  lemma SplicedStart(sb: Super, v: Vol, n: nat, foff: nat, src: seq<bv8>)
    requires VolIs(sb, v) && n in v.node
    ensures FileSpliced(v, v, n, foff, src, 0)
  {
    OthersSelf(sb, v, n);
  }

  lemma ChunkSpliced(v0: Vol, v1: Vol, v: Vol, n: nat, foff: nat, src: seq<bv8>, i: nat, r: int, n1: nat, off: nat,
      chunk: seq<bv8>, next: nat)
    requires FileSpliced(v0, v1, n, foff, src, i) && i + n1 <= |src| && -1 <= r <= n1 && off == foff + i
    requires chunk == src[i..i + n1] && next == if r > 0 then i + r else i
    requires if r >= 0 then ChunkIn(v1, v, n, off, chunk, r) else v == v1
    ensures FileSpliced(v0, v, n, foff, src, next)
  {
    if r >= 0 {
      assert Gate(0);
      OthersBoth(v0, v1, v, n);
      SplicedTwice(Content(v0, n), foff, src[..i], chunk[..r]);
      Prefixes(src, i, n1, r);
    }
  }

  lemma Prefixes(src: seq<bv8>, i: nat, n1: nat, r: nat)
    requires i + n1 <= |src| && r <= n1
    ensures src[..i] + src[i..i + n1][..r] == src[..i + r]
  {
  }

  /** With one bitmap block, every transaction since then logged at most seven blocks (unfolded only at a Gate). */
  ghost predicate SmallSince(sb: Super, since: nat, done: seq<set<nat>>) {
    forall z: nat {:trigger Gate(z)} :: Gate(z) ==>
      since <= |done| && (sb.size < BPB ==> forall t :: since <= t < |done| ==> |done[t]| <= 7)
  }

  lemma SmallMore(sb: Super, since: nat, done0: seq<set<nat>>, done: seq<set<nat>>)
    requires SmallSince(sb, since, done0) && |done| == |done0| + 1 && done[..|done0|] == done0
             && (sb.size < BPB ==> |done[|done0|]| <= 7)
    ensures SmallSince(sb, since, done)
  {
    assert Gate(0);
    forall t | since <= t < |done0| ensures done[t] == done0[t] { assert done[t] == done[..|done0|][t]; }
  }

  lemma SameBitmap(sb: Super, b: nat, bi: nat)
    requires b % BPB == 0 && bi < BPB
    ensures BBlock(sb, b + bi) == BBlock(sb, b) && (b + bi) % BPB == bi
  {
  }

  lemma SameFilesBoth(v0: Vol, v1: Vol, v: Vol)
    requires SameFiles(v0, v1) && SameFiles(v1, v)
    ensures SameFiles(v0, v)
  {
    forall n: nat, i: nat | n in v0.node && i < MAXFILE && Addr(v0, n, i) != 0 ensures BlockKept(v0, v, n, i) {
      assert BlockKept(v0, v1, n, i);
      assert BlockKept(v1, v, n, i);
    }
  }
}
