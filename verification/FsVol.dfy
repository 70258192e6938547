/**
 Files on the volume: which block each file block is in, who owns each block, what
 the bitmap says, and the bytes of each file (kernel/fs.c).
 */
module FsVol {
  import opened Gates
  import opened FsDisk

  /** What a block in use is for; Held by an operation between balloc and its use. */
  datatype Ref = Data(inum: nat, i: nat) | Ind(inum: nat) | Held

  /** All blocks, the inodes as the kernel holds them in memory, and the owner of each block in use. */
  datatype Vol = Vol(disk: Disk, node: map<nat, Inode>, owner: map<nat, Ref>)

  function Entry(d: Disk, ind: nat, j: nat): nat {
    if ind in d && |d[ind]| == BSIZE && j < NINDIRECT then U32At(d[ind], j) else 0
  }

  /** The block number of file block `i` of inode `n`, 0 when there is none. */
  function Addr(v: Vol, n: nat, i: nat): nat {
    if n !in v.node || |v.node[n].addrs| != NDIRECT + 1 then 0
    else if i < NDIRECT then v.node[n].addrs[i]
    else if v.node[n].addrs[NDIRECT] == 0 then 0
    else Entry(v.disk, v.node[n].addrs[NDIRECT], i - NDIRECT)
  }

  function IndOf(v: Vol, n: nat): nat {
    if n !in v.node || |v.node[n].addrs| != NDIRECT + 1 then 0 else v.node[n].addrs[NDIRECT]
  }

  predicate BitOf(sb: Super, d: Disk, b: nat) {
    BBlock(sb, b) in d && |d[BBlock(sb, b)]| == BSIZE && Bit(d[BBlock(sb, b)], b % BPB)
  }

  predicate NodeOk(sb: Super, v: Vol, n: nat)
    requires n in v.node
  {
    0 < n < sb.ninodes && InodeOk(v.node[n]) && v.node[n].size <= MAXFILE * BSIZE
  }

  /** A file block has its own block. */
  predicate RefOk(v: Vol, n: nat, i: nat) {
    Addr(v, n, i) != 0 ==> Addr(v, n, i) in v.owner && v.owner[Addr(v, n, i)] == Data(n, i)
  }

  predicate IndOk(v: Vol, n: nat) {
    IndOf(v, n) != 0 ==> IndOf(v, n) in v.owner && v.owner[IndOf(v, n)] == Ind(n)
  }

  /** A block in use is in the data area and is where its owner says. */
  predicate OwnOk(sb: Super, v: Vol, b: nat)
    requires b in v.owner
  {
    && DataStart(sb) <= b < sb.size
    && match v.owner[b]
       case Data(n, i) => n in v.node && i < MAXFILE && Addr(v, n, i) == b
       case Ind(n) => n in v.node && IndOf(v, n) == b
       case Held => true
  }

  predicate BitOk(sb: Super, v: Vol, b: nat) {
    BitOf(sb, v.disk, b) <==> b < DataStart(sb) || b in v.owner
  }

  /** No holes. */
  predicate HoleOk(v: Vol, n: nat, i: nat)
    requires n in v.node
  {
    i * BSIZE < v.node[n].size ==> Addr(v, n, i) != 0
  }

  ghost predicate DiskOk(sb: Super, d: Disk) {
    forall b :: 0 <= b < sb.size ==> b in d && |d[b]| == BSIZE
  }

  /**
   All block numbers in inodes and indirect blocks are distinct, the bitmap marks
   exactly these and the metadata, and no file has holes.
   */
  ghost predicate VolOk(sb: Super, v: Vol) {
    && SuperOk(sb) && DiskOk(sb, v.disk)
    && (forall n :: n in v.node ==> NodeOk(sb, v, n))
    && (forall n: nat, i: nat :: n in v.node && i < MAXFILE ==> RefOk(v, n, i))
    && (forall n :: n in v.node ==> IndOk(v, n))
    && (forall b :: b in v.owner ==> OwnOk(sb, v, b))
    && (forall b: nat :: b < sb.size ==> BitOk(sb, v, b))
    && (forall n: nat, i: nat :: n in v.node && i < MAXFILE ==> HoleOk(v, n, i))
  }

  /** VolOk, unfolded only by OpenVol. */
  ghost predicate VolIs(sb: Super, v: Vol) {
    forall z: nat {:trigger Gate(z)} :: Gate(z) ==> VolOk(sb, v)
  }

  lemma OpenVol(sb: Super, v: Vol)
    requires VolIs(sb, v)
    ensures VolOk(sb, v)
  {
    assert Gate(0);
  }

  // ---------- contents ----------

  function FileByte(v: Vol, n: nat, k: nat): bv8 {
    var a := Addr(v, n, k / BSIZE);
    if a in v.disk && |v.disk[a]| == BSIZE then v.disk[a][k % BSIZE] else 0
  }

  /** The bytes of a file. */
  function Content(v: Vol, n: nat): (s: seq<bv8>)
    requires n in v.node
    ensures |s| == v.node[n].size
  {
    seq(v.node[n].size, k requires 0 <= k < v.node[n].size => FileByte(v, n, k))
  }

  /** File blocks that were there are still there with the same contents, except possibly block `x` of inode `m`. */
  ghost predicate BlocksKept(v: Vol, w: Vol, m: nat, x: nat) {
    && w.node.Keys == v.node.Keys
    && forall n: nat, i: nat :: n in v.node && i < MAXFILE && !(n == m && i == x) && Addr(v, n, i) != 0 ==>
        BlockKept(v, w, n, i)
  }

  predicate BlockKept(v: Vol, w: Vol, n: nat, i: nat) {
    Addr(w, n, i) == Addr(v, n, i) && Addr(v, n, i) in v.disk && Addr(v, n, i) in w.disk
        && w.disk[Addr(v, n, i)] == v.disk[Addr(v, n, i)]
  }

  /** The same files, apart from blocks added past the end. */
  ghost predicate SameFiles(v: Vol, w: Vol) {
    BlocksKept(v, w, 0, MAXFILE) && forall n :: n in v.node && n in w.node ==>
        w.node[n] == v.node[n].(addrs := w.node[n].addrs)
  }

  lemma SameFilesSelf(sb: Super, v: Vol)
    requires VolIs(sb, v)
    ensures SameFiles(v, v)
  {
    OpenVol(sb, v);
    forall n: nat, i: nat | n in v.node && i < MAXFILE && Addr(v, n, i) != 0 ensures BlockKept(v, v, n, i) {
      assert RefOk(v, n, i) && OwnOk(sb, v, Addr(v, n, i));
    }
  }

  lemma SameContent(sb: Super, v: Vol, w: Vol, n: nat)
    requires VolIs(sb, v) && BlocksKept(v, w, 0, MAXFILE) && n in v.node && n in w.node
             && w.node[n].size == v.node[n].size
    ensures Content(w, n) == Content(v, n)
  {
    OpenVol(sb, v);
    assert NodeOk(sb, v, n);
    forall k | 0 <= k < v.node[n].size ensures FileByte(w, n, k) == FileByte(v, n, k) {
      assert HoleOk(v, n, k / BSIZE);
      assert BlockKept(v, w, n, k / BSIZE);
    }
  }

  // ---------- steps ----------

  /** Writing a block that is not an indirect block moves no file block. */
  lemma AddrStays(sb: Super, v: Vol, b: nat, c: Block, n: nat, i: nat)
    requires VolOk(sb, v) && (b !in v.owner || !v.owner[b].Ind?)
    ensures Addr(v.(disk := v.disk[b := c]), n, i) == Addr(v, n, i)
  {
    if n in v.node { assert IndOk(v, n); }
  }

  lemma BBlockAt(sb: Super, b: nat)
    requires SuperOk(sb) && b < sb.size
    ensures sb.bmapstart <= BBlock(sb, b) < DataStart(sb) <= sb.size
  {
  }

  lemma IBlockAt(sb: Super, n: nat)
    requires SuperOk(sb) && n < sb.ninodes
    ensures IBlock(sb, n) < sb.bmapstart <= sb.size
  {
  }

  /** One block written that is not an indirect block; blocks may become held; the bitmap follows. */
  lemma WriteOk(sb: Super, v: Vol, w: Vol, x: nat)
    requires VolOk(sb, v) && w.node == v.node && x in w.disk && |w.disk[x]| == BSIZE && w.disk == v.disk[x := w.disk[x]]
    requires x !in v.owner || !v.owner[x].Ind?
    requires forall b :: b in v.owner ==> b in w.owner && w.owner[b] == v.owner[b]
    requires forall b :: b in w.owner && b !in v.owner ==> w.owner[b] == Held && DataStart(sb) <= b < sb.size
    requires forall b: nat :: b < sb.size ==> BitOk(sb, w, b)
    ensures VolOk(sb, w)
  {
    forall n: nat, i: nat ensures Addr(w, n, i) == Addr(v, n, i) {
      AddrStays(sb, v, x, w.disk[x], n, i);
      assert Addr(v.(disk := w.disk), n, i) == Addr(w, n, i);
    }
    forall n | n in w.node ensures NodeOk(sb, w, n) && IndOk(w, n) { assert NodeOk(sb, v, n) && IndOk(v, n); }
    forall n: nat, i: nat | n in w.node && i < MAXFILE
        ensures RefOk(w, n, i) && HoleOk(w, n, i) { assert RefOk(v, n, i) && HoleOk(v, n, i); }
    forall b | b in w.owner ensures OwnOk(sb, w, b) {
      if b in v.owner { assert OwnOk(sb, v, b); }
    }
  }

  /** Such a write leaves all file blocks alone but the one it writes. */
  lemma WriteKeeps(sb: Super, v: Vol, w: Vol, x: nat, m: nat, j: nat)
    requires VolOk(sb, v) && w.node == v.node && x in w.disk && w.disk == v.disk[x := w.disk[x]]
    requires x !in v.owner || (!v.owner[x].Ind? && (v.owner[x].Data? ==> v.owner[x] == Data(m, j)))
    ensures BlocksKept(v, w, m, j)
  {
    forall n: nat, i: nat | n in v.node && i < MAXFILE && !(n == m && i == j) && Addr(v, n, i) != 0
        ensures BlockKept(v, w, n, i) {
      AddrStays(sb, v, x, w.disk[x], n, i);
      assert Addr(v.(disk := w.disk), n, i) == Addr(w, n, i);
      assert RefOk(v, n, i) && OwnOk(sb, v, Addr(v, n, i));
    }
  }

  /** Writing outside the bitmap changes no bit. */
  lemma BitsStay(sb: Super, v: Vol, w: Vol, x: nat)
    requires VolOk(sb, v) && w.owner == v.owner && x in w.disk && w.disk == v.disk[x := w.disk[x]]
             && (x < sb.bmapstart || x >= DataStart(sb))
    ensures forall b: nat :: b < sb.size ==> BitOk(sb, w, b)
  {
    forall b: nat | b < sb.size ensures BitOk(sb, w, b) {
      BBlockAt(sb, b);
      assert BitOk(sb, v, b);
    }
  }

  /** balloc's first half: the bit is set and the caller holds the block. */
  function Marked(sb: Super, v: Vol, b: nat): Vol
    requires BBlock(sb, b) in v.disk && |v.disk[BBlock(sb, b)]| == BSIZE
  {
    v.(disk := v.disk[BBlock(sb, b) := SetBit(v.disk[BBlock(sb, b)], b % BPB)], owner := v.owner[b := Held])
  }

  lemma MarkOk(sb: Super, v: Vol, b: nat)
    requires VolIs(sb, v) && b < sb.size && !BitOf(sb, v.disk, b)
    ensures BBlock(sb, b) in v.disk && |v.disk[BBlock(sb, b)]| == BSIZE && b !in v.owner && b >= DataStart(sb)
    ensures VolIs(sb, Marked(sb, v, b)) && SameFiles(v, Marked(sb, v, b))
    ensures forall n: nat, i: nat :: Addr(Marked(sb, v, b), n, i) == Addr(v, n, i)
  {
    OpenVol(sb, v);
    assert BitOk(sb, v, b);
    BBlockAt(sb, b);
    var x, w := BBlock(sb, b), Marked(sb, v, b);
    assert x in v.owner ==> OwnOk(sb, v, x);
    forall c: nat | c < sb.size ensures BitOk(sb, w, c) {
      assert BitOk(sb, v, c);
      BBlockAt(sb, c);
      if BBlock(sb, c) == x { BitUpdates(v.disk[x], b % BPB, c % BPB); }
    }
    WriteOk(sb, v, w, x);
    WriteKeeps(sb, v, w, x, 0, MAXFILE);
    forall n: nat, i: nat ensures Addr(w, n, i) == Addr(v, n, i) { AddrStays(sb, v, x, w.disk[x], n, i); }
  }

  /** bfree: the bit is cleared and nobody has the block. */
  function Unmarked(sb: Super, v: Vol, b: nat): Vol
    requires BBlock(sb, b) in v.disk && |v.disk[BBlock(sb, b)]| == BSIZE
  {
    v.(disk := v.disk[BBlock(sb, b) := ClearBit(v.disk[BBlock(sb, b)], b % BPB)], owner := v.owner - {b})
  }

  lemma UnmarkOk(sb: Super, v: Vol, b: nat)
    requires VolIs(sb, v) && b in v.owner && v.owner[b] == Held
    ensures BBlock(sb, b) in v.disk && |v.disk[BBlock(sb, b)]| == BSIZE && b < sb.size && BitOf(sb, v.disk, b)
    ensures VolIs(sb, Unmarked(sb, v, b)) && SameFiles(v, Unmarked(sb, v, b))
    ensures forall n: nat, i: nat :: Addr(Unmarked(sb, v, b), n, i) == Addr(v, n, i)
  {
    OpenVol(sb, v);
    assert OwnOk(sb, v, b) && BitOk(sb, v, b);
    BBlockAt(sb, b);
    var x, w := BBlock(sb, b), Unmarked(sb, v, b);
    assert x in v.owner ==> OwnOk(sb, v, x);
    forall c: nat | c < sb.size ensures BitOk(sb, w, c) {
      assert BitOk(sb, v, c);
      BBlockAt(sb, c);
      if BBlock(sb, c) == x { BitUpdates(v.disk[x], b % BPB, c % BPB); }
    }
    WriteKeeps(sb, v, w, x, 0, MAXFILE);
    DropOk(sb, v, w, x, b);
    forall n: nat, i: nat ensures Addr(w, n, i) == Addr(v, n, i) { AddrStays(sb, v, x, w.disk[x], n, i); }
  }

  /** Giving up a held block. */
  lemma DropOk(sb: Super, v: Vol, w: Vol, x: nat, b: nat)
    requires VolOk(sb, v) && w.node == v.node && x in w.disk && |w.disk[x]| == BSIZE
             && w.disk == v.disk[x := w.disk[x]] && x !in v.owner
    requires b in v.owner && v.owner[b] == Held && w.owner == v.owner - {b}
    requires forall c: nat :: c < sb.size ==> BitOk(sb, w, c)
    ensures VolOk(sb, w)
  {
    forall n: nat, i: nat ensures Addr(w, n, i) == Addr(v, n, i) {
      AddrStays(sb, v, x, w.disk[x], n, i);
      assert Addr(v.(disk := w.disk), n, i) == Addr(w, n, i);
    }
    forall n | n in w.node ensures NodeOk(sb, w, n) && IndOk(w, n) { assert NodeOk(sb, v, n) && IndOk(v, n); }
    forall n: nat, i: nat | n in w.node && i < MAXFILE
        ensures RefOk(w, n, i) && HoleOk(w, n, i) { assert RefOk(v, n, i) && HoleOk(v, n, i); }
    forall c | c in w.owner ensures OwnOk(sb, w, c) { assert OwnOk(sb, v, c); }
  }

  /** Writing a block that is held or holds file data. */
  lemma DataWriteOk(sb: Super, v: Vol, b: nat, c: Block)
    requires VolIs(sb, v) && b in v.owner && !v.owner[b].Ind? && |c| == BSIZE
    ensures VolIs(sb, v.(disk := v.disk[b := c]))
    ensures if v.owner[b].Data? then BlocksKept(v, v.(disk := v.disk[b := c]), v.owner[b].inum, v.owner[b].i)
            else SameFiles(v, v.(disk := v.disk[b := c]))
    ensures forall n: nat, i: nat :: Addr(v.(disk := v.disk[b := c]), n, i) == Addr(v, n, i)
  {
    OpenVol(sb, v);
    var w := v.(disk := v.disk[b := c]);
    assert OwnOk(sb, v, b);
    BitsStay(sb, v, w, b);
    WriteOk(sb, v, w, b);
    if v.owner[b].Data? {
      WriteKeeps(sb, v, w, b, v.owner[b].inum, v.owner[b].i);
    } else {
      WriteKeeps(sb, v, w, b, 0, MAXFILE);
    }
    forall n: nat, i: nat ensures Addr(w, n, i) == Addr(v, n, i) { AddrStays(sb, v, b, c, n, i); }
  }

  /** iupdate's write of an inode block. */
  lemma InodeWriteOk(sb: Super, v: Vol, b: nat, c: Block)
    requires VolIs(sb, v) && b < sb.bmapstart && |c| == BSIZE
    ensures VolIs(sb, v.(disk := v.disk[b := c])) && SameFiles(v, v.(disk := v.disk[b := c]))
    ensures forall n: nat, i: nat :: Addr(v.(disk := v.disk[b := c]), n, i) == Addr(v, n, i)
  {
    OpenVol(sb, v);
    var w := v.(disk := v.disk[b := c]);
    assert b in v.owner ==> OwnOk(sb, v, b);
    BitsStay(sb, v, w, b);
    WriteOk(sb, v, w, b);
    WriteKeeps(sb, v, w, b, 0, MAXFILE);
    forall n: nat, i: nat ensures Addr(w, n, i) == Addr(v, n, i) { AddrStays(sb, v, b, c, n, i); }
  }

  // ---------- block numbers entered and removed ----------

  /** bmap: a held block becomes direct block `i`. */
  function WithDirect(v: Vol, n: nat, i: nat, b: nat): Vol
    requires n in v.node && i < |v.node[n].addrs|
  {
    v.(node := v.node[n := v.node[n].(addrs := v.node[n].addrs[i := b])], owner := v.owner[b := Data(n, i)])
  }

  lemma DirectOk(sb: Super, v: Vol, n: nat, i: nat, b: nat)
    requires VolIs(sb, v) && n in v.node && i < NDIRECT && Addr(v, n, i) == 0 && b in v.owner && v.owner[b] == Held
    ensures i < |v.node[n].addrs| && VolIs(sb, WithDirect(v, n, i, b)) && SameFiles(v, WithDirect(v, n, i, b))
    ensures forall m: nat, j: nat :: Addr(WithDirect(v, n, i, b), m, j) == if m == n && j == i then b else Addr(v, m, j)
  {
    OpenVol(sb, v);
    assert NodeOk(sb, v, n) && OwnOk(sb, v, b);
    var w := WithDirect(v, n, i, b);
    forall m: nat, j: nat ensures Addr(w, m, j) == if m == n && j == i then b else Addr(v, m, j) {}
    AddedOk(sb, v, w, n, i, b);
  }

  /** One file block is added, whose block was held. */
  lemma AddedOk(sb: Super, v: Vol, w: Vol, n: nat, i: nat, b: nat)
    requires VolOk(sb, v) && n in v.node && i < MAXFILE && Addr(v, n, i) == 0 && b in v.owner && v.owner[b] == Held
    requires w.node.Keys == v.node.Keys && w.owner == v.owner[b := Data(n, i)]
    requires forall m: nat, j: nat :: Addr(w, m, j) == if m == n && j == i then b else Addr(v, m, j)
    requires forall m :: m in v.node ==>
             m in w.node && InodeOk(w.node[m]) && w.node[m] == v.node[m].(addrs := w.node[m].addrs)
                 && IndOf(w, m) == IndOf(v, m)
    requires forall c :: c in v.disk ==>
             c in w.disk && |w.disk[c]| == |v.disk[c]|
                 && (c < DataStart(sb) || (c in v.owner && v.owner[c].Data?) ==> w.disk[c] == v.disk[c])
    ensures VolOk(sb, w) && SameFiles(v, w)
  {
    forall m | m in w.node ensures NodeOk(sb, w, m) && IndOk(w, m) { assert NodeOk(sb, v, m) && IndOk(v, m); }
    forall m: nat, j: nat | m in w.node && j < MAXFILE
        ensures RefOk(w, m, j) && HoleOk(w, m, j) { assert RefOk(v, m, j) && HoleOk(v, m, j); }
    forall c | c in w.owner ensures OwnOk(sb, w, c) { assert OwnOk(sb, v, c); }
    forall c: nat | c < sb.size ensures BitOk(sb, w, c) {
      assert BitOk(sb, v, c);
      BBlockAt(sb, c);
    }
    forall m: nat, j: nat | m in v.node && j < MAXFILE && Addr(v, m, j) != 0 ensures BlockKept(v, w, m, j) {
      assert RefOk(v, m, j) && OwnOk(sb, v, Addr(v, m, j));
    }
  }

  /** bmap: a held, zeroed block becomes the indirect block. */
  function WithInd(v: Vol, n: nat, b: nat): Vol
    requires n in v.node && NDIRECT < |v.node[n].addrs|
  {
    v.(node := v.node[n := v.node[n].(addrs := v.node[n].addrs[NDIRECT := b])], owner := v.owner[b := Ind(n)])
  }

  lemma IndirectOk(sb: Super, v: Vol, n: nat, b: nat)
    requires VolIs(sb, v) && n in v.node && IndOf(v, n) == 0 && b in v.owner && v.owner[b] == Held && b in v.disk
             && v.disk[b] == Zeros()
    ensures NDIRECT < |v.node[n].addrs| && VolIs(sb, WithInd(v, n, b)) && SameFiles(v, WithInd(v, n, b))
    ensures forall m: nat, j: nat :: Addr(WithInd(v, n, b), m, j) == Addr(v, m, j)
    ensures IndOf(WithInd(v, n, b), n) == b
  {
    OpenVol(sb, v);
    assert NodeOk(sb, v, n) && OwnOk(sb, v, b);
    var w := WithInd(v, n, b);
    forall m: nat, j: nat ensures Addr(w, m, j) == Addr(v, m, j) {
      if NDIRECT <= j < MAXFILE { ZerosAt(j - NDIRECT); }
    }
    forall m | m in w.node ensures NodeOk(sb, w, m) && IndOk(w, m) { assert NodeOk(sb, v, m) && IndOk(v, m); }
    forall m: nat, j: nat | m in w.node && j < MAXFILE
        ensures RefOk(w, m, j) && HoleOk(w, m, j) { assert RefOk(v, m, j) && HoleOk(v, m, j); }
    forall c | c in w.owner ensures OwnOk(sb, w, c) { assert OwnOk(sb, v, c); }
    forall c: nat | c < sb.size ensures BitOk(sb, w, c) { assert BitOk(sb, v, c); }
    forall m: nat, j: nat | m in v.node && j < MAXFILE && Addr(v, m, j) != 0 ensures BlockKept(v, w, m, j) {
      assert RefOk(v, m, j) && OwnOk(sb, v, Addr(v, m, j));
    }
  }

  /** `r` is the indirect block `old_` with `b` put at entry `k` (unfolded only at a Gate). */
  ghost predicate IsPut(old_: Block, k: nat, b: nat, r: Block)
    requires |old_| == BSIZE && k < NINDIRECT && b < U32
  {
    forall z: nat {:trigger Gate(z)} :: Gate(z) ==> r == PutU32(old_, k, b)
  }

  /** bmap: a held block is entered in the indirect block, which becomes `r`. */
  function WithEntry(v: Vol, n: nat, i: nat, b: nat, r: Block): Vol {
    v.(disk := v.disk[IndOf(v, n) := r], owner := v.owner[b := Data(n, i)])
  }

  lemma EntryPut(d: Disk, ind: nat, k: nat, b: nat, r: Block, x: nat, j: nat)
    requires ind in d && |d[ind]| == BSIZE && k < NINDIRECT && b < U32 && IsPut(d[ind], k, b, r)
    ensures |r| == BSIZE && Entry(d[ind := r], x, j) == if x == ind && j == k then b else Entry(d, x, j)
  {
    assert Gate(0);
    if x == ind && j < NINDIRECT { PutU32At(d[ind], k, b, j); }
  }

  lemma EntryRoom(sb: Super, v: Vol, n: nat, b: nat)
    requires VolIs(sb, v) && n in v.node && IndOf(v, n) != 0 && b in v.owner
    ensures IndOf(v, n) in v.disk && |v.disk[IndOf(v, n)]| == BSIZE && b < U32
  {
    OpenVol(sb, v);
    assert NodeOk(sb, v, n) && OwnOk(sb, v, b) && IndOk(v, n) && OwnOk(sb, v, IndOf(v, n));
  }

  lemma EntryOk(sb: Super, v: Vol, n: nat, i: nat, b: nat, r: Block)
    requires VolIs(sb, v) && n in v.node && NDIRECT <= i < MAXFILE && IndOf(v, n) != 0 && Addr(v, n, i) == 0
    requires b in v.owner && v.owner[b] == Held && b < U32
    requires IndOf(v, n) in v.disk && |v.disk[IndOf(v, n)]| == BSIZE && IsPut(v.disk[IndOf(v, n)], i - NDIRECT, b, r)
    ensures VolIs(sb, WithEntry(v, n, i, b, r)) && SameFiles(v, WithEntry(v, n, i, b, r))
    ensures forall m: nat, j: nat :: Addr(WithEntry(v, n, i, b, r), m, j) == if m == n
            && j == i then b else Addr(v, m, j)
  {
    OpenVol(sb, v);
    assert NodeOk(sb, v, n) && OwnOk(sb, v, b) && IndOk(v, n) && OwnOk(sb, v, IndOf(v, n));
    var w := WithEntry(v, n, i, b, r);
    EntryPut(v.disk, IndOf(v, n), i - NDIRECT, b, r, 0, 0);
    forall m: nat, j: nat ensures Addr(w, m, j) == if m == n && j == i then b else Addr(v, m, j) {
      assert m in v.node ==> IndOk(v, m);
      EntryMoves(v, n, i, b, r, m, j);
    }
    forall m | m in v.node ensures InodeOk(w.node[m]) { assert NodeOk(sb, v, m); }
    AddedOk(sb, v, w, n, i, b);
  }

  lemma EntryMoves(v: Vol, n: nat, i: nat, b: nat, r: Block, m: nat, j: nat)
    requires n in v.node && NDIRECT <= i < MAXFILE && IndOf(v, n) != 0 && b < U32 && IndOk(v, n)
             && (m in v.node ==> IndOk(v, m))
    requires IndOf(v, n) in v.disk && |v.disk[IndOf(v, n)]| == BSIZE && IsPut(v.disk[IndOf(v, n)], i - NDIRECT, b, r)
    ensures Addr(WithEntry(v, n, i, b, r), m, j) == if m == n && j == i then b else Addr(v, m, j)
  {
    if j >= NDIRECT { EntryPut(v.disk, IndOf(v, n), i - NDIRECT, b, r, IndOf(v, m), j - NDIRECT); }
  }

  /** ip->size changes; the blocks of the new size are there. */
  lemma SizeOk(sb: Super, v: Vol, n: nat, size: nat)
    requires VolIs(sb, v) && n in v.node && size <= MAXFILE * BSIZE
    requires forall i: nat :: i * BSIZE < size ==> Addr(v, n, i) != 0
    ensures VolIs(sb, v.(node := v.node[n := v.node[n].(size := size)]))
    ensures forall m: nat, j: nat :: Addr(v.(node := v.node[n := v.node[n].(size := size)]), m, j) == Addr(v, m, j)
  {
    OpenVol(sb, v);
    var w := v.(node := v.node[n := v.node[n].(size := size)]);
    forall m: nat, j: nat ensures Addr(w, m, j) == Addr(v, m, j) {}
    forall m | m in w.node ensures NodeOk(sb, w, m) && IndOk(w, m) { assert NodeOk(sb, v, m) && IndOk(v, m); }
    forall m: nat, j: nat | m in w.node && j < MAXFILE
        ensures RefOk(w, m, j) && HoleOk(w, m, j) { assert RefOk(v, m, j) && HoleOk(v, m, j); }
    forall c | c in w.owner ensures OwnOk(sb, w, c) { assert OwnOk(sb, v, c); }
    forall c: nat | c < sb.size ensures BitOk(sb, w, c) { assert BitOk(sb, v, c); }
  }

  // ---------- itrunc ----------

  /** The block belongs to file `n`. */
  predicate OfFile(r: Ref, n: nat) {
    (r.Data? && r.inum == n) || (r.Ind? && r.inum == n)
  }

  /** Other files are untouched. */
  ghost predicate OthersKept(v: Vol, w: Vol, n: nat) {
    && w.node.Keys == v.node.Keys && (forall m :: m in v.node && m != n ==> w.node[m] == v.node[m])
    && forall m: nat, i: nat :: m in v.node && m != n && i < MAXFILE && Addr(v, m, i) != 0 ==> BlockKept(v, w, m, i)
  }

  /** The bytes of every other file are as they were (unfolded only at a Gate). */
  ghost predicate SameContents(v: Vol, w: Vol, n: nat) {
    forall z: nat {:trigger Gate(z)} :: Gate(z) ==>
      w.node.Keys == v.node.Keys && forall m :: m in v.node && m != n ==> Content(w, m) == Content(v, m)
  }

  lemma OthersContents(sb: Super, v: Vol, w: Vol, n: nat)
    requires VolIs(sb, v) && OthersKept(v, w, n)
    ensures SameContents(v, w, n)
  {
    forall m | m in v.node && m != n ensures Content(w, m) == Content(v, m) { OthersContent(sb, v, w, n, m); }
  }

  lemma OthersContent(sb: Super, v: Vol, w: Vol, n: nat, m: nat)
    requires VolIs(sb, v) && OthersKept(v, w, n) && m in v.node && m != n
    ensures Content(w, m) == Content(v, m)
  {
    OpenVol(sb, v);
    assert NodeOk(sb, v, m);
    forall k | 0 <= k < v.node[m].size ensures FileByte(w, m, k) == FileByte(v, m, k) {
      assert HoleOk(v, m, k / BSIZE);
      assert BlockKept(v, w, m, k / BSIZE);
    }
  }

  /** A direct block is taken out of the inode and is held. */
  function WithoutDirect(v: Vol, n: nat, i: nat): Vol
    requires n in v.node && i < |v.node[n].addrs|
  {
    v.(node := v.node[n := v.node[n].(addrs := v.node[n].addrs[i := 0])], owner := v.owner[v.node[n].addrs[i] := Held])
  }

  lemma WithoutDirectOk(sb: Super, v: Vol, n: nat, i: nat)
    requires VolIs(sb, v) && n in v.node && v.node[n].size == 0 && i < NDIRECT && Addr(v, n, i) != 0
    ensures i < |v.node[n].addrs| && Addr(v, n, i) in v.owner && v.owner[Addr(v, n, i)] == Data(n, i)
    ensures VolIs(sb, WithoutDirect(v, n, i)) && OthersKept(v, WithoutDirect(v, n, i), n)
  {
    OpenVol(sb, v);
    assert NodeOk(sb, v, n) && RefOk(v, n, i) && OwnOk(sb, v, Addr(v, n, i));
    var w := WithoutDirect(v, n, i);
    forall m: nat, j: nat ensures Addr(w, m, j) == if m == n && j == i then 0 else Addr(v, m, j) {}
    RemovedOk(sb, v, w, n);
  }

  /** The indirect block and all blocks entered in it are taken out of the inode and are held. */
  function WithoutInd(v: Vol, n: nat): Vol
    requires n in v.node && NDIRECT < |v.node[n].addrs|
  {
    v.(node := v.node[n := v.node[n].(addrs := v.node[n].addrs[NDIRECT := 0])],
       owner := map b | b in v.owner :: if v.owner[b] == Ind(n)
           || (v.owner[b].Data? && v.owner[b].inum == n && v.owner[b].i >= NDIRECT) then Held else v.owner[b])
  }

  lemma WithoutIndOk(sb: Super, v: Vol, n: nat)
    requires VolIs(sb, v) && n in v.node && v.node[n].size == 0 && IndOf(v, n) != 0
    ensures NDIRECT < |v.node[n].addrs| && VolIs(sb, WithoutInd(v, n)) && OthersKept(v, WithoutInd(v, n), n)
    ensures IndOf(v, n) in v.owner && v.owner[IndOf(v, n)] == Ind(n)
    ensures forall j: nat :: NDIRECT <= j < MAXFILE && Addr(v, n, j) != 0 ==>
            Addr(v, n, j) in v.owner && v.owner[Addr(v, n, j)] == Data(n, j)
  {
    OpenVol(sb, v);
    assert NodeOk(sb, v, n) && IndOk(v, n) && OwnOk(sb, v, IndOf(v, n));
    var w := WithoutInd(v, n);
    forall m: nat, j: nat ensures Addr(w, m, j) == if m == n && j >= NDIRECT then 0 else Addr(v, m, j) {}
    forall j: nat | NDIRECT <= j < MAXFILE && Addr(v, n, j) != 0
        ensures Addr(v, n, j) in v.owner && v.owner[Addr(v, n, j)] == Data(n, j) {
      assert RefOk(v, n, j);
    }
    RemovedOk(sb, v, w, n);
  }

  /** Block numbers of an empty file are removed, and their blocks become held. */
  lemma RemovedOk(sb: Super, v: Vol, w: Vol, n: nat)
    requires VolOk(sb, v) && n in v.node && v.node[n].size == 0 && w.disk == v.disk && w.owner.Keys == v.owner.Keys
    requires w.node.Keys == v.node.Keys && (forall m :: m in v.node && m != n ==> w.node[m] == v.node[m])
    requires InodeOk(w.node[n]) && w.node[n].size == 0 && (IndOf(w, n) == IndOf(v, n) || IndOf(w, n) == 0)
    requires forall m: nat, j: nat :: Addr(w, m, j) == Addr(v, m, j) || (m == n && Addr(w, m, j) == 0)
    requires forall b :: b in v.owner ==> w.owner[b] == v.owner[b] || (w.owner[b] == Held && Gone(v, w, n, v.owner[b]))
    requires forall b :: b in v.owner && Gone(v, w, n, v.owner[b]) ==> w.owner[b] == Held
    ensures VolOk(sb, w) && OthersKept(v, w, n)
  {
    forall m | m in w.node ensures NodeOk(sb, w, m) && IndOk(w, m) {
      assert NodeOk(sb, v, m) && IndOk(v, m);
      if IndOf(w, m) != 0 { assert !Gone(v, w, n, Ind(m)); }
    }
    forall m: nat, j: nat | m in w.node && j < MAXFILE ensures RefOk(w, m, j) && HoleOk(w, m, j) {
      assert RefOk(v, m, j) && HoleOk(v, m, j);
      if Addr(w, m, j) != 0 { assert !Gone(v, w, n, Data(m, j)); }
    }
    forall b | b in w.owner ensures OwnOk(sb, w, b) { assert OwnOk(sb, v, b); }
    forall b: nat | b < sb.size ensures BitOk(sb, w, b) { assert BitOk(sb, v, b); }
    forall m: nat, j: nat | m in v.node && m != n && j < MAXFILE && Addr(v, m, j) != 0 ensures BlockKept(v, w, m, j) {
      assert RefOk(v, m, j) && OwnOk(sb, v, Addr(v, m, j));
    }
  }

  /** The reference was removed. */
  predicate Gone(v: Vol, w: Vol, n: nat, r: Ref) {
    match r
    case Data(m, j) => m == n && Addr(v, n, j) != 0 && Addr(w, n, j) == 0
    case Ind(m) => m == n && IndOf(v, n) != 0 && IndOf(w, n) == 0
    case Held => false
  }
}
