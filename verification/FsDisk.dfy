/**
 The on-disk structures of kernel/fs.c and kernel/fs.h: the free bitmap, block
 numbers in indirect blocks, inodes, and the bytes of a file.  Blocks hold what the
 latest log_write left in them.
 */
module FsDisk {

  const BSIZE: nat := 1024
  const NDIRECT: nat := 12
  const NINDIRECT: nat := 256                // BSIZE / sizeof(uint)
  const MAXFILE: nat := 268                  // NDIRECT + NINDIRECT
  const BPB: nat := 8192                     // bits per bitmap block
  const IPB: nat := 16                       // inodes per block
  const U32: nat := 0x1_0000_0000

  type Block = seq<bv8>
  type Disk = map<nat, Block>

  datatype Super = Super(size: nat, ninodes: nat, inodestart: nat, bmapstart: nat)

  function DataStart(sb: Super): nat {
    sb.bmapstart + sb.size / BPB + 1
  }

  /** The layout that mkfs makes: inode blocks, then the bitmap, then data. */
  predicate SuperOk(sb: Super) {
    && 1 < sb.inodestart && sb.inodestart + sb.ninodes / IPB + 1 <= sb.bmapstart
    && DataStart(sb) <= sb.size < U32
  }

  function BBlock(sb: Super, b: nat): nat {
    b / BPB + sb.bmapstart
  }

  function IBlock(sb: Super, inum: nat): nat {
    inum / IPB + sb.inodestart
  }

  // ---------- bits ----------

  function Mask(k: nat): bv8
    requires k < 8
  {
    (1 as bv8) << k
  }

  predicate Bit(b: Block, i: nat)
    requires |b| == BSIZE && i < BPB
  {
    b[i / 8] & Mask(i % 8) != 0
  }

  function SetBit(b: Block, i: nat): (r: Block)
    requires |b| == BSIZE && i < BPB
    ensures |r| == BSIZE
  {
    b[i / 8 := b[i / 8] | Mask(i % 8)]
  }

  function ClearBit(b: Block, i: nat): (r: Block)
    requires |b| == BSIZE && i < BPB
    ensures |r| == BSIZE
  {
    b[i / 8 := b[i / 8] & !Mask(i % 8)]
  }

  lemma MaskSet(x: bv8, a: nat, c: nat)
    requires a < 8 && c < 8
    ensures (x | Mask(a)) & Mask(c) != 0 <==> a == c || x & Mask(c) != 0
    ensures (x & !Mask(a)) & Mask(c) != 0 <==> a != c && x & Mask(c) != 0
  {
  }

  lemma BitUpdates(b: Block, i: nat, j: nat)
    requires |b| == BSIZE && i < BPB && j < BPB
    ensures Bit(SetBit(b, i), j) <==> j == i || Bit(b, j)
    ensures Bit(ClearBit(b, i), j) <==> j != i && Bit(b, j)
  {
    MaskSet(b[j / 8], i % 8, j % 8);
  }

  // ---------- little-endian uint ----------

  function Pow2(k: nat): (n: nat)
    ensures n > 0
  {
    if k == 0 then 1 else 2 * Pow2(k - 1)
  }

  /** The value of the lowest `k` bits. */
  function Low(x: bv8, k: nat): (v: nat)
    requires k <= 8
    ensures v < Pow2(k)
  {
    if k == 0 then 0 else if x & Mask(k - 1) != 0 then Low(x, k - 1) + Pow2(k - 1) else Low(x, k - 1)
  }

  /** The byte whose lowest `k` bits have this value. */
  function Binary(v: nat, k: nat): bv8
    requires k <= 8 && v < Pow2(k)
  {
    if k == 0 then 0 else if v >= Pow2(k - 1) then Binary(v - Pow2(k - 1), k - 1) | Mask(k - 1) else Binary(v, k - 1)
  }

  lemma {:induction false} SameLow(x: bv8, y: bv8, k: nat)
    requires k <= 8 && forall j: nat :: j < k ==> (x & Mask(j) != 0 <==> y & Mask(j) != 0)
    ensures Low(x, k) == Low(y, k)
  {
    if k > 0 { SameLow(x, y, k - 1); }
  }

  predicate ClearFrom(x: bv8, k: nat) {
    forall j: nat :: k <= j < 8 ==> x & Mask(j) == 0
  }

  /** One more bit on top. */
  lemma OrLow(x: bv8, k: nat) returns (y: bv8)
    requires k < 8 && ClearFrom(x, k)
    ensures y == x | Mask(k) && Low(y, k + 1) == Low(x, k) + Pow2(k) && ClearFrom(y, k + 1)
  {
    y := x | Mask(k);
    forall j: nat | j < 8 ensures y & Mask(j) != 0 <==> j == k || x & Mask(j) != 0 { MaskSet(x, k, j); }
    SameLow(x, y, k);
  }

  lemma NoLow(x: bv8, k: nat)
    requires k < 8 && ClearFrom(x, k)
    ensures Low(x, k + 1) == Low(x, k) && ClearFrom(x, k + 1)
  {
    assert x & Mask(k) == 0;
  }

  lemma ZeroClear()
    ensures ClearFrom(0, 0)
  {
  }

  lemma {:induction false} BinaryLow(v: nat, k: nat)
    requires k <= 8 && v < Pow2(k)
    ensures Low(Binary(v, k), k) == v && ClearFrom(Binary(v, k), k)
  {
    if k == 0 {
      ZeroClear();
    } else if v >= Pow2(k - 1) {
      BinaryLow(v - Pow2(k - 1), k - 1);
      BinaryHigh(v, k - 1);
    } else {
      BinaryLow(v, k - 1);
      NoLow(Binary(v, k - 1), k - 1);
    }
  }

  lemma BinaryHigh(v: nat, k: nat)
    requires k < 8 && Pow2(k) <= v < Pow2(k + 1)
    requires Low(Binary(v - Pow2(k), k), k) == v - Pow2(k) && ClearFrom(Binary(v - Pow2(k), k), k)
    ensures Low(Binary(v, k + 1), k + 1) == v && ClearFrom(Binary(v, k + 1), k + 1)
  {
    var y := OrLow(Binary(v - Pow2(k), k), k);
    assert Binary(v, k + 1) == y;
  }

  const BYTE: nat := 8

  function ValueOf(x: bv8): (v: nat)
    ensures v < 256
  {
    Pow2Byte();
    Low(x, BYTE)
  }

  function ByteOf(v: nat): bv8
    requires v < 256
  {
    Pow2Byte();
    Binary(v, BYTE)
  }

  lemma Pow2Byte()
    ensures Pow2(BYTE) == 256
  {
    assert Pow2(2) == 4 && Pow2(4) == 16 && Pow2(6) == 64 && Pow2(8) == 256;
  }

  lemma ByteRound(v: nat)
    requires v < 256
    ensures ValueOf(ByteOf(v)) == v
  {
    Pow2Byte();
    BinaryLow(v, BYTE);
  }

  /** The little-endian value of `k` bytes. */
  function Little(b: Block, p: nat, k: nat): nat
    requires p + k <= |b|
    decreases k, p
  {
    if k == 0 then 0 else ValueOf(b[p]) + 256 * Little(b, p + 1, k - 1)
  }

  function U32At(b: Block, j: nat): (v: nat)
    requires |b| == BSIZE && j < NINDIRECT
    ensures v < U32
  {
    FourBytes(b, j);
    Little(b, 4 * j, 4)
  }

  lemma FourBytes(b: Block, j: nat)
    requires |b| == BSIZE && j < NINDIRECT
    ensures Little(b, 4 * j, 4)
            == ValueOf(b[4 * j]) + 256 * ValueOf(b[4 * j + 1])
               + 65536 * ValueOf(b[4 * j + 2]) + 16777216 * ValueOf(b[4 * j + 3])
  {
    var p := 4 * j;
    assert Little(b, p + 4, 0) == 0;
    assert Little(b, p + 3, 1) == ValueOf(b[p + 3]);
    assert Little(b, p + 2, 2) == ValueOf(b[p + 2]) + 256 * Little(b, p + 3, 1);
    assert Little(b, p + 1, 3) == ValueOf(b[p + 1]) + 256 * Little(b, p + 2, 2);
  }

  function PutU32(b: Block, j: nat, v: nat): (r: Block)
    requires |b| == BSIZE && j < NINDIRECT && v < U32
    ensures |r| == BSIZE
  {
    b[4 * j := ByteOf(v % 256)][4 * j + 1 := ByteOf(v / 256 % 256)][4 * j + 2 := ByteOf(v / 65536 % 256)][4 * j + 3 :=
        ByteOf(v / 16777216)]
  }

  lemma PutU32At(b: Block, j: nat, v: nat, i: nat)
    requires |b| == BSIZE && j < NINDIRECT && v < U32 && i < NINDIRECT
    ensures U32At(PutU32(b, j, v), i) == if i == j then v else U32At(b, i)
  {
    var r := PutU32(b, j, v);
    FourBytes(r, i);
    FourBytes(b, i);
    if i == j {
      ByteRound(v % 256);
      ByteRound(v / 256 % 256);
      ByteRound(v / 65536 % 256);
      ByteRound(v / 16777216);
      assert ValueOf(r[4 * j]) == v % 256 && ValueOf(r[4 * j + 1]) == v / 256 % 256;
      assert ValueOf(r[4 * j + 2]) == v / 65536 % 256 && ValueOf(r[4 * j + 3]) == v / 16777216;
      Digits(v);
    } else {
      assert r[4 * i] == b[4 * i] && r[4 * i + 1] == b[4 * i + 1] && r[4 * i + 2] == b[4 * i + 2]
          && r[4 * i + 3] == b[4 * i + 3];
    }
  }

  lemma Digits(v: nat)
    requires v < U32
    ensures v == v % 256 + 256 * (v / 256 % 256) + 65536 * (v / 65536 % 256) + 16777216 * (v / 16777216)
  {
  }

  function Zeros(): (b: Block)
    ensures |b| == BSIZE && forall i :: 0 <= i < BSIZE ==> b[i] == 0
  {
    seq(BSIZE, _ => 0)
  }

  lemma ZerosAt(j: nat)
    requires j < NINDIRECT
    ensures U32At(Zeros(), j) == 0
  {
    FourBytes(Zeros(), j);
    ZeroLow(BYTE);
  }

  lemma {:induction false} ZeroLow(k: nat)
    requires k <= 8
    ensures Low(0, k) == 0
  {
    if k > 0 {
      ZeroClear();
      assert 0 & Mask(k - 1) == 0;
      ZeroLow(k - 1);
    }
  }

  // ---------- inodes ----------

  /** struct dinode; the 16-bit fields as their bit patterns. */
  datatype Inode = Inode(typ: nat, major: nat, minor: nat, nlink: nat, size: nat, addrs: seq<nat>)

  predicate InodeOk(ino: Inode) {
    && ino.typ < 65536 && ino.major < 65536 && ino.minor < 65536 && ino.nlink < 65536 && ino.size < U32
    && |ino.addrs| == NDIRECT + 1 && forall i :: 0 <= i <= NDIRECT ==> ino.addrs[i] < U32
  }

  /** Write consecutive words. */
  function PutWords(b: Block, at: nat, ws: seq<nat>): (r: Block)
    requires |b| == BSIZE && at + |ws| <= NINDIRECT && forall i :: 0 <= i < |ws| ==> ws[i] < U32
    ensures |r| == BSIZE
    decreases |ws|
  {
    if ws == [] then b else PutWords(PutU32(b, at, ws[0]), at + 1, ws[1..])
  }

  lemma {:induction false} PutWordsAt(b: Block, at: nat, ws: seq<nat>, i: nat)
    requires |b| == BSIZE && at + |ws| <= NINDIRECT && (forall i :: 0 <= i < |ws| ==> ws[i] < U32) && i < NINDIRECT
    ensures U32At(PutWords(b, at, ws), i) == if at <= i < at + |ws| then ws[i - at] else U32At(b, i)
    decreases |ws|
  {
    if ws != [] {
      PutU32At(b, at, ws[0], i);
      PutWordsAt(PutU32(b, at, ws[0]), at + 1, ws[1..], i);
    }
  }

  /** The 64 bytes of a dinode as sixteen words. */
  function Words(ino: Inode): (ws: seq<nat>)
    requires InodeOk(ino)
    ensures |ws| == 16 && forall i :: 0 <= i < 16 ==> ws[i] < U32
  {
    [ino.typ + 65536 * ino.major, ino.minor + 65536 * ino.nlink, ino.size] + ino.addrs
  }

  /** iupdate's stores into slot `k` of an inode block. */
  function PutInode(b: Block, k: nat, ino: Inode): (r: Block)
    requires |b| == BSIZE && k < IPB && InodeOk(ino)
    ensures |r| == BSIZE
  {
    PutWords(b, 16 * k, Words(ino))
  }

  function GetWords(b: Block, at: nat, n: nat): (ws: seq<nat>)
    requires |b| == BSIZE && at + n <= NINDIRECT
    ensures |ws| == n && forall i :: 0 <= i < n ==> ws[i] == U32At(b, at + i)
  {
    seq<nat>(n, i requires 0 <= i < n => U32At(b, at + i))
  }

  lemma WordsStay(b: Block, at: nat, ws: seq<nat>, from: nat, n: nat)
    requires |b| == BSIZE && at + |ws| <= NINDIRECT && (forall i :: 0 <= i < |ws| ==> ws[i] < U32)
             && from + n <= NINDIRECT
    requires at + |ws| <= from || from + n <= at
    ensures GetWords(PutWords(b, at, ws), from, n) == GetWords(b, from, n)
  {
    var r := PutWords(b, at, ws);
    forall i | from <= i < from + n ensures U32At(r, i) == U32At(b, i) { PutWordsAt(b, at, ws, i); }
  }

  lemma WordsBack(b: Block, at: nat, ws: seq<nat>)
    requires |b| == BSIZE && at + |ws| <= NINDIRECT && (forall i :: 0 <= i < |ws| ==> ws[i] < U32)
    ensures GetWords(PutWords(b, at, ws), at, |ws|) == ws
  {
    var r := PutWords(b, at, ws);
    forall i | at <= i < at + |ws| ensures U32At(r, i) == ws[i - at] { PutWordsAt(b, at, ws, i); }
  }

  function FromWords(ws: seq<nat>): Inode
    requires |ws| == 16
  {
    Inode(ws[0] % 65536, ws[0] / 65536, ws[1] % 65536, ws[1] / 65536, ws[2], ws[3..])
  }

  lemma FromWordsBack(ino: Inode)
    requires InodeOk(ino)
    ensures FromWords(Words(ino)) == ino
  {
    assert Words(ino)[3..] == ino.addrs;
  }

  /** What ilock reads from slot `k`. */
  function GetInode(b: Block, k: nat): (ino: Inode)
    requires |b| == BSIZE && k < IPB
  {
    FromWords(GetWords(b, 16 * k, 16))
  }

  /** An inode written and read back is the same, and its neighbours are untouched. */
  lemma InodeRoundTrip(b: Block, k: nat, ino: Inode, j: nat)
    requires |b| == BSIZE && k < IPB && InodeOk(ino) && j < IPB
    ensures GetInode(PutInode(b, k, ino), j) == if j == k then ino else GetInode(b, j)
  {
    if j == k {
      WordsBack(b, 16 * k, Words(ino));
      FromWordsBack(ino);
    } else {
      WordsStay(b, 16 * k, Words(ino), 16 * j, 16);
    }
  }

  lemma TwoHalves(b: Block, j: nat)
    requires |b| == BSIZE && j < NINDIRECT
    ensures U32At(b, j) % 65536 == Little(b, 4 * j, 2) && U32At(b, j) / 65536 == Little(b, 4 * j + 2, 2)
  {
    var p := 4 * j;
    FourBytes(b, j);
    TwoBytes(b, p);
    TwoBytes(b, p + 2);
    Halves(Little(b, p, 2), Little(b, p + 2, 2), U32At(b, j));
  }

  lemma Halves(lo: nat, hi: nat, x: nat)
    requires lo < 65536 && x == lo + 65536 * hi
    ensures x % 65536 == lo && x / 65536 == hi
  {
  }

  lemma TwoBytes(b: Block, p: nat)
    requires p + 2 <= |b|
    ensures Little(b, p, 2) == ValueOf(b[p]) + 256 * ValueOf(b[p + 1]) < 65536
  {
    assert Little(b, p + 2, 0) == 0;
    assert Little(b, p + 1, 1) == ValueOf(b[p + 1]);
  }

  /** Where the fields of struct dinode are in its block. */
  lemma InodeLayout(b: Block, k: nat, i: nat)
    requires |b| == BSIZE && k < IPB && i <= NDIRECT
    ensures var ino, p := GetInode(b, k), 64 * k;
            && ino.typ == Little(b, p, 2) && ino.major == Little(b, p + 2, 2) && ino.minor == Little(b, p + 4, 2)
            && ino.nlink == Little(b, p + 6, 2) && ino.size == Little(b, p + 8, 4)
            && |ino.addrs| == NDIRECT + 1 && ino.addrs[i] == Little(b, p + 12 + 4 * i, 4)
  {
    TwoHalves(b, 16 * k);
    TwoHalves(b, 16 * k + 1);
    var ws := GetWords(b, 16 * k, 16);
    assert ws[3..][i] == ws[3 + i] == U32At(b, 16 * k + 3 + i);
  }
}
