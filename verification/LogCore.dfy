/**
 The on-disk write-ahead log of kernel/log.c and the sequence of disk writes that
 a commit or a recovery performs.  One write of one block is atomic; a crash may
 fall between any two of them.
 */
module LogCore {
  import opened Common

  const LOGBLOCKS: nat := 30
  const MAXOPBLOCKS: nat := 10

  /** The contents of one disk block; never looked at by the log. */
  type Block = seq<bv8>

  /** `struct logheader`: only the first `n` entries of `block` mean anything. */
  datatype Header = Header(n: nat, block: seq<nat>)

  /** The header block, the log blocks behind it, and every other block by number. */
  datatype Disk = Disk(header: Header, log: seq<Block>, home: seq<Block>)

  ghost predicate ValidDisk(d: Disk) {
    && |d.header.block| == LOGBLOCKS == |d.log|
    && d.header.n <= LOGBLOCKS
    && Distinct(d.header.block[..d.header.n])
    && forall i :: 0 <= i < d.header.n ==> d.header.block[i] < |d.home|
  }

  // The three kinds of single-block disk write.

  function WriteLogBlock(d: Disk, tail: nat, b: Block): Disk
    requires tail < |d.log|
  {
    d.(log := d.log[tail := b])
  }

  function WriteHeader(d: Disk, lh: seq<nat>): Disk
    requires |lh| <= |d.header.block|
  {
    d.(header := Header(|lh|, lh + d.header.block[|lh|..]))
  }

  function WriteHome(d: Disk, bn: nat, b: Block): Disk
    requires bn < |d.home|
  {
    d.(home := d.home[bn := b])
  }

  /** The home blocks after copying `data[i]` to block `nums[i]`, in order. */
  function Install(home: seq<Block>, nums: seq<nat>, data: seq<Block>): (r: seq<Block>)
    requires |nums| == |data|
    requires forall i :: 0 <= i < |nums| ==> nums[i] < |home|
    ensures |r| == |home|
  {
    if nums == [] then home
    else
      var k := |nums| - 1;
      Install(home, nums[..k], data[..k])[nums[k] := data[k]]
  }

  /** What recovery makes of a disk: the committed log copied onto the home blocks. */
  ghost function Recovered(d: Disk): seq<Block>
    requires ValidDisk(d)
  {
    Install(d.home, d.header.block[..d.header.n], d.log[..d.header.n])
  }

  /** A block that is not in the list keeps its contents; with distinct numbers each listed block gets its own. */
  lemma {:induction false} InstallAt(home: seq<Block>, nums: seq<nat>, data: seq<Block>)
    requires |nums| == |data|
    requires forall i :: 0 <= i < |nums| ==> nums[i] < |home|
    ensures forall b :: 0 <= b < |home| && b !in nums ==> Install(home, nums, data)[b] == home[b]
    ensures Distinct(nums) ==> forall i :: 0 <= i < |nums| ==> Install(home, nums, data)[nums[i]] == data[i]
  {
    if nums != [] {
      var k := |nums| - 1;
      InstallAt(home, nums[..k], data[..k]);
      assert nums == nums[..k] + [nums[k]];
      assert forall i :: 0 <= i < k ==> nums[..k][i] == nums[i];
    }
  }

  /** What a listed block receives does not depend on the home area it is installed into. */
  lemma {:induction false} InstallCovers(h1: seq<Block>, h2: seq<Block>, nums: seq<nat>, data: seq<Block>)
    requires |nums| == |data| && |h1| == |h2|
    requires forall i :: 0 <= i < |nums| ==> nums[i] < |h1|
    ensures forall b :: b in nums ==> Install(h1, nums, data)[b] == Install(h2, nums, data)[b]
  {
    if nums != [] {
      var k := |nums| - 1;
      InstallCovers(h1, h2, nums[..k], data[..k]);
      assert nums == nums[..k] + [nums[k]];
    }
  }

  /** Home areas that agree outside the list become equal, so installing again repairs any partial install. */
  lemma InstallAgree(h1: seq<Block>, h2: seq<Block>, nums: seq<nat>, data: seq<Block>)
    requires |nums| == |data| && |h1| == |h2|
    requires forall i :: 0 <= i < |nums| ==> nums[i] < |h1|
    requires forall b :: 0 <= b < |h1| && b !in nums ==> h1[b] == h2[b]
    ensures Install(h1, nums, data) == Install(h2, nums, data)
  {
    InstallCovers(h1, h2, nums, data);
    InstallAt(h1, nums, data);
    InstallAt(h2, nums, data);
  }

  /** Where the kernel thread that runs commit() or recover_from_log() stands. */
  datatype Pc =
    | Idle
    | CommitLog(tail: nat)      // about to write log block `tail`
    | CommitHead                // about to write the header: the commit point
    | CommitInstall(tail: nat)  // about to write the home block of entry `tail`
    | CommitClear               // about to write an empty header
    | CommitDone                // about to clear log.committing
    | RecoverRead               // about to read the header
    | RecoverInstall(tail: nat)
    | RecoverClear

  /**
   The part of the state that disk steps touch: the disk, the in-memory header's
   block numbers, and the contents of the pinned buffers.
   */
  datatype Core = Core(disk: Disk, lh: seq<nat>, cache: map<nat, Block>, pc: Pc)

  ghost predicate CanStep(c: Core) {
    && ValidDisk(c.disk)
    && |c.lh| <= LOGBLOCKS
    && match c.pc
       case CommitLog(t) => t < |c.lh| && c.lh[t] in c.cache
       case CommitInstall(t) => t < |c.lh| && c.lh[t] < |c.disk.home|
       case RecoverInstall(t) => t < |c.lh| && c.lh[t] < |c.disk.home|
       case Idle => false
       case CommitDone => false
       case _ => true
  }

  /** One step of write_log, write_head, install_trans or read_head: at most one disk write. */
  ghost function DiskStep(c: Core): Core
    requires CanStep(c)
  {
    match c.pc
    case CommitLog(t) =>
      c.(disk := WriteLogBlock(c.disk, t, c.cache[c.lh[t]]),
         pc := if t + 1 == |c.lh| then CommitHead else CommitLog(t + 1))
    case CommitHead =>
      c.(disk := WriteHeader(c.disk, c.lh), pc := CommitInstall(0))
    case CommitInstall(t) =>
      c.(disk := WriteHome(c.disk, c.lh[t], c.disk.log[t]),
         cache := c.cache - {c.lh[t]},
         pc := if t + 1 == |c.lh| then CommitClear else CommitInstall(t + 1))
    case CommitClear =>
      c.(disk := WriteHeader(c.disk, []), lh := [], pc := CommitDone)
    case RecoverRead =>
      var lh := c.disk.header.block[..c.disk.header.n];
      c.(lh := lh, pc := if lh == [] then RecoverClear else RecoverInstall(0))
    case RecoverInstall(t) =>
      c.(disk := WriteHome(c.disk, c.lh[t], c.disk.log[t]),
         pc := if t + 1 == |c.lh| then RecoverClear else RecoverInstall(t + 1))
    case RecoverClear =>
      c.(disk := WriteHeader(c.disk, []), lh := [], pc := Idle)
  }

  /** Home blocks seen through the pinned buffers. */
  function CacheView(home: seq<Block>, cache: map<nat, Block>): (r: seq<Block>)
    ensures |r| == |home|
    ensures forall b :: 0 <= b < |home| ==> r[b] == if b in cache then cache[b] else home[b]
  {
    seq(|home|, b requires 0 <= b < |home| => if b in cache then cache[b] else home[b])
  }

  /**
   What holds of the core at each program point.  `committed` is the disk contents
   that recovery must produce, `view` what reads through the cache must see.
   */
  ghost predicate CoreInv(c: Core, committed: seq<Block>, view: seq<Block>) {
    && ValidDisk(c.disk)
    && Recovered(c.disk) == committed
    && |c.lh| <= LOGBLOCKS && Distinct(c.lh)
    && (forall i :: 0 <= i < |c.lh| ==> c.lh[i] < |c.disk.home|)
    && match c.pc
       case Idle => c.disk.header.n == 0 && Pinned(c, 0) && view == CacheView(c.disk.home, c.cache)
       case CommitLog(t) =>
         && c.disk.header.n == 0 && Pinned(c, 0) && view == CacheView(c.disk.home, c.cache)
         && t < |c.lh| && LogHolds(c, t)
       case CommitHead =>
         && c.disk.header.n == 0 && Pinned(c, 0) && view == CacheView(c.disk.home, c.cache)
         && c.lh != [] && LogHolds(c, |c.lh|)
       case CommitInstall(t) =>
         && c.disk.header.block[..c.disk.header.n] == c.lh
         && t < |c.lh| && Pinned(c, t) && Installed(c, t) && view == committed
         && forall i :: t <= i < |c.lh| ==> c.cache[c.lh[i]] == c.disk.log[i]
       case CommitClear =>
         && c.disk.header.block[..c.disk.header.n] == c.lh
         && Installed(c, |c.lh|) && view == committed && c.cache == map[]
       case CommitDone => c.disk.header.n == 0 && c.lh == [] && view == committed && c.cache == map[]
       case RecoverRead => c.lh == [] && c.cache == map[] && view == committed
       case RecoverInstall(t) =>
         && c.disk.header.block[..c.disk.header.n] == c.lh
         && t < |c.lh| && Installed(c, t) && c.cache == map[] && view == committed
       case RecoverClear =>
         && c.disk.header.block[..c.disk.header.n] == c.lh
         && Installed(c, |c.lh|) && c.cache == map[] && view == committed
  }

  /** Exactly the logged blocks from entry `t` on are pinned. */
  ghost predicate Pinned(c: Core, t: nat)
    requires t <= |c.lh|
  {
    forall b :: b in c.cache <==> b in c.lh[t..]
  }

  ghost predicate LogHolds(c: Core, t: nat)
    requires t <= |c.lh| && |c.lh| <= |c.disk.log|
    requires forall i :: 0 <= i < |c.lh| ==> c.lh[i] in c.cache
  {
    forall i :: 0 <= i < t ==> c.disk.log[i] == c.cache[c.lh[i]]
  }

  ghost predicate Installed(c: Core, t: nat)
    requires t <= |c.lh| && |c.lh| <= |c.disk.log|
    requires forall i :: 0 <= i < |c.lh| ==> c.lh[i] < |c.disk.home|
  {
    forall i :: 0 <= i < t ==> c.disk.home[c.lh[i]] == c.disk.log[i]
  }

  /** A full log installs exactly the pinned contents. */
  lemma InstallIsView(home: seq<Block>, lh: seq<nat>, data: seq<Block>, cache: map<nat, Block>)
    requires |lh| == |data| && Distinct(lh)
    requires forall i :: 0 <= i < |lh| ==> lh[i] < |home| && lh[i] in cache && data[i] == cache[lh[i]]
    requires forall b :: b in cache ==> b in lh
    ensures Install(home, lh, data) == CacheView(home, cache)
  {
    InstallAt(home, lh, data);
  }

  /** Home blocks that already hold the log's data are what recovery produces. */
  lemma InstalledIsRecovered(d: Disk)
    requires ValidDisk(d)
    requires forall i :: 0 <= i < d.header.n ==> d.home[d.header.block[i]] == d.log[i]
    ensures Recovered(d) == d.home
  {
    var nums, data := d.header.block[..d.header.n], d.log[..d.header.n];
    InstallAt(d.home, nums, data);
    forall b | 0 <= b < |d.home|
      ensures Recovered(d)[b] == d.home[b]
    {
      if b in nums {
        var i :| 0 <= i < |nums| && nums[i] == b;
      }
    }
  }

  /** The new value recovery must produce after a step: it changes at the commit point only. */
  ghost function CommittedAfter(c: Core, committed: seq<Block>, view: seq<Block>): seq<Block> {
    if c.pc == CommitHead then view else committed
  }

  /**
   Every disk step keeps the invariant: the disk recovers to `committed` before
   and after it, except that writing the header moves `committed` to `view`.
   */
  lemma StepKeepsInv(c: Core, committed: seq<Block>, view: seq<Block>)
    requires CoreInv(c, committed, view) && !c.pc.Idle? && !c.pc.CommitDone?
    ensures CanStep(c)
    ensures CoreInv(DiskStep(c), CommittedAfter(c, committed, view), view)
  {
    match c.pc
    case CommitLog(t) => CommitLogKeepsInv(c, committed, view);
    case CommitHead => CommitHeadKeepsInv(c, committed, view);
    case CommitInstall(t) => CommitInstallKeepsInv(c, committed, view);
    case RecoverInstall(t) => RecoverInstallKeepsInv(c, committed, view);
    case CommitClear => ClearKeepsInv(c, committed, view);
    case RecoverClear => ClearKeepsInv(c, committed, view);
    case RecoverRead => RecoverReadKeepsInv(c, committed, view);
  }

  lemma CommitLogKeepsInv(c: Core, committed: seq<Block>, view: seq<Block>)
    requires CoreInv(c, committed, view) && c.pc.CommitLog?
    ensures CanStep(c) && CoreInv(DiskStep(c), committed, view)
  {
    assert c.lh[c.pc.tail] in c.lh[0..];
    var d := DiskStep(c);
    assert d.disk.header.block[..d.disk.header.n] == [];
    assert c.disk.header.block[..c.disk.header.n] == [];
  }

  lemma CommitHeadKeepsInv(c: Core, committed: seq<Block>, view: seq<Block>)
    requires CoreInv(c, committed, view) && c.pc.CommitHead?
    ensures CanStep(c) && CoreInv(DiskStep(c), view, view)
  {
    var d := DiskStep(c);
    assert d.disk.header.block[..d.disk.header.n] == c.lh;
    assert forall i :: 0 <= i < |c.lh| ==> c.lh[i] in c.lh[0..];
    InstallIsView(c.disk.home, c.lh, d.disk.log[..|c.lh|], c.cache);
  }

  /** Writing one logged block home changes neither what recovery produces nor the blocks already copied. */
  lemma InstallOneBlock(d: Disk, lh: seq<nat>, t: nat)
    requires ValidDisk(d) && d.header.block[..d.header.n] == lh && t < |lh|
    ensures lh[t] < |d.home|
    ensures var e := WriteHome(d, lh[t], d.log[t]);
            && ValidDisk(e) && Recovered(e) == Recovered(d)
            && forall i :: 0 <= i < |lh| && i != t ==> lh[i] < |d.home| && e.home[lh[i]] == d.home[lh[i]]
  {
    forall i | 0 <= i < |lh| ensures lh[i] == d.header.block[i] {}
    var e := WriteHome(d, lh[t], d.log[t]);
    InstallAgree(d.home, e.home, lh, d.log[..|lh|]);
  }

  lemma CommitInstallKeepsInv(c: Core, committed: seq<Block>, view: seq<Block>)
    requires CoreInv(c, committed, view) && c.pc.CommitInstall?
    ensures CanStep(c) && CoreInv(DiskStep(c), committed, view)
  {
    var d, t := DiskStep(c), c.pc.tail;
    InstallOneBlock(c.disk, c.lh, t);
    PinnedNext(c, d.cache, t);
    if d.pc == CommitClear {
      assert c.lh[t + 1..] == [];
      assert d.cache == map[];
    }
  }

  lemma PinnedNext(c: Core, cache: map<nat, Block>, t: nat)
    requires t < |c.lh| && Distinct(c.lh) && Pinned(c, t) && cache == c.cache - {c.lh[t]}
    ensures forall b :: b in cache <==> b in c.lh[t + 1..]
  {
    assert c.lh[t..] == [c.lh[t]] + c.lh[t + 1..];
    assert c.lh[t] !in c.lh[t + 1..];
  }

  lemma RecoverInstallKeepsInv(c: Core, committed: seq<Block>, view: seq<Block>)
    requires CoreInv(c, committed, view) && c.pc.RecoverInstall?
    ensures CanStep(c) && CoreInv(DiskStep(c), committed, view)
  {
    InstallOneBlock(c.disk, c.lh, c.pc.tail);
  }

  lemma ClearKeepsInv(c: Core, committed: seq<Block>, view: seq<Block>)
    requires CoreInv(c, committed, view) && (c.pc.CommitClear? || c.pc.RecoverClear?)
    ensures CanStep(c) && CoreInv(DiskStep(c), committed, view)
  {
    InstalledIsRecovered(c.disk) by {
      forall i | 0 <= i < c.disk.header.n ensures c.disk.header.block[i] == c.lh[i] {}
    }
    var d := DiskStep(c);
    assert d.disk.header.block[..d.disk.header.n] == [];
    if c.pc.RecoverClear? { assert CacheView(d.disk.home, d.cache) == d.disk.home; }
  }

  lemma RecoverReadKeepsInv(c: Core, committed: seq<Block>, view: seq<Block>)
    requires CoreInv(c, committed, view) && c.pc.RecoverRead?
    ensures CanStep(c) && CoreInv(DiskStep(c), committed, view)
  {
    var d := DiskStep(c);
    forall i | 0 <= i < |d.lh| ensures d.lh[i] == c.disk.header.block[i] {}
  }

  /** log_write on an idle log: the block is pinned with its new contents, and its number is listed once. */
  lemma PinKeepsInv(c: Core, committed: seq<Block>, view: seq<Block>, bn: nat, data: Block)
    requires CoreInv(c, committed, view) && c.pc.Idle? && bn < |c.disk.home| && |c.lh| < LOGBLOCKS
    ensures |view| == |c.disk.home|
    ensures var lh := if bn !in c.lh then c.lh + [bn] else c.lh;
            CoreInv(Core(c.disk, lh, c.cache[bn := data], Idle), committed, view[bn := data])
  {
    var d := Core(c.disk, if bn !in c.lh then c.lh + [bn] else c.lh, c.cache[bn := data], Idle);
    assert c.lh[0..] == c.lh && d.lh[0..] == d.lh;
    assert CacheView(c.disk.home, d.cache) == view[bn := data];
  }

  /** Outside recovery, reading through the pinned buffers gives `view` at every program point. */
  lemma CoreReads(c: Core, committed: seq<Block>, view: seq<Block>)
    requires CoreInv(c, committed, view)
    requires !c.pc.RecoverRead? && !c.pc.RecoverInstall? && !c.pc.RecoverClear?
    ensures CacheView(c.disk.home, c.cache) == view
  {
    if c.pc.CommitInstall? {
      InstallReads(c, committed, view);
    } else if c.pc.CommitClear? {
      ClearReads(c, committed, view);
    } else if c.pc.CommitDone? {
      assert c.disk.header.block[..c.disk.header.n] == [];
    }
  }

  lemma InstallReads(c: Core, committed: seq<Block>, view: seq<Block>)
    requires CoreInv(c, committed, view) && c.pc.CommitInstall?
    ensures CacheView(c.disk.home, c.cache) == view
  {
    InstallAt(c.disk.home, c.lh, c.disk.log[..|c.lh|]);
    forall b | 0 <= b < |c.disk.home| ensures CacheView(c.disk.home, c.cache)[b] == view[b] {
      if b in c.lh {
        var i :| 0 <= i < |c.lh| && c.lh[i] == b;
        if i >= c.pc.tail { assert c.lh[c.pc.tail..][i - c.pc.tail] == b; }
      }
    }
  }

  lemma ClearReads(c: Core, committed: seq<Block>, view: seq<Block>)
    requires CoreInv(c, committed, view) && c.pc.CommitClear?
    ensures CacheView(c.disk.home, c.cache) == view
  {
    forall i | 0 <= i < c.disk.header.n ensures c.disk.header.block[i] == c.lh[i] {}
    InstalledIsRecovered(c.disk);
  }
}
