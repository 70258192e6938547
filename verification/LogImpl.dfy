/**
 The procedures of kernel/log.c as they run, with their loops over log.lh.block.
 Every disk write appends the new disk to `crashPoints`, so what a procedure
 ensures about `crashPoints` holds of a crash between any two of its writes.
 */
module LogImpl {
  import opened Gates
  import opened Common
  import opened LogCore

  /** Consecutive disk steps. */
  ghost predicate IsPath(cs: seq<Core>) {
    && cs != []
    && forall i :: 0 <= i < |cs| - 1 ==> CanStep(cs[i]) && cs[i + 1] == DiskStep(cs[i])
  }

  ghost function Last(cs: seq<Core>): Core
    requires cs != []
  {
    cs[|cs| - 1]
  }

  /** The disks after each step of a path. */
  ghost function DisksOf(cs: seq<Core>): seq<Disk>
    requires cs != []
  {
    seq(|cs| - 1, i requires 0 <= i < |cs| - 1 => cs[i + 1].disk)
  }

  /** One more disk step: `disks` grows with the path. */
  lemma PathThen(cs: seq<Core>, c: Core, disks: seq<Disk>)
    requires IsPath(cs) && CanStep(Last(cs)) && c == DiskStep(Last(cs))
    ensures IsPath(cs + [c]) && Last(cs + [c]) == c
    ensures DisksOf(cs + [c]) == DisksOf(cs) + [c.disk]
    ensures disks + DisksOf(cs) + [c.disk] == disks + DisksOf(cs + [c])
  {
    var ds := cs + [c];
    forall i | 0 <= i < |ds| - 1 ensures CanStep(ds[i]) && ds[i + 1] == DiskStep(ds[i]) {
      if i == |cs| - 1 { assert ds[i] == Last(cs); }
    }
    assert DisksOf(ds) == DisksOf(cs) + [c.disk];
  }

  lemma StepThenPath(c: Core, cs: seq<Core>)
    requires CanStep(c) && IsPath(cs) && cs[0] == DiskStep(c)
    ensures IsPath([c] + cs) && Last([c] + cs) == Last(cs)
  {
    var ds := [c] + cs;
    forall i | 0 <= i < |ds| - 1 ensures CanStep(ds[i]) && ds[i + 1] == DiskStep(ds[i]) {
      if i > 0 { assert ds[i] == cs[i - 1] && ds[i + 1] == cs[i]; }
    }
  }

  /** Where a commit of `n` blocks stands after `i` disk writes. */
  ghost function CommitPc(i: nat, n: nat): Pc {
    if i < n then CommitLog(i) else if i == n then CommitHead
    else if i <= 2 * n then CommitInstall(i - n - 1) else if i == 2 * n + 1 then CommitClear else CommitDone
  }

  lemma {:induction false} CommitPcs(cs: seq<Core>, i: nat)
    requires IsPath(cs) && cs[0].pc == CommitLog(0) && cs[0].lh != [] && i < |cs|
    ensures i <= 2 * |cs[0].lh| + 2
    ensures cs[i].pc == CommitPc(i, |cs[0].lh|) && (cs[i].pc.CommitDone? || cs[i].lh == cs[0].lh)
  {
    if i > 0 {
      CommitPcs(cs, i - 1);
      assert CanStep(cs[i - 1]) && cs[i] == DiskStep(cs[i - 1]);
    }
  }

  /** Along a commit the disk recovers to the old contents up to the header write and to the new ones after it. */
  lemma CommitPath(cs: seq<Core>, i: nat, committed: seq<Block>, view: seq<Block>)
    requires IsPath(cs) && cs[0].pc == CommitLog(0) && CoreInv(cs[0], committed, view) && i < |cs|
    ensures CoreInv(cs[i], if i <= |cs[0].lh| then committed else view, view)
  {
    assert cs[0].lh != [];
    var c, now := CommitPathIs(cs, i, cs[0], committed, view);
    assert Gate(0);
  }

  /** CoreInv, unfolded only at a Gate. */
  ghost predicate CoreIs(c: Core, committed: seq<Block>, view: seq<Block>) {
    forall z: nat {:trigger Gate(z)} :: Gate(z) ==> CoreInv(c, committed, view)
  }

  lemma {:induction false} CommitPathIs(cs: seq<Core>, i: nat, start: Core, committed: seq<Block>, view: seq<Block>)
      returns (c: Core, now: seq<Block>)
    requires IsPath(cs) && start == cs[0] && start.pc == CommitLog(0) && start.lh != []
             && CoreIs(start, committed, view) && i < |cs|
    ensures c == cs[i] && now == (if i <= |start.lh| then committed else view) && CoreIs(c, now, view)
  {
    if i == 0 {
      c, now := start, committed;
    } else {
      var b, before := CommitPathIs(cs, i - 1, start, committed, view);
      CommitPcs(cs, i - 1);
      c := cs[i];
      assert CanStep(cs[i - 1]) && c == DiskStep(cs[i - 1]);
      now := CommitStep(b, c, i - 1, |start.lh|, before, view);
    }
  }

  lemma CommitStep(c: Core, d: Core, i: nat, n: nat, before: seq<Block>, view: seq<Block>) returns (now: seq<Block>)
    requires CanStep(c) && d == DiskStep(c) && c.pc == CommitPc(i, n) && CoreIs(c, before, view)
    ensures now == (if i == n then view else before) && CoreIs(d, now, view)
  {
    assert Gate(0);
    StepKeepsInv(c, before, view);
    now := CommittedAfter(c, before, view);
  }

  /** What a finished commit leaves, and what a crash at any of its writes would have found. */
  lemma CommitOutcome(cs: seq<Core>, before: seq<Disk>, after: seq<Disk>, committed: seq<Block>, view: seq<Block>)
    requires IsPath(cs) && cs[0].pc == CommitLog(0) && CoreInv(cs[0], committed, view)
    requires Last(cs).pc == CommitDone && after == before + DisksOf(cs)
    ensures var n := |cs[0].lh|;
            && |after| == |before| + 2 * n + 2
            && Last(cs).disk.home == view && Last(cs).disk.header.n == 0 && Last(cs).cache == map[]
            && forall i :: |before| <= i < |after| ==>
                 ValidDisk(after[i]) && Recovered(after[i]) == if i < |before| + n then committed else view
  {
    CommitPcs(cs, |cs| - 1);
    CommitEnd(cs, committed, view);
    forall i | |before| <= i < |after|
      ensures ValidDisk(after[i])
      ensures Recovered(after[i]) == if i < |before| + |cs[0].lh| then committed else view
    {
      CommitDiskAt(cs, i - |before| + 1, committed, view);
      assert after[i] == cs[i - |before| + 1].disk;
    }
  }

  lemma CommitDiskAt(cs: seq<Core>, i: nat, committed: seq<Block>, view: seq<Block>)
    requires IsPath(cs) && cs[0].pc == CommitLog(0) && CoreInv(cs[0], committed, view) && i < |cs|
    ensures ValidDisk(cs[i].disk) && Recovered(cs[i].disk) == if i <= |cs[0].lh| then committed else view
  {
    CommitPath(cs, i, committed, view);
  }

  lemma CommitEnd(cs: seq<Core>, committed: seq<Block>, view: seq<Block>)
    requires IsPath(cs) && cs[0].pc == CommitLog(0) && CoreInv(cs[0], committed, view) && Last(cs).pc == CommitDone
    ensures Last(cs).disk.home == view && Last(cs).disk.header.n == 0 && Last(cs).cache == map[]
  {
    assert cs[0].lh != [];
    CommitPcs(cs, |cs| - 1);
    var c, now := CommitPathIs(cs, |cs| - 1, cs[0], committed, view);
    DoneIs(c, now, view);
  }

  lemma DoneIs(c: Core, now: seq<Block>, view: seq<Block>)
    requires CoreIs(c, now, view) && c.pc == CommitDone
    ensures c.disk.home == view && c.disk.header.n == 0 && c.cache == map[]
  {
    assert Gate(0);
    assert c.disk.header.block[..c.disk.header.n] == [];
  }

  /** What a finished recovery leaves, and what a crash at any of its writes would have found. */
  lemma RecoverOutcome(start: Core, cs: seq<Core>, before: seq<Disk>, after: seq<Disk>, committed: seq<Block>)
    requires start.pc == RecoverRead && CoreInv(start, committed, committed) && CanStep(start)
    requires IsPath(cs) && cs[0] == DiskStep(start)
    requires Last(cs).pc == Idle && after == before + DisksOf(cs)
    ensures Last(cs).disk.home == committed && Last(cs).disk.header.n == 0 && Last(cs).cache == map[]
    ensures forall i :: |before| <= i < |after| ==> ValidDisk(after[i]) && Recovered(after[i]) == committed
  {
    var all := [start] + cs;
    forall i | 0 <= i < |all| - 1 ensures CanStep(all[i]) && all[i + 1] == DiskStep(all[i]) {
      if i > 0 { assert all[i] == cs[i - 1] && all[i + 1] == cs[i]; }
    }
    RecoverPath(all, |cs|, committed);
    var d := Last(cs).disk;
    assert d.header.block[..d.header.n] == [];
    forall i | |before| <= i < |after| ensures ValidDisk(after[i]) && Recovered(after[i]) == committed {
      RecoverPath(all, i - |before| + 2, committed);
      assert after[i] == all[i - |before| + 2].disk;
    }
  }

  /** Along a recovery the disk recovers to the same contents throughout. */
  lemma {:induction false} RecoverPath(cs: seq<Core>, i: nat, committed: seq<Block>)
    requires IsPath(cs) && cs[0].pc == RecoverRead && CoreInv(cs[0], committed, committed) && i < |cs|
    ensures CoreInv(cs[i], committed, committed)
    ensures !cs[i].pc.CommitHead? && !cs[i].pc.CommitLog? && !cs[i].pc.CommitInstall? && !cs[i].pc.CommitClear?
    ensures !cs[i].pc.CommitDone? && cs[i].cache == map[]
  {
    if i > 0 {
      RecoverPath(cs, i - 1, committed);
      assert CanStep(cs[i - 1]) && cs[i] == DiskStep(cs[i - 1]);
      StepKeepsInv(cs[i - 1], committed, committed);
    }
  }

  class Log {
    var disk: Disk
    var n: nat                    // log.lh.n
    const block: array<nat>       // log.lh.block
    var outstanding: nat
    var committing: bool
    var cache: map<nat, Block>    // contents of the pinned buffers
    ghost var crashPoints: seq<Disk>

    ghost predicate Valid()
      reads this, block
    {
      block.Length == LOGBLOCKS && n <= LOGBLOCKS && ValidDisk(disk)
    }

    ghost function Lh(): seq<nat>
      reads this, block
      requires Valid()
    {
      block[..n]
    }

    ghost function At(pc: Pc): Core
      reads this, block
      requires Valid()
    {
      Core(disk, Lh(), cache, pc)
    }

    /** Booting on a disk: nothing cached, nothing logged. */
    constructor (d: Disk)
      requires ValidDisk(d)
      ensures Valid() && fresh(block) && disk == d && n == 0 && outstanding == 0 && !committing
      ensures cache == map[] && crashPoints == []
    {
      disk, n, outstanding, committing, cache, crashPoints := d, 0, 0, false, map[], [];
      block := new nat[LOGBLOCKS];
    }

    method Bwrite(d: Disk)
      modifies this`disk, this`crashPoints
      ensures disk == d && crashPoints == old(crashPoints) + [d]
    {
      disk := d;
      crashPoints := crashPoints + [d];
    }

    /** The loop of write_log: copy the pinned blocks into the log. */
    method WriteLog(ghost path: seq<Core>, ghost before: seq<Disk>) returns (ghost path': seq<Core>)
      requires Valid() && n > 0 && IsPath(path) && Last(path) == At(CommitLog(0))
      requires forall i :: 0 <= i < n ==> block[i] in cache
      requires crashPoints == before + DisksOf(path)
      modifies this`disk, this`crashPoints
      ensures Valid() && IsPath(path') && Last(path') == At(CommitHead) && path <= path'
      ensures disk.home == old(disk.home)
      ensures crashPoints == before + DisksOf(path')
    {
      path' := path;
      var tail := 0;
      while tail < n
        invariant 0 <= tail <= n && Valid() && disk.home == old(disk.home)
        invariant IsPath(path') && Last(path') == At(if tail == n then CommitHead else CommitLog(tail)) && path <= path'
        invariant crashPoints == before + DisksOf(path')
      {
        assert CanStep(Last(path'));
        Bwrite(WriteLogBlock(disk, tail, cache[block[tail]]));
        tail := tail + 1;
        ghost var c := At(if tail == n then CommitHead else CommitLog(tail));
        PathThen(path', c, before);
        path' := path' + [c];
      }
    }

    /** The loop of install_trans: copy the log blocks home, unpinning when this is a commit. */
    method InstallTrans(recovering: bool, ghost path: seq<Core>, ghost before: seq<Disk>)
        returns (ghost path': seq<Core>)
      requires Valid() && n > 0 && IsPath(path)
      requires Last(path) == At(if recovering then RecoverInstall(0) else CommitInstall(0))
      requires forall i :: 0 <= i < n ==> block[i] < |disk.home|
      requires crashPoints == before + DisksOf(path)
      modifies this`disk, this`crashPoints, this`cache
      ensures Valid() && IsPath(path') && Last(path') == At(if recovering then RecoverClear else CommitClear)
              && path <= path'
      ensures crashPoints == before + DisksOf(path')
    {
      path' := path;
      var tail := 0;
      while tail < n
        invariant 0 <= tail <= n && Valid() && |disk.home| == old(|disk.home|)
        invariant IsPath(path') && path <= path'
        invariant Last(path') == At(if recovering then (if tail == n then RecoverClear else RecoverInstall(tail))
                                    else (if tail == n then CommitClear else CommitInstall(tail)))
        invariant crashPoints == before + DisksOf(path')
      {
        assert CanStep(Last(path'));
        Bwrite(WriteHome(disk, block[tail], disk.log[tail]));
        if !recovering {
          cache := cache - {block[tail]};
        }
        tail := tail + 1;
        ghost var c := At(if recovering then (if tail == n then RecoverClear else RecoverInstall(tail))
                          else (if tail == n then CommitClear else CommitInstall(tail)));
        PathThen(path', c, before);
        path' := path' + [c];
      }
    }

    /** The loop of write_head: the first n entries are copied over the old header. */
    method WriteHead()
      requires Valid() && Distinct(Lh()) && forall i :: 0 <= i < n ==> block[i] < |disk.home|
      modifies this`disk, this`crashPoints
      ensures Valid() && disk == WriteHeader(old(disk), Lh()) && crashPoints == old(crashPoints) + [disk]
    {
      var entries := disk.header.block;
      for i := 0 to n
        invariant |entries| == LOGBLOCKS && disk == old(disk)
        invariant entries == block[..i] + disk.header.block[i..]
      {
        entries := entries[i := block[i]];
      }
      Bwrite(disk.(header := Header(n, entries)));
      assert disk.header.block[..n] == Lh();
    }

    /** The loop of read_head. */
    method ReadHead()
      requires Valid()
      modifies this`n, block
      ensures Valid() && Lh() == disk.header.block[..disk.header.n]
    {
      n := disk.header.n;
      for i := 0 to n
        invariant n == disk.header.n && block[..i] == disk.header.block[..i]
      {
        block[i] := disk.header.block[i];
      }
    }

    /** The body of commit for a non-empty transaction: write_log, write_head, install_trans, write_head. */
    method CommitWrites() returns (ghost path: seq<Core>)
      requires Valid() && n > 0 && Distinct(Lh())
      requires forall i :: 0 <= i < n ==> block[i] in cache && block[i] < |disk.home|
      modifies this`disk, this`crashPoints, this`cache, this`n
      ensures Valid() && n == 0
      ensures IsPath(path) && path[0] == old(At(CommitLog(0))) && Last(path) == At(CommitDone)
      ensures crashPoints == old(crashPoints) + DisksOf(path)
    {
      ghost var before := crashPoints;
      path := WriteLog([At(CommitLog(0))], before);
      CommitPcs(path, |path| - 1);
      WriteHead();
      PathThen(path, At(CommitInstall(0)), before);
      path := InstallTrans(false, path + [At(CommitInstall(0))], before);
      n := 0;
      WriteHead();
      PathThen(path, At(CommitDone), before);
      path := path + [At(CommitDone)];
    }

    /**
     commit: a crash before the header write finds the old contents, a crash at or
     after it the new ones, and on return the new contents are home.
     */
    method Commit(ghost committed: seq<Block>, ghost view: seq<Block>) returns (ghost path: seq<Core>)
      requires Valid() && CoreInv(At(Idle), committed, view)
      modifies this`disk, this`crashPoints, this`cache, this`n
      ensures Valid() && n == 0 && cache == map[] && disk.header.n == 0
      ensures disk.home == view
      ensures old(crashPoints) <= crashPoints
      ensures |crashPoints| == |old(crashPoints)| + if old(n) == 0 then 0 else 2 * old(n) + 2
      ensures forall i :: |old(crashPoints)| <= i < |crashPoints| ==>
                && ValidDisk(crashPoints[i])
                && Recovered(crashPoints[i]) == if i < |old(crashPoints)| + old(n) then committed else view
      ensures old(n) > 0 ==> IsPath(path) && path[0] == old(At(CommitLog(0))) && Last(path) == At(CommitDone)
      ensures old(n) == 0 ==> At(CommitDone) == old(At(CommitDone))
    {
      path := [];
      ghost var before, start := crashPoints, At(Idle);
      if n > 0 {
        StartCommit(start, committed, view);
        forall i | 0 <= i < n ensures block[i] in cache && block[i] < |disk.home| { assert block[i] == start.lh[i]; }
        path := CommitWrites();
        CommitOutcome(path, before, crashPoints, committed, view);
      } else {
        NothingToCommit(start, committed, view);
      }
    }

    /**
     recover_from_log: whatever the crash left, every disk on the way recovers to
     the same contents, so crashing again during recovery is harmless.
     */
    method RecoverFromLog() returns (ghost path: seq<Core>)
      requires Valid() && cache == map[] && n == 0
      modifies this`disk, this`crashPoints, this`cache, this`n, block
      ensures Valid() && n == 0 && cache == map[] && disk.header.n == 0
      ensures disk.home == old(Recovered(disk))
      ensures old(crashPoints) <= crashPoints
      ensures forall i :: |old(crashPoints)| <= i < |crashPoints| ==>
                ValidDisk(crashPoints[i]) && Recovered(crashPoints[i]) == old(Recovered(disk))
      ensures IsPath(path) && path[0] == old(At(RecoverRead)) && Last(path) == At(Idle)
    {
      ghost var before, committed := crashPoints, Recovered(disk);
      ghost var start := At(RecoverRead);
      ReadHead();
      path := [At(if n == 0 then RecoverClear else RecoverInstall(0))];
      assert path[0] == DiskStep(start);
      if n > 0 {
        forall i | 0 <= i < n ensures block[i] < |disk.home| { assert block[i] == Lh()[i]; }
        path := InstallTrans(true, path, before);
      }
      assert CanStep(Last(path));
      n := 0;
      WriteHead();
      PathThen(path, At(Idle), before);
      path := path + [At(Idle)];
      RecoverOutcome(start, path, before, crashPoints, committed);
      StepThenPath(start, path);
      path := [start] + path;
    }

    /** log_write: search for the number, absorb or append; `panicked` is the kernel's halt. */
    method LogWrite(bn: nat, data: Block) returns (panicked: bool)
      requires Valid() && bn < |disk.home|
      modifies this`n, this`cache, block
      ensures Valid()
      ensures panicked <==> old(n) >= LOGBLOCKS || outstanding < 1
      ensures panicked ==> Lh() == old(Lh()) && cache == old(cache)
      ensures !panicked ==> Lh() == if bn in old(Lh()) then old(Lh()) else old(Lh()) + [bn]
      ensures !panicked ==> cache == old(cache)[bn := data]
    {
      if n >= LOGBLOCKS || outstanding < 1 {
        return true;
      }
      var i := 0;
      while i < n && block[i] != bn
        invariant 0 <= i <= n && bn !in block[..i]
      {
        i := i + 1;
      }
      ghost var lh := Lh();
      block[i] := bn;
      if i == n {
        n := n + 1;
      } else {
        assert lh[i] == bn;
      }
      cache := cache[bn := data];
      panicked := false;
    }

    /** One turn of begin_op's loop: either the operation is admitted or the caller sleeps. */
    method BeginOp() returns (admitted: bool)
      requires Valid()
      modifies this`outstanding
      ensures admitted <==> !committing && n + (old(outstanding) + 1) * MAXOPBLOCKS <= LOGBLOCKS
      ensures outstanding == old(outstanding) + if admitted then 1 else 0
    {
      if committing || n + (outstanding + 1) * MAXOPBLOCKS > LOGBLOCKS {
        return false;
      }
      outstanding := outstanding + 1;
      admitted := true;
    }

    /** end_op: the last one out commits. */
    method EndOp(ghost committed: seq<Block>, ghost view: seq<Block>) returns (panicked: bool, ghost path: seq<Core>)
      requires Valid() && outstanding > 0 && CoreInv(At(Idle), committed, view)
      modifies this`disk, this`crashPoints, this`cache, this`n, this`outstanding, this`committing
      ensures Valid() && outstanding == old(outstanding) - 1
      ensures panicked <==> old(committing)
      ensures panicked || outstanding > 0 ==>
              disk == old(disk) && n == old(n) && cache == old(cache) && crashPoints == old(crashPoints)
      ensures !panicked && outstanding == 0 ==>
                n == 0 && cache == map[] && !committing && disk.header.n == 0 && disk.home == view
      ensures !panicked && outstanding == 0 ==>
                forall i :: |old(crashPoints)| <= i < |crashPoints| ==>
                  ValidDisk(crashPoints[i]) && Recovered(crashPoints[i]) == if i < |old(crashPoints)| + old(n)
                      then committed else view
      ensures !panicked ==> !committing
      ensures !panicked && outstanding == 0 && old(n) > 0 ==>
                IsPath(path) && path[0] == old(At(CommitLog(0))) && Last(path) == At(CommitDone)
      ensures !panicked && outstanding == 0 && old(n) == 0 ==> At(CommitDone) == old(At(CommitDone))
    {
      path := [];
      outstanding := outstanding - 1;
      if committing {
        return true, path;
      }
      if outstanding == 0 {
        committing := true;
        path := Commit(committed, view);
        committing := false;
      }
      panicked := false;
    }
  }

  lemma StartCommit(c: Core, committed: seq<Block>, view: seq<Block>)
    requires CoreInv(c, committed, view) && c.pc.Idle? && c.lh != []
    ensures CoreInv(c.(pc := CommitLog(0)), committed, view)
    ensures Distinct(c.lh) && forall i :: 0 <= i < |c.lh| ==> c.lh[i] in c.cache && c.lh[i] < |c.disk.home|
  {
    assert c.lh[0..] == c.lh;
  }

  lemma NothingToCommit(c: Core, committed: seq<Block>, view: seq<Block>)
    requires CoreInv(c, committed, view) && c.pc.Idle? && c.lh == []
    ensures c.cache == map[] && c.disk.home == view == committed
  {
    assert c.lh[0..] == [];
    assert c.disk.header.block[..c.disk.header.n] == [];
  }
}
