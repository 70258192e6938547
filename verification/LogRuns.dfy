/**
 What runs of the log get done: the last end_op commits everything logged so far, commit
 and recovery come to an end, and an operation's writes are exactly the ones it made.
 */
module LogRuns {
  import opened Gates
  import opened LogCore
  import opened LogMachine

  /** No operation and no commit is under way. */
  predicate Quiet(s: State) {
    Booted(s) && s.outstanding == 0 && !s.committing
  }

  /** Then nothing waits for a commit; and a list that is not empty has writes behind it. */
  predicate QuietInv(s: State) {
    && (Quiet(s) ==> s.core.lh == [] && s.cur == [] && s.ended == {})
    && (Booted(s) && !PastCommitPoint(s) && s.core.lh != [] ==> s.cur != [])
  }

  lemma QuietStep(s: State, step: Step, home: seq<Block>)
    requires Inv(s, home) && QuietInv(s) && Enabled(s, step)
    ensures QuietInv(Do(s, step))
  {
    match step
    case BeginOp(op) =>
    case LogWrite(op, bn, data) => assert op in s.active.Keys && |s.active.Keys| == s.outstanding;
    case EndOp(op) =>
    case DiskWrite =>
    case Finish =>
    case Crash =>
  }

  lemma {:induction false} QuietRun(s: State, steps: seq<Step>, t: State, home: seq<Block>)
    requires Inv(s, home) && QuietInv(s) && Run(s, steps, t)
    ensures Inv(t, home) && QuietInv(t)
    decreases |steps|
  {
    if steps != [] {
      StepInv(s, steps[0], home);
      QuietStep(s, steps[0], home);
      QuietRun(Do(s, steps[0]), steps[1..], t, home);
    }
  }

  /**
   In every state of every run in which no operation and no commit is under way, nothing
   is logged that is not committed: the list is empty, no operation that ended waits, the
   home blocks are the committed ones, and the next operation is admitted.
   */
  lemma NothingLeft(home: seq<Block>, s: State, steps: seq<Step>, t: State)
    requires Init(s, home) && Run(s, steps, t) && Quiet(t)
    ensures t.core.lh == [] && t.cur == [] && t.ended == {} && t.active == map[]
    ensures t.core.disk.header.n == 0 && t.core.disk.home == ApplyGroups(home, t.groups)
    ensures !t.panicked ==> forall op :: op !in t.issued ==> Enabled(t, BeginOp(op))
  {
    InitInv(s, home);
    QuietRun(s, steps, t, home);
    assert |t.active.Keys| == 0;
    assert t.core.disk.header.block[..0] == [];
  }

  /** An operation that ended waits for its commit or is acknowledged, until a crash. */
  lemma EndedStays(s: State, step: Step, op: nat)
    requires Enabled(s, step) && step != Crash && (op in s.ended || op in s.durable)
    ensures op in Do(s, step).ended || op in Do(s, step).durable
  {
  }

  lemma {:induction false} EndedRun(s: State, steps: seq<Step>, t: State, op: nat)
    requires Run(s, steps, t) && Crash !in steps && (op in s.ended || op in s.durable)
    ensures op in t.ended || op in t.durable
    decreases |steps|
  {
    if steps != [] {
      assert steps[0] in steps;
      EndedStays(s, steps[0], op);
      EndedRun(Do(s, steps[0]), steps[1..], t, op);
    }
  }

  /**
   end_op keeps its word.  After an operation's end_op, in every state without a crash
   since, the operation waits for a commit that is due or is acknowledged; and once no
   operation and no commit is under way it is acknowledged, with its writes in a group.
   */
  lemma EndedIsDurable(home: seq<Block>, s: State, before: seq<Step>, t: State, op: nat, after: seq<Step>, u: State)
    requires Init(s, home) && Run(s, before, t) && Enabled(t, EndOp(op))
    requires Run(Do(t, EndOp(op)), after, u) && Crash !in after
    ensures op in u.ended || op in u.durable
    ensures op in u.issued && op in t.issued && u.issued[op] == t.issued[op]
    ensures Quiet(u) ==> op in u.durable && (u.issued[op] == [] || exists k: nat :: InGroup(u, op, k))
  {
    InitInv(s, home);
    QuietRun(s, before, t, home);
    assert OpInv(t, op);
    StepInv(t, EndOp(op), home);
    QuietStep(t, EndOp(op), home);
    var v := Do(t, EndOp(op));
    EndsHere(t, op, home);
    QuietRun(v, after, u, home);
    EndedRun(v, after, u, op);
    EndedWritesNothing(v, after, u, home, op);
    assert OpInv(u, op);
  }

  lemma EndsHere(t: State, op: nat, home: seq<Block>)
    requires Inv(t, home) && Enabled(t, EndOp(op))
    ensures var v := Do(t, EndOp(op));
            op in v.ended && op !in v.active && v.issued == t.issued && op in t.issued && !v.panicked
  {
    assert OpInv(t, op);
  }

  /** What an operation logs in a step: a log_write of its own that does not panic. */
  ghost function LoggedIn(s: State, step: Step, op: nat): seq<Write>
    requires Enabled(s, step)
  {
    if step.LogWrite? && step.op == op && !Do(s, step).panicked then [Write(op, step.bn, step.data)] else []
  }

  /** And in a run. */
  ghost function Logged(s: State, steps: seq<Step>, op: nat): seq<Write>
    decreases |steps|
  {
    if steps == [] || !Enabled(s, steps[0]) then []
    else LoggedIn(s, steps[0], op) + Logged(Do(s, steps[0]), steps[1..], op)
  }

  ghost function Before(s: State, op: nat): seq<Write> {
    if op in s.issued then s.issued[op] else []
  }

  /** The recorded writes of an operation are the ones it made, in order. */
  lemma {:induction false} IssuedIsLogged(s: State, steps: seq<Step>, t: State, home: seq<Block>, op: nat)
    requires Inv(s, home) && Run(s, steps, t)
    ensures Before(t, op) == Before(s, op) + Logged(s, steps, op)
    decreases |steps|
  {
    if steps != [] {
      var u := Do(s, steps[0]);
      StepInv(s, steps[0], home);
      OneLogged(s, steps[0], home, op);
      IssuedIsLogged(u, steps[1..], t, home, op);
      Joined(Before(s, op), LoggedIn(s, steps[0], op), Logged(u, steps[1..], op));
    }
  }

  lemma OneLogged(s: State, step: Step, home: seq<Block>, op: nat)
    requires Inv(s, home) && Enabled(s, step)
    ensures Before(Do(s, step), op) == Before(s, op) + LoggedIn(s, step, op)
  {
  }

  lemma Joined(a: seq<Write>, b: seq<Write>, c: seq<Write>)
    ensures a + b + c == a + (b + c)
  {
  }

  // ---------- commit and recovery end ----------

  /** How many disk steps are left of a commit or a recovery. */
  ghost function Left(c: Core): nat
    requires |c.disk.header.block| >= c.disk.header.n
  {
    match c.pc
    case Idle => 0
    case CommitLog(t) => if t < |c.lh| then 2 * |c.lh| + 2 - t else 0
    case CommitHead => |c.lh| + 2
    case CommitInstall(t) => if t < |c.lh| then |c.lh| + 1 - t else 0
    case CommitClear => 1
    case CommitDone => 0
    case RecoverRead => c.disk.header.n + 2
    case RecoverInstall(t) => if t < |c.lh| then |c.lh| + 1 - t else 0
    case RecoverClear => 1
  }

  /** Inv, unfolded only at a Gate. */
  ghost predicate InvIs(s: State, home: seq<Block>) {
    forall z: nat {:trigger Gate(z)} :: Gate(z) ==> Inv(s, home)
  }

  /** `n` disk steps. */
  function Writes(n: nat): (steps: seq<Step>)
    ensures |steps| == n && forall i :: 0 <= i < n ==> steps[i] == DiskWrite
  {
    if n == 0 then [] else [DiskWrite] + Writes(n - 1)
  }

  predicate HeaderFits(c: Core) {
    |c.disk.header.block| >= c.disk.header.n
  }

  /** The writes of the open transaction become a group, once the header is written. */
  ghost function GroupsAfter(s: State): seq<seq<Write>> {
    if s.core.pc.CommitLog? || s.core.pc.CommitHead? then s.groups + [s.cur] else s.groups
  }

  lemma NextWrite(s: State, home: seq<Block>) returns (t: State)
    requires InvIs(s, home) && !s.panicked && !s.core.pc.Idle? && !s.core.pc.CommitDone? && HeaderFits(s.core)
    ensures Enabled(s, DiskWrite) && t == Do(s, DiskWrite) && InvIs(t, home) && !t.panicked && HeaderFits(t.core)
    ensures Left(t.core) + 1 == Left(s.core) && t.committing == s.committing && t.outstanding == s.outstanding
    ensures t.durable == s.durable && t.ended == s.ended && GroupsAfter(t) == GroupsAfter(s)
    ensures Booted(s) ==> Booted(t) && !t.core.pc.Idle?
    ensures Booted(t) && !Booted(s) ==> t.core.pc.Idle?
  {
    t := StepIs(s, home);
    LeftLess(s.core);
  }

  lemma StepIs(s: State, home: seq<Block>) returns (t: State)
    requires InvIs(s, home) && !s.panicked && !s.core.pc.Idle? && !s.core.pc.CommitDone?
    ensures Enabled(s, DiskWrite) && t == Do(s, DiskWrite) && InvIs(t, home) && HeaderFits(t.core)
    ensures s.core.pc.CommitHead? ==> s.core.lh != []
  {
    assert Gate(0);
    var base := ApplyGroups(home, s.groups);
    StepKeepsInv(s.core, base, ApplyWrites(base, s.cur));
    t := Do(s, DiskWrite);
    StepInv(s, DiskWrite, home);
  }

  lemma LeftLess(c: Core)
    requires CanStep(c) && (c.pc.CommitHead? ==> c.lh != [])
    ensures HeaderFits(DiskStep(c)) && Left(DiskStep(c)) + 1 == Left(c)
  {
  }

  lemma LastStep(s: State, home: seq<Block>) returns (t: State)
    requires InvIs(s, home) && !s.panicked && s.core.pc.CommitDone?
    ensures Enabled(s, Finish) && t == Do(s, Finish) && InvIs(t, home) && !t.panicked && Quiet(t)
    ensures t.durable == s.durable + s.ended && t.groups == s.groups
  {
    assert Gate(0);
    StepInv(s, Finish, home);
    t := Do(s, Finish);
  }

  lemma {:induction false} CommitWrites(s: State, home: seq<Block>) returns (t: State)
    requires InvIs(s, home) && !s.panicked && HeaderFits(s.core) && Booted(s) && !s.core.pc.Idle?
    ensures Run(s, Writes(Left(s.core)) + [Finish], t)
    ensures InvIs(t, home) && !t.panicked && Quiet(t) && t.durable == s.durable + s.ended && t.groups == GroupsAfter(s)
    decreases Left(s.core)
  {
    if s.core.pc.CommitDone? {
      t := LastStep(s, home);
      assert Writes(0) + [Finish] == [Finish] && [Finish][1..] == [] && Run(t, [], t);
    } else {
      var u := NextWrite(s, home);
      t := CommitWrites(u, home);
      var n := Left(s.core);
      assert Writes(n) + [Finish] == [DiskWrite] + (Writes(n - 1) + [Finish]);
      assert ([DiskWrite] + (Writes(n - 1) + [Finish]))[1..] == Writes(n - 1) + [Finish];
    }
  }

  /**
   A commit runs to its end, in its disk writes and one more step: nothing is under way
   then, what was logged is a group, and every operation that ended is acknowledged.
   */
  lemma CommitEnds(home: seq<Block>, s: State, steps: seq<Step>, t: State) returns (u: State)
    requires Init(s, home) && Run(s, steps, t) && t.committing && !t.panicked
    ensures HeaderFits(t.core) && Run(t, Writes(Left(t.core)) + [Finish], u) && Quiet(u) && !u.panicked
    ensures u.durable == t.durable + t.ended && u.groups == if t.cur == [] then t.groups else t.groups + [t.cur]
  {
    InitInv(s, home);
    QuietRun(s, steps, t, home);
    u := CommitWrites(t, home);
    LoggedSomething(t, home);
  }

  /** A commit before its header write has something to write, and after it nothing. */
  lemma LoggedSomething(t: State, home: seq<Block>)
    requires Inv(t, home) && QuietInv(t) && t.committing
    ensures GroupsAfter(t) == if t.cur == [] then t.groups else t.groups + [t.cur]
  {
  }

  lemma {:induction false} RecoveryWrites(s: State, home: seq<Block>) returns (t: State)
    requires InvIs(s, home) && !s.panicked && HeaderFits(s.core) && !Booted(s) && !s.committing && s.outstanding == 0
    ensures Run(s, Writes(Left(s.core)), t) && InvIs(t, home) && !t.panicked && Quiet(t) && t.groups == s.groups
    decreases Left(s.core)
  {
    var u := NextWrite(s, home);
    var n := Left(s.core);
    assert Writes(n) == [DiskWrite] + Writes(n - 1) && ([DiskWrite] + Writes(n - 1))[1..] == Writes(n - 1);
    if Booted(u) {
      t := u;
    } else {
      t := RecoveryWrites(u, home);
    }
  }

  /** A recovery, too: the home blocks are then the committed ones. */
  lemma RecoveryEnds(home: seq<Block>, s: State, steps: seq<Step>, t: State) returns (u: State)
    requires Init(s, home) && Run(s, steps, t) && !Booted(t) && !t.panicked
    ensures HeaderFits(t.core) && Run(t, Writes(Left(t.core)), u) && Quiet(u) && !u.panicked
    ensures u.core.disk.home == ApplyGroups(home, t.groups) && u.core.disk.header.n == 0
  {
    InitInv(s, home);
    RunInv(s, steps, t, home);
    u := RecoveryWrites(t, home);
    assert Inv(u, home) by { assert Gate(0); }
    assert u.core.disk.header.block[..0] == [];
  }
}
