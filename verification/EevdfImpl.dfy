/** The loops of kernel/proc.c over the process table that the scheduler is made of. */
module EevdfImpl {
  import opened Eevdf

  /** What the scan does to one slot before a process is chosen. */
  function Marked(p: Proc, st: Stats): Proc {
    p.(eligible := p.state == RUNNABLE && IsEligible(p, st))
  }

  predicate Candidate(p: Proc, st: Stats) {
    p.state == RUNNABLE && IsEligible(p, st)
  }

  /** `best` is the first candidate among those of least deadline below `n`, or -1 when there is none. */
  predicate IsBest(ps: seq<Proc>, st: Stats, n: nat, best: int)
    requires n <= |ps|
  {
    if best < 0 then best == -1 && forall j :: 0 <= j < n ==> !Candidate(ps[j], st)
    else
      && best < n && Candidate(ps[best], st)
      && forall j :: 0 <= j < n && Candidate(ps[j], st) ==>
           ps[best].vdeadline < ps[j].vdeadline || (ps[best].vdeadline == ps[j].vdeadline && best <= j)
  }

  /** Something is runnable and nothing is running. */
  predicate Ready(ps: seq<Proc>) {
    && (exists i :: 0 <= i < |ps| && ps[i].state == RUNNABLE)
    && (forall i :: 0 <= i < |ps| ==> ps[i].state != RUNNING)
  }

  /** The table after a scheduling pass that chose `best`. */
  function Dispatched(ps: seq<Proc>, st: Stats, best: int): seq<Proc> {
    seq(|ps|, i requires 0 <= i < |ps| =>
      if i == best then Marked(ps[i], st).(state := RUNNING) else Marked(ps[i], st))
  }

  /** wakeup's effect on the table: every other process asleep on `chan`. */
  function WokenAll(ps: seq<Proc>, chan: nat, me: int): seq<Proc> {
    seq(|ps|, i requires 0 <= i < |ps| =>
      if i != me && ps[i].state == SLEEPING && ps[i].chan == chan && ps[i].weight > 0 then Woken(ps[i]) else ps[i])
  }

  lemma U64Add(a: nat, b: nat)
    ensures U64(U64(a) + U64(b)) == U64(a + b)
  {
    ModAdd(a, b, TWO64);
  }

  lemma ModAdd(a: nat, b: nat, m: nat)
    requires m > 0
    ensures (a % m + b % m) % m == (a + b) % m
  {
    var q, r, s, t := a / m, a % m, b / m, b % m;
    assert a + b == (r + t) + (q + s) * m;
    ModShift(r + t, q + s, m);
  }

  lemma ModUnique(x: nat, q: int, r: int, m: nat)
    requires m > 0 && x == m * q + r && 0 <= r < m
    ensures x % m == r
  {
    var q', r' := x / m, x % m;
    assert x == m * q' + r';
    assert m * (q - q') == r' - r;
    if q > q' { MulLeInt(m, 1, q - q'); } else if q < q' { MulLeInt(m, q - q', -1); }
  }

  lemma ModShift(x: nat, k: nat, m: nat)
    requires m > 0
    ensures (x + k * m) % m == x % m
  {
    var q := x / m;
    assert x + k * m == m * (q + k) + x % m;
    ModUnique(x + k * m, q + k, x % m, m);
  }

  lemma U64Mul(a: nat, w: nat)
    ensures U64(U64(a) * w) == U64(a * w)
  {
    var q := a / TWO64;
    assert a * w == U64(a) * w + (q * w) * TWO64;
    ModShift(U64(a) * w, q * w, TWO64);
  }

  class ProcTable {
    const proc: array<Proc>

    ghost predicate Valid()
      reads this, proc
    {
      proc.Length == NPROC && forall i :: 0 <= i < NPROC ==> DeadlineOk(proc[i])
    }

    /** eevdf_find_min_vruntime */
    method FindMinVruntime() returns (v0: nat, nr: nat)
      requires Valid()
      ensures IsMinV(proc[..], v0) && nr == CountRq(proc[..])
    {
      v0, nr := 0, 0;
      var found := false;
      for i := 0 to proc.Length
        invariant nr == CountRq(proc[..i]) && found == (nr > 0) && IsMinV(proc[..i], v0)
      {
        assert proc[..i + 1] == proc[..i] + [proc[i]];
        MinVAppend(proc[..i], proc[i], v0);
        if OnRq(proc[i]) {
          if !found || proc[i].vruntime < v0 {
            v0 := proc[i].vruntime;
          }
          found := true;
          nr := nr + 1;
        }
      }
      assert proc[..] == proc[..proc.Length];
    }

    /** eevdf_calc_rq_stats, in unsigned 64-bit arithmetic */
    method CalcRqStats(v0: nat, nr: nat) returns (sumWeight: nat, avgNumer: nat)
      requires Valid() && IsMinV(proc[..], v0) && nr == CountRq(proc[..])
      ensures sumWeight == U64(SumWeight(proc[..]))
      ensures SumLag(proc[..], v0) >= 0 && avgNumer == U64(SumLag(proc[..], v0))
    {
      sumWeight, avgNumer := 0, 0;
      if nr == 0 {
        EmptySums(proc[..], v0);
        return;
      }
      for i := 0 to proc.Length
        invariant sumWeight == U64(SumWeight(proc[..i]))
        invariant SumLag(proc[..i], v0) >= 0 && avgNumer == U64(SumLag(proc[..i], v0))
      {
        assert proc[..i + 1][..i] == proc[..i];
        if OnRq(proc[i]) {
          assert OnRq(proc[..][i]);
          ghost var d, w := proc[i].vruntime - v0, proc[i].weight;
          U64Small(w);
          U64Add(SumWeight(proc[..i]), w);
          U64Mul(d, w);
          U64Add(SumLag(proc[..i], v0), d * w);
          sumWeight := U64(sumWeight + proc[i].weight);
          avgNumer := U64(avgNumer + U64(U64(proc[i].vruntime - v0) * proc[i].weight));
        }
      }
      assert proc[..] == proc[..proc.Length];
    }

    /** eevdf_collect_rq_stats */
    method CollectRqStats() returns (st: Stats)
      requires Valid()
      ensures IsStats(proc[..], st)
    {
      var v0, nr := FindMinVruntime();
      var sumWeight, avgNumer := CalcRqStats(v0, nr);
      st := Stats(v0, sumWeight, avgNumer, nr);
    }

    /**
     One pass of scheduler's loop up to swtch: it finds the eligible runnable process
     of least deadline, and it finds one whenever something is runnable and nothing
     is running.
     */
    method Schedule() returns (best: int, st: Stats)
      requires Valid()
      modifies proc
      ensures Valid()
      ensures IsStats(old(proc[..]), st) && IsBest(old(proc[..]), st, NPROC, best)
      ensures proc[..] == Dispatched(old(proc[..]), st, best)
      ensures forall i :: 0 <= i < NPROC ==>
                proc[i] == old(proc[i]).(eligible := old(proc[i].state) == RUNNABLE && IsEligible(old(proc[i]), st),
                  state := if i == best then RUNNING else old(proc[i].state))
      ensures Ready(old(proc[..])) ==> best >= 0
    {
      ghost var ps := proc[..];
      st := CollectRqStats();
      best := -1;
      for i := 0 to proc.Length
        invariant IsBest(ps, st, i, best)
        invariant forall j :: 0 <= j < i ==> proc[j] == Marked(ps[j], st)
        invariant forall j :: i <= j < NPROC ==> proc[j] == ps[j]
      {
        if proc[i].state == RUNNABLE {
          proc[i] := proc[i].(eligible := IsEligible(proc[i], st));
          if proc[i].eligible {
            if best == -1 || proc[i].vdeadline < proc[best].vdeadline {
              best := i;
            }
          }
        } else {
          proc[i] := proc[i].(eligible := false);
        }
      }
      if best != -1 {
        proc[best] := proc[best].(state := RUNNING);
      }
      assert proc[..] == Dispatched(ps, st, best);
      SomeCandidate(ps, st);
    }

    /** The timer branch for the running process `i`. */
    method TimerTick(i: nat)
      requires Valid() && i < NPROC && proc[i].state == RUNNING
      modifies proc
      ensures Valid() && proc[..] == old(proc[..])[i := TimerTicked(old(proc[i]))]
      ensures var v := old(proc[i].vruntime) + TICK_WORK / old(proc[i].weight);
              proc[i] == if old(proc[i].remain) > 1
                then old(proc[i]).(runtime := old(proc[i].runtime) + 1000, vruntime := v, remain :=
                    old(proc[i].remain) - 1)
                else old(proc[i]).(state := RUNNABLE, runtime := old(proc[i].runtime) + 1000, vruntime := v,
                  remain := BASE_SLICE, vdeadline := v + SLICE_WORK / old(proc[i].weight))
    {
      TickKeeps(proc[i]);
      proc[i] := Ticked(proc[i]);
      if proc[i].remain <= 0 {
        proc[i] := proc[i].(remain := BASE_SLICE);
        proc[i] := Refreshed(proc[i]);
        proc[i] := proc[i].(state := RUNNABLE);
      }
    }

    /** wakeup, called by process `me` (or -1 from an interrupt with no process) */
    method Wakeup(chan: nat, me: int)
      requires Valid()
      modifies proc
      ensures Valid() && proc[..] == WokenAll(old(proc[..]), chan, me)
      ensures forall i :: 0 <= i < NPROC ==>
                proc[i] == if i != me && old(proc[i].state) == SLEEPING && old(proc[i].chan) == chan
                  then old(proc[i]).(state := RUNNABLE, remain := BASE_SLICE,
                    vdeadline := old(proc[i].vruntime) + SLICE_WORK / old(proc[i].weight))
                  else old(proc[i])
    {
      for i := 0 to proc.Length
        invariant Valid()
        invariant forall j :: 0 <= j < i ==> proc[j] == WokenAll(old(proc[..]), chan, me)[j]
        invariant forall j :: i <= j < NPROC ==> proc[j] == old(proc[j])
      {
        if i != me {
          if proc[i].state == SLEEPING && proc[i].chan == chan {
            WakeKeeps(proc[i]);
            proc[i] := proc[i].(remain := BASE_SLICE);
            proc[i] := Refreshed(proc[i]);
            proc[i] := proc[i].(state := RUNNABLE);
          }
        }
      }
      assert proc[..] == WokenAll(old(proc[..]), chan, me);
    }

    /** kkill: the first slot with that pid, whatever its state; `ok` is the return value 0. */
    method Kill(pid: nat) returns (ok: bool, ghost i: nat)
      requires Valid()
      modifies proc
      ensures Valid()
      ensures ok <==> exists j :: 0 <= j < NPROC && old(proc[j].pid) == pid
      ensures ok ==> && i < NPROC && old(proc[i].pid) == pid && (forall j :: 0 <= j < i ==> old(proc[j].pid) != pid)
                     && proc[..] == old(proc[..])[i := Killed(old(proc[i]))]
                     && proc[i] == if old(proc[i].state) == SLEEPING
                          then old(proc[i]).(killed := true, state := RUNNABLE, remain := BASE_SLICE, eligible := false,
                            vdeadline := old(proc[i].vruntime) + SLICE_WORK / old(proc[i].weight))
                          else old(proc[i]).(killed := true)
      ensures !ok ==> proc[..] == old(proc[..])
    {
      for k := 0 to proc.Length
        invariant Valid() && proc[..] == old(proc[..])
        invariant forall j :: 0 <= j < k ==> proc[j].pid != pid
      {
        if proc[k].pid == pid {
          if proc[k].state != UNUSED { WakeKeeps(proc[k]); }
          proc[k] := proc[k].(killed := true);
          if proc[k].state == SLEEPING {
            proc[k] := proc[k].(remain := BASE_SLICE);
            proc[k] := proc[k].(eligible := false);
            proc[k] := Refreshed(proc[k]);
            proc[k] := proc[k].(state := RUNNABLE);
          }
          return true, k;
        }
      }
      ok, i := false, 0;
    }

    /** ksetnice */
    method SetNice(pid: nat, value: int) returns (ok: bool, ghost i: nat)
      requires Valid()
      modifies proc
      ensures Valid()
      ensures ok <==>
                0 <= value <= 39
                && exists j :: 0 <= j < NPROC && old(proc[j].state) != UNUSED && old(proc[j].pid) == pid
      ensures ok ==> && i < NPROC && old(proc[i].state) != UNUSED && old(proc[i].pid) == pid
                     && (forall j :: 0 <= j < i ==> old(proc[j].state) == UNUSED || old(proc[j].pid) != pid)
                     && proc[..] == old(proc[..])[i := Reniced(old(proc[i]), value)]
                     && proc[i] == old(proc[i]).(nice := value, weight := NICE_TO_WEIGHT[value],
                          vdeadline := old(proc[i].vruntime) + SLICE_WORK / NICE_TO_WEIGHT[value])
      ensures !ok ==> proc[..] == old(proc[..])
    {
      i := 0;
      if value < 0 || value > 39 {
        return false, 0;
      }
      for k := 0 to proc.Length
        invariant Valid() && proc[..] == old(proc[..])
        invariant forall j :: 0 <= j < k ==> proc[j].state == UNUSED || proc[j].pid != pid
      {
        if proc[k].state != UNUSED && proc[k].pid == pid {
          ReniceKeeps(proc[k], value);
          proc[k] := proc[k].(nice := value);
          proc[k] := proc[k].(weight := NICE_TO_WEIGHT[value]);
          proc[k] := Refreshed(proc[k]);
          return true, k;
        }
      }
      ok := false;
    }

    /** The scheduling side of allocproc and kfork: the first unused slot becomes the child. */
    method Fork(parent: nat, pid: nat) returns (i: int)
      requires Valid() && parent < NPROC && proc[parent].state != UNUSED
      modifies proc
      ensures Valid()
      ensures i < 0 <==> forall j :: 0 <= j < NPROC ==> old(proc[j].state) != UNUSED
      ensures i < 0 ==> proc[..] == old(proc[..])
      ensures i >= 0 ==> && i < NPROC && old(proc[i].state) == UNUSED
                         && (forall j :: 0 <= j < i ==> old(proc[j].state) != UNUSED)
                         && proc[..] == old(proc[..])[i :=
                             ForkChild(NewProc(pid), old(proc[parent])).(state := RUNNABLE)]
                         && var w := NICE_TO_WEIGHT[old(proc[parent].nice)];
                            proc[i] == Proc(RUNNABLE, pid, 0, false, old(proc[parent].nice), w, 0,
                              old(proc[parent].vruntime), old(proc[parent].vruntime) + SLICE_WORK / w, BASE_SLICE,
                                  false)
    {
      for k := 0 to proc.Length
        invariant forall j :: 0 <= j < k ==> proc[j].state != UNUSED
      {
        if proc[k].state == UNUSED {
          ForkKeeps(pid, proc[parent]);
          proc[k] := NewProc(pid);
          proc[k] := ForkChild(proc[k], proc[parent]);
          proc[k] := proc[k].(state := RUNNABLE);
          return k;
        }
      }
      i := -1;
    }
  }

  /** One more slot: the count and the least virtual time. */
  lemma MinVAppend(ps: seq<Proc>, p: Proc, v0: nat)
    requires IsMinV(ps, v0)
    ensures CountRq(ps + [p]) == CountRq(ps) + if OnRq(p) then 1 else 0
    ensures IsMinV(ps + [p], if OnRq(p) && (CountRq(ps) == 0 || p.vruntime < v0) then p.vruntime else v0)
  {
    var qs := ps + [p];
    assert qs[..|ps|] == ps;
    if CountRq(ps) == 0 {
      CountNone(ps);
    } else {
      var m :| 0 <= m < |ps| && OnRq(ps[m]) && ps[m].vruntime == v0;
      assert OnRq(qs[m]) && qs[m].vruntime == v0;
    }
    assert qs[|ps|] == p;
  }

  lemma {:induction false} CountNone(ps: seq<Proc>)
    requires CountRq(ps) == 0
    ensures forall i :: 0 <= i < |ps| ==> !OnRq(ps[i])
  {
    if ps != [] { CountNone(ps[..|ps| - 1]); }
  }

  lemma {:induction false} EmptySums(ps: seq<Proc>, v0: int)
    requires CountRq(ps) == 0
    ensures SumWeight(ps) == 0 && SumLag(ps, v0) == 0
  {
    if ps != [] { EmptySums(ps[..|ps| - 1], v0); }
  }

  /** Something is runnable and nothing is running: then some runnable process is eligible. */
  lemma SomeCandidate(ps: seq<Proc>, st: Stats)
    requires |ps| == NPROC && IsStats(ps, st) && forall i :: 0 <= i < |ps| ==> DeadlineOk(ps[i])
    ensures Ready(ps) ==> exists i :: 0 <= i < NPROC && Candidate(ps[i], st)
  {
    if Ready(ps) {
      var r :| 0 <= r < |ps| && ps[r].state == RUNNABLE;
      assert OnRq(ps[r]);
      assert GoodWeights(ps);
      SumWeightBound(ps);
      LeastIsEligible(ps, st);
      var i :| 0 <= i < |ps| && IsEligible(ps[i], st);
      assert Candidate(ps[i], st);
    }
  }
}
