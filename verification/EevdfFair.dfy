/**
 Fairness of the EEVDF scheduler over whole runs on one hart with a fixed set of
 processes that never sleep: scheduling passes and timer ticks of kernel/proc.c and
 kernel/trap.c in turn, with the kernel's own unsigned arithmetic.
 */
module EevdfFair {
  import opened Eevdf
  import opened EevdfImpl

  /** The process table and the slot that is running, or -1. */
  datatype Sched = Sched(ps: seq<Proc>, cur: int)

  /** A scheduling pass that finds a process. */
  ghost predicate PickStep(s: Sched, t: Sched) {
    s.cur == -1 &&
    exists st: Stats, best: int ::
      && IsStats(s.ps, st) && IsBest(s.ps, st, |s.ps|, best) && best >= 0
      && t == Sched(Dispatched(s.ps, st, best), best)
  }

  /** A timer interrupt while a process runs. */
  ghost predicate TickStep(s: Sched, t: Sched) {
    && 0 <= s.cur < |s.ps| && s.ps[s.cur].weight > 0
    && var p := TimerTicked(s.ps[s.cur]);
       t == Sched(s.ps[s.cur := p], if p.state == RUNNING then s.cur else -1)
  }

  ghost predicate StepAt(tr: seq<Sched>, k: nat)
    requires k + 1 < |tr|
  {
    PickStep(tr[k], tr[k + 1]) || TickStep(tr[k], tr[k + 1])
  }

  ghost predicate IsRun(tr: seq<Sched>) {
    tr != [] && forall k :: 0 <= k < |tr| - 1 ==> StepAt(tr, k)
  }

  /** Every runnable process starts at the same virtual time with a full slice; nothing runs yet. */
  ghost predicate Start(s: Sched) {
    && s.cur == -1 && |s.ps| <= NPROC && GoodWeights(s.ps)
    && (forall i :: 0 <= i < |s.ps| ==> s.ps[i].state != RUNNING)
    && (forall i :: 0 <= i < |s.ps| && OnRq(s.ps[i]) ==> s.ps[i].remain == BASE_SLICE)
    && (forall i, j :: 0 <= i < |s.ps| && 0 <= j < |s.ps| && OnRq(s.ps[i]) && OnRq(s.ps[j]) ==>
          s.ps[i].vruntime == s.ps[j].vruntime)
  }

  /** How far slot `i` is ahead of the weighted average, times the total weight. */
  ghost function Ahead(ps: seq<Proc>, i: nat): int
    requires i < |ps|
  {
    ps[i].vruntime * SumWeight(ps) - SumLag(ps, 0)
  }

  /** The ticks of the current slice that slot `i` has used: a process that is not running may have used all. */
  ghost function Used(s: Sched, i: nat): nat
    requires i < |s.ps| && s.ps[i].remain <= BASE_SLICE
  {
    if i == s.cur then BASE_SLICE - s.ps[i].remain else BASE_SLICE
  }

  ghost predicate Queue(s: Sched) {
    && -1 <= s.cur < |s.ps| <= NPROC && GoodWeights(s.ps)
    && (forall i :: 0 <= i < |s.ps| ==> (s.ps[i].state == RUNNING <==> i == s.cur))
    && (forall i :: 0 <= i < |s.ps| && OnRq(s.ps[i]) ==> 1 <= s.ps[i].remain <= BASE_SLICE)
  }

  /** No process is ahead of the average by more than the ticks it may have run since it was eligible. */
  ghost predicate Capped(s: Sched)
    requires Queue(s)
  {
    forall i :: 0 <= i < |s.ps| && OnRq(s.ps[i]) ==>
      Ahead(s.ps, i) <= Used(s, i) * TickDelta(s.ps[i].weight) * SumWeight(s.ps)
  }

  ghost predicate Fair(s: Sched) {
    Queue(s) && Capped(s)
  }

  // ---------- sums ----------

  lemma {:induction false} SameSums(ps: seq<Proc>, qs: seq<Proc>)
    requires |ps| == |qs|
    requires forall i :: 0 <= i < |ps| ==>
             Wt(ps[i]) == Wt(qs[i]) && ps[i].vruntime == qs[i].vruntime && OnRq(ps[i]) == OnRq(qs[i])
    ensures SumWeight(ps) == SumWeight(qs) && SumLag(ps, 0) == SumLag(qs, 0) && CountRq(ps) == CountRq(qs)
  {
    if ps != [] { SameSums(ps[..|ps| - 1], qs[..|qs| - 1]); }
  }

  lemma {:induction false} UpdateSums(ps: seq<Proc>, i: nat, q: Proc)
    requires i < |ps| && Wt(q) == Wt(ps[i]) && OnRq(q) == OnRq(ps[i])
    ensures SumWeight(ps[i := q]) == SumWeight(ps) && CountRq(ps[i := q]) == CountRq(ps)
    ensures SumLag(ps[i := q], 0) == SumLag(ps, 0) + (q.vruntime - ps[i].vruntime) * Wt(q)
  {
    var k := |ps| - 1;
    if i < k {
      UpdateSums(ps[..k], i, q);
      assert ps[i := q][..k] == ps[..k][i := q];
    } else {
      assert ps[i := q][..k] == ps[..k];
      assert (q.vruntime - 0) * Wt(q) == (ps[i].vruntime - 0) * Wt(q) + (q.vruntime - ps[i].vruntime) * Wt(q);
    }
  }

  /** The weighted sum of the leads, measured from any total weight and sum. */
  ghost function SumAhead(ps: seq<Proc>, total: int, sum: int): int {
    if ps == [] then 0
    else
      var p := ps[|ps| - 1];
      SumAhead(ps[..|ps| - 1], total, sum) + Wt(p) * (p.vruntime * total - sum)
  }

  lemma {:induction false} SumAheadSplit(ps: seq<Proc>, total: int, sum: int)
    ensures SumAhead(ps, total, sum) == total * SumLag(ps, 0) - sum * SumWeight(ps)
  {
    if ps != [] {
      var k := |ps| - 1;
      SumAheadSplit(ps[..k], total, sum);
      var v, w := ps[k].vruntime, Wt(ps[k]);
      assert w * (v * total - sum) == total * (v * w) - sum * w;
      assert total * (SumLag(ps[..k], 0) + v * w) == total * SumLag(ps[..k], 0) + total * (v * w);
      assert sum * (SumWeight(ps[..k]) + w) == sum * SumWeight(ps[..k]) + sum * w;
      assert (v - 0) * w == v * w;
    }
  }

  /** Leads and lags balance: weighted by the weights they add up to nothing. */
  lemma LeadsBalance(ps: seq<Proc>)
    ensures SumAhead(ps, SumWeight(ps), SumLag(ps, 0)) == 0
  {
    SumAheadSplit(ps, SumWeight(ps), SumLag(ps, 0));
    assert SumWeight(ps) * SumLag(ps, 0) == SumLag(ps, 0) * SumWeight(ps);
  }

  /** If no weighted lead exceeds `cap`, one slot's lag is at most the others' leads together. */
  lemma {:induction false} OthersBound(ps: seq<Proc>, j: nat, total: int, sum: int, cap: nat)
    requires forall i :: 0 <= i < |ps| && OnRq(ps[i]) ==> Wt(ps[i]) * (ps[i].vruntime * total - sum) <= cap
    requires j < |ps| ==> OnRq(ps[j])
    ensures j < |ps| ==> CountRq(ps) >= 1
    ensures j < |ps| ==>
            SumAhead(ps, total, sum) <= Wt(ps[j]) * (ps[j].vruntime * total - sum) + (CountRq(ps) - 1) * cap
    ensures j >= |ps| ==> SumAhead(ps, total, sum) <= CountRq(ps) * cap
  {
    if ps != [] {
      var k := |ps| - 1;
      OthersBound(ps[..k], j, total, sum, cap);
      var c := CountRq(ps[..k]);
      assert (c + 1) * cap == c * cap + cap;
      assert (c + 1 - 1) * cap == c * cap;
      if !OnRq(ps[k]) { assert Wt(ps[k]) * (ps[k].vruntime * total - sum) == 0; }
      if j < k {
        assert ps[..k][j] == ps[j];
        assert (c - 1) * cap + cap == c * cap;
      }
    }
  }

  // ---------- what the invariant gives ----------

  lemma WeightedLead(w: nat, used: nat, total: nat, x: int)
    requires ValidWeight(w) && used <= BASE_SLICE && x <= used * TickDelta(w) * total
    ensures w * x <= SLICE_WORK * total
  {
    TickWork(w);
    var d := TickDelta(w);
    MulLeInt(w, x, used * d * total);
    assert w * (used * d * total) == (used * (w * d)) * total;
    MulLe(used, BASE_SLICE, w * d, TICK_WORK);
    MulLe(used * (w * d), SLICE_WORK, total, total);
  }

  /** The other side: no process lags by more than the other processes' slices. */
  lemma LagBound(s: Sched, j: nat)
    requires Fair(s) && j < |s.ps| && OnRq(s.ps[j])
    ensures CountRq(s.ps) >= 1
    ensures s.ps[j].weight * -Ahead(s.ps, j) <= (CountRq(s.ps) - 1) * (SLICE_WORK * SumWeight(s.ps))
  {
    var total, sum := SumWeight(s.ps), SumLag(s.ps, 0);
    forall i | 0 <= i < |s.ps| && OnRq(s.ps[i])
      ensures Wt(s.ps[i]) * (s.ps[i].vruntime * total - sum) <= SLICE_WORK * total
    {
      WeightedLead(s.ps[i].weight, Used(s, i), total, Ahead(s.ps, i));
    }
    OthersBound(s.ps, j, total, sum, SLICE_WORK * total);
    LeadsBalance(s.ps);
    var w, x := s.ps[j].weight, Ahead(s.ps, j);
    assert w * -x == -(w * x);
  }

  /** So virtual times stay close together, and the unsigned arithmetic never wraps. */
  lemma FairSpread(s: Sched)
    requires Fair(s)
    ensures Spread(s.ps, SPREAD_LIMIT)
  {
    forall i, j | 0 <= i < |s.ps| && 0 <= j < |s.ps| && OnRq(s.ps[i]) && OnRq(s.ps[j])
      ensures s.ps[i].vruntime - s.ps[j].vruntime < SPREAD_LIMIT
    {
      LagBound(s, j);
      CountBound(s.ps);
      SumWeightBound(s.ps);
      SpreadArith(SumWeight(s.ps), s.ps[i].vruntime, s.ps[j].vruntime, SumLag(s.ps, 0),
                  s.ps[i].weight, s.ps[j].weight, Used(s, i), CountRq(s.ps));
    }
  }

  lemma {:induction false} CountBound(ps: seq<Proc>)
    ensures CountRq(ps) <= |ps|
  {
    if ps != [] { CountBound(ps[..|ps| - 1]); }
  }

  lemma SpreadArith(total: nat, vi: nat, vj: nat, sum: int, wi: nat, wj: nat, used: nat, n: nat)
    requires total > 0 && ValidWeight(wi) && ValidWeight(wj) && used <= BASE_SLICE && 1 <= n <= NPROC
    requires vi * total - sum <= used * TickDelta(wi) * total
    requires wj * -(vj * total - sum) <= (n - 1) * (SLICE_WORK * total)
    ensures vi - vj < SPREAD_LIMIT
  {
    var lag := sum - vj * total;
    assert lag <= NPROC * SLICE_WORK * total by {
      MulLe(n - 1, NPROC, SLICE_WORK * total, SLICE_WORK * total);
      if lag > 0 { MulLe(1, wj, lag, lag); }
    }
    DivBounds(TICK_WORK, wi);
    var d := TickDelta(wi);
    assert d <= TICK_WORK by { MulLe(1, wi, d, d); }
    MulLe(used, BASE_SLICE, d, TICK_WORK);
    MulLe(used * d, SLICE_WORK, total, total);
    assert (vi - vj) * total == (vi * total - sum) + lag;
    assert NPROC * SLICE_WORK * total + SLICE_WORK * total == (NPROC * SLICE_WORK + SLICE_WORK) * total;
    if vi - vj >= SPREAD_LIMIT { MulLe(SPREAD_LIMIT, vi - vj, total, total); }
  }

  // ---------- preservation ----------

  lemma StartFair(s: Sched)
    requires Start(s)
    ensures Fair(s)
  {
    forall i | 0 <= i < |s.ps| && OnRq(s.ps[i])
      ensures Ahead(s.ps, i) <= Used(s, i) * TickDelta(s.ps[i].weight) * SumWeight(s.ps)
    {
      EqualTimes(s.ps, s.ps[i].vruntime);
    }
  }

  lemma {:induction false} EqualTimes(ps: seq<Proc>, v: nat)
    requires forall i :: 0 <= i < |ps| && OnRq(ps[i]) ==> ps[i].vruntime == v
    ensures SumLag(ps, 0) == v * SumWeight(ps)
  {
    if ps != [] {
      var k := |ps| - 1;
      EqualTimes(ps[..k], v);
      assert v * (SumWeight(ps[..k]) + Wt(ps[k])) == v * SumWeight(ps[..k]) + v * Wt(ps[k]);
    }
  }

  /** A pass changes no weight and no virtual time, and it chooses a process that is not ahead. */
  lemma PickFacts(s: Sched, t: Sched)
    requires Fair(s) && PickStep(s, t)
    ensures Queue(t) && |t.ps| == |s.ps| && t.cur >= 0 && OnRq(s.ps[t.cur]) && Ahead(s.ps, t.cur) <= 0
    ensures forall i :: 0 <= i < |s.ps| ==>
              Wt(s.ps[i]) == Wt(t.ps[i]) && s.ps[i].vruntime == t.ps[i].vruntime && OnRq(s.ps[i]) == OnRq(t.ps[i])
              && s.ps[i].weight == t.ps[i].weight && s.ps[i].remain == t.ps[i].remain
  {
    var st: Stats, best: int :|
      && IsStats(s.ps, st) && IsBest(s.ps, st, |s.ps|, best) && best >= 0
      && t == Sched(Dispatched(s.ps, st, best), best);
    FairSpread(s);
    EligibleExactly(s.ps, st, best);
  }

  lemma PickKeepsFair(s: Sched, t: Sched)
    requires Fair(s) && PickStep(s, t)
    ensures Fair(t) && |t.ps| == |s.ps|
    ensures SumWeight(t.ps) == SumWeight(s.ps) && SumLag(t.ps, 0) == SumLag(s.ps, 0) && CountRq(t.ps) == CountRq(s.ps)
    ensures forall i :: 0 <= i < |s.ps| ==>
              s.ps[i].vruntime == t.ps[i].vruntime && t.ps[i].weight == s.ps[i].weight && OnRq(t.ps[i]) == OnRq(s.ps[i])
  {
    PickFacts(s, t);
    SameSums(s.ps, t.ps);
    forall i | 0 <= i < |t.ps| && OnRq(t.ps[i])
      ensures Ahead(t.ps, i) <= Used(t, i) * TickDelta(t.ps[i].weight) * SumWeight(t.ps)
    {
      PickCapped(s, t, i);
    }
  }

  lemma PickCapped(s: Sched, t: Sched, i: nat)
    requires Queue(s) && Queue(t) && i < |s.ps| == |t.ps| && OnRq(s.ps[i]) && OnRq(t.ps[i]) && s.cur == -1
    requires SumWeight(t.ps) == SumWeight(s.ps) && SumLag(t.ps, 0) == SumLag(s.ps, 0)
    requires s.ps[i].vruntime == t.ps[i].vruntime && s.ps[i].weight == t.ps[i].weight
    requires i == t.cur ==> Ahead(s.ps, i) <= 0
    requires Ahead(s.ps, i) <= Used(s, i) * TickDelta(s.ps[i].weight) * SumWeight(s.ps)
    ensures Ahead(t.ps, i) <= Used(t, i) * TickDelta(t.ps[i].weight) * SumWeight(t.ps)
  {
    if i == t.cur { assert 0 <= Used(t, i) * TickDelta(t.ps[i].weight) * SumWeight(t.ps); }
  }

  lemma TickFacts(s: Sched, t: Sched)
    requires Queue(s) && TickStep(s, t)
    ensures Queue(t) && |t.ps| == |s.ps| && OnRq(s.ps[s.cur]) && OnRq(t.ps[s.cur])
    ensures SumWeight(t.ps) == SumWeight(s.ps) && CountRq(t.ps) == CountRq(s.ps)
    ensures SumLag(t.ps, 0) == SumLag(s.ps, 0) + s.ps[s.cur].weight * TickDelta(s.ps[s.cur].weight)
    ensures forall i :: 0 <= i < |s.ps| && i != s.cur ==> t.ps[i] == s.ps[i]
    ensures t.ps[s.cur].weight == s.ps[s.cur].weight
    ensures t.ps[s.cur].vruntime == s.ps[s.cur].vruntime + TickDelta(s.ps[s.cur].weight)
    ensures Used(t, s.cur) == Used(s, s.cur) + 1
  {
    var p, q := s.ps[s.cur], t.ps[s.cur];
    UpdateSums(s.ps, s.cur, q);
    assert (q.vruntime - p.vruntime) * Wt(q) == p.weight * TickDelta(p.weight);
  }

  lemma TickKeepsFair(s: Sched, t: Sched)
    requires Fair(s) && TickStep(s, t)
    ensures Fair(t)
  {
    TickFacts(s, t);
    forall i | 0 <= i < |t.ps| && OnRq(t.ps[i])
      ensures Ahead(t.ps, i) <= Used(t, i) * TickDelta(t.ps[i].weight) * SumWeight(t.ps)
    {
      var c := s.ps[s.cur];
      var d := TickDelta(c.weight);
      if i == s.cur {
        TickArith(c.vruntime, Used(s, i), d, c.weight, SumWeight(s.ps), SumLag(s.ps, 0));
      } else {
        assert Used(t, i) == Used(s, i);
        StillCapped(s.ps[i].vruntime * SumWeight(s.ps), SumLag(s.ps, 0), c.weight, d,
                    Used(s, i) * TickDelta(s.ps[i].weight) * SumWeight(s.ps));
      }
    }
  }

  /** The average only moves up under a process that does not run. */
  lemma StillCapped(vw: int, sum: int, w: nat, d: nat, cap: int)
    requires vw - sum <= cap
    ensures vw - (sum + w * d) <= cap
  {
    assert w * d >= 0;
  }

  lemma TickArith(v: nat, used: nat, d: nat, w: nat, total: nat, sum: int)
    requires v * total - sum <= used * d * total
    ensures (v + d) * total - (sum + w * d) <= (used + 1) * d * total
  {
    assert (v + d) * total == v * total + d * total;
    assert (used + 1) * d * total == used * d * total + d * total;
  }

  lemma StepFair(s: Sched, t: Sched)
    requires Fair(s) && (PickStep(s, t) || TickStep(s, t))
    ensures Fair(t) && SumWeight(t.ps) == SumWeight(s.ps) && CountRq(t.ps) == CountRq(s.ps) && |t.ps| == |s.ps|
    ensures forall i :: 0 <= i < |s.ps| ==> t.ps[i].weight == s.ps[i].weight && OnRq(t.ps[i]) == OnRq(s.ps[i])
  {
    if PickStep(s, t) {
      PickKeepsFair(s, t);
    } else {
      TickKeepsFair(s, t);
      TickFacts(s, t);
    }
  }

  lemma {:induction false} RunFair(tr: seq<Sched>, k: nat)
    requires IsRun(tr) && Fair(tr[0]) && k < |tr|
    ensures Fair(tr[k]) && |tr[k].ps| == |tr[0].ps|
    ensures SumWeight(tr[k].ps) == SumWeight(tr[0].ps) && CountRq(tr[k].ps) == CountRq(tr[0].ps)
    ensures forall i :: 0 <= i < |tr[0].ps| ==>
            tr[k].ps[i].weight == tr[0].ps[i].weight && OnRq(tr[k].ps[i]) == OnRq(tr[0].ps[i])
  {
    if k > 0 {
      RunFair(tr, k - 1);
      assert StepAt(tr, k - 1);
      StepFair(tr[k - 1], tr[k]);
    }
  }

  // ---------- the results ----------

  /**
   Two-sided fairness.  In every state of every run, each process is ahead of the
   weighted average virtual time by at most BASE_SLICE of its own ticks, and behind
   it by at most (n - 1) * 5120000 / w.
   */
  lemma TwoSidedFairness(tr: seq<Sched>, k: nat, i: nat)
    requires IsRun(tr) && Start(tr[0]) && k < |tr| && i < |tr[k].ps| && OnRq(tr[k].ps[i])
    ensures ValidWeight(tr[k].ps[i].weight)
    ensures var ps := tr[k].ps;
            var v, w, total, sum, n := ps[i].vruntime, ps[i].weight, SumWeight(ps), SumLag(ps, 0), CountRq(ps);
            && v * total - sum <= BASE_SLICE * TickDelta(w) * total
            && w * (sum - v * total) <= (n - 1) * (SLICE_WORK * total)
  {
    StartFair(tr[0]);
    RunFair(tr, k);
    FairBounds(tr[k], i);
  }

  lemma FairBounds(s: Sched, i: nat)
    requires Fair(s) && i < |s.ps| && OnRq(s.ps[i])
    ensures var v, w, total, sum, n :=
            s.ps[i].vruntime, s.ps[i].weight, SumWeight(s.ps), SumLag(s.ps, 0), CountRq(s.ps);
            && ValidWeight(w)
            && v * total - sum <= BASE_SLICE * TickDelta(w) * total
            && w * (sum - v * total) <= (n - 1) * (SLICE_WORK * total)
  {
    LagBound(s, i);
    LeadArith(Ahead(s.ps, i), Used(s, i), TickDelta(s.ps[i].weight), SumWeight(s.ps));
    assert -Ahead(s.ps, i) == SumLag(s.ps, 0) - s.ps[i].vruntime * SumWeight(s.ps);
  }

  lemma LeadArith(x: int, used: nat, d: nat, total: nat)
    requires used <= BASE_SLICE && x <= used * d * total
    ensures x <= BASE_SLICE * d * total
  {
    MulLe(used, BASE_SLICE, d, d);
    MulLe(used * d, BASE_SLICE * d, total, total);
  }

  /** The number of timer ticks among the first `m` steps of a run. */
  ghost function Ticks(tr: seq<Sched>, m: nat): nat
    requires m < |tr|
  {
    if m == 0 then 0 else Ticks(tr, m - 1) + if tr[m - 1].cur >= 0 then 1 else 0
  }

  /** While slot `j` does not run, every tick lets it fall behind by the work of whoever runs. */
  lemma {:induction false} FallsBehind(tr: seq<Sched>, from: nat, m: nat, j: nat)
    requires IsRun(tr) && Fair(tr[0]) && from <= m < |tr| && j < |tr[0].ps|
    requires forall k :: from <= k < m ==> tr[k].cur != j
    ensures |tr[m].ps| == |tr[from].ps| == |tr[0].ps|
    ensures Ahead(tr[m].ps, j) <= Ahead(tr[from].ps, j) - (Ticks(tr, m) - Ticks(tr, from)) * (TICK_WORK - MAX_WEIGHT)
  {
    RunFair(tr, from);
    if m > from {
      FallsBehind(tr, from, m - 1, j);
      RunFallsBehind(tr, m - 1, j);
      FallArith(Ahead(tr[m].ps, j), Ahead(tr[m - 1].ps, j), Ahead(tr[from].ps, j),
                Ticks(tr, m - 1) - Ticks(tr, from), if tr[m - 1].cur >= 0 then 1 else 0);
    }
  }

  lemma RunFallsBehind(tr: seq<Sched>, k: nat, j: nat)
    requires IsRun(tr) && Fair(tr[0]) && k + 1 < |tr| && j < |tr[0].ps| && j != tr[k].cur
    ensures |tr[k].ps| == |tr[k + 1].ps| == |tr[0].ps|
    ensures Ahead(tr[k + 1].ps, j) <= Ahead(tr[k].ps, j) - if tr[k].cur >= 0 then TICK_WORK - MAX_WEIGHT else 0
  {
    RunFair(tr, k);
    assert StepAt(tr, k);
    StepFallsBehind(tr[k], tr[k + 1], j);
  }

  lemma FallArith(z: int, y: int, x: int, n: int, k: int)
    requires y <= x - n * (TICK_WORK - MAX_WEIGHT) && 0 <= k <= 1
    requires z <= y - if k == 1 then TICK_WORK - MAX_WEIGHT else 0
    ensures z <= x - (n + k) * (TICK_WORK - MAX_WEIGHT)
  {
  }

  lemma StepFallsBehind(s: Sched, t: Sched, j: nat)
    requires Fair(s) && (PickStep(s, t) || TickStep(s, t)) && j < |s.ps| && j != s.cur
    ensures |t.ps| == |s.ps|
    ensures Ahead(t.ps, j) <= Ahead(s.ps, j) - if s.cur >= 0 then TICK_WORK - MAX_WEIGHT else 0
  {
    if s.cur >= 0 {
      TickFacts(s, t);
      TickWork(s.ps[s.cur].weight);
    } else {
      PickKeepsFair(s, t);
    }
  }

  /**
   No starvation.  A process that does not run between states `from` and `to` of a
   run, N ticks apart, has N * w * (1024000 - 88761) <= n * 5120000 * W.  So it runs
   again within a number of ticks that depends only on how many processes there are
   and on the weights.
   */
  lemma RunsAgain(tr: seq<Sched>, from: nat, to: nat, j: nat)
    requires IsRun(tr) && Start(tr[0]) && from <= to < |tr| && j < |tr[0].ps| && OnRq(tr[0].ps[j])
    requires forall k :: from <= k < to ==> tr[k].cur != j
    ensures (Ticks(tr, to) - Ticks(tr, from)) * (TICK_WORK - MAX_WEIGHT) * tr[0].ps[j].weight
            <= CountRq(tr[0].ps) * SLICE_WORK * SumWeight(tr[0].ps)
  {
    StartFair(tr[0]);
    RunFair(tr, from);
    RunFair(tr, to);
    FallsBehind(tr, from, to, j);
    var s, t := tr[from], tr[to];
    LagBound(t, j);
    var w, total, n := tr[0].ps[j].weight, SumWeight(tr[0].ps), CountRq(tr[0].ps);
    WeightedLead(w, Used(s, j), total, Ahead(s.ps, j));
    RunsAgainArith((Ticks(tr, to) - Ticks(tr, from)) * (TICK_WORK - MAX_WEIGHT), w, total, n, Ahead(s.ps, j),
        Ahead(t.ps, j));
  }

  lemma RunsAgainArith(fell: int, w: nat, total: nat, n: nat, x: int, y: int)
    requires n >= 1 && y <= x - fell && w * x <= SLICE_WORK * total && w * -y <= (n - 1) * (SLICE_WORK * total)
    ensures fell * w <= n * SLICE_WORK * total
  {
    MulLeInt(w, fell, x - y);
    assert w * (x - y) == w * x + w * -y;
    assert (n - 1) * (SLICE_WORK * total) + SLICE_WORK * total == n * SLICE_WORK * total;
  }
}
