/** The monitoring phase: each program runs alone once, and its figures are collected. */
module Monitoring {
  import opened Machine
  import opened Programs
  import opened Clocks
  import opened Quanta
  import opened Turns
  import opened Progress

  /** `qs` are the states between quanta, with no program coming or going. */
  ghost predicate Consecutive(policy: Policy, qs: seq<State>, ts: seq<Tick>) {
    |qs| == |ts| + 1 && forall i :: 0 <= i < |ts| ==> Expires(policy, qs[i], ts[i], qs[i + 1])
  }

  // ---------- freezing while monitoring ----------

  lemma {:induction false} MeasureCollects(policy: Policy, wnd: int, rs: int -> Reading, unc: U64, todo: seq<Prog>,
                                           s: Sweep)
    requires Slotted(todo, |s.target|) && wnd <= s.nr
    ensures
      var s' := MeasureAll(policy, wnd, rs, unc, todo, s);
      && Ids(s'.kept) == Ids(s.kept) + Ids(todo) && s'.collected == s.collected + Ids(todo)
      && s'.target == s.target && s'.nr == s.nr
    decreases |todo|
  {
    hide Collected, Accounted, Measured;
    if todo != [] {
      var m := Measure(policy, wnd, rs(todo[0].id), unc, todo[0], s);
      MeasureCollects(policy, wnd, rs, unc, todo[1..], m);
      assert Ids(m.kept) == Ids(s.kept) + [todo[0].id];
      assert Ids(todo) == [todo[0].id] + Ids(todo[1..]);
    }
  }

  lemma IdsJoin(s: seq<Prog>, t: seq<Prog>)
    ensures Ids(s + t) == Ids(s) + Ids(t) && Ids([]) == []
  {
  }

  /** While monitoring, freezing collects every program that ran, charges none and keeps the order. */
  lemma FreezeCollects(policy: Policy, q: State, stop: Times, wait: Times, rs: int -> Reading, unc: U64)
    requires Slotted(q.sch, |q.target|) && q.wnd <= q.nr
    ensures
      var f := Freeze(policy, q, stop, wait, rs, unc);
      && Ids(f.all) == Ids(q.all) + Ids(q.sch) && f.collected == q.collected + Ids(q.sch)
      && f.target == q.target && f.nr == q.nr
      && f.wnd == if q.wnd == Bound(policy, q.nr) then q.wnd + 1 else q.wnd
  {
    hide MeasureAll, Assessed, Frozen, Ids;
    var s := Sweep([], q.target, q.nr, 0, q.collected);
    FrozenSlotted(q.sch, |q.target|, stop);
    var s' := MeasureAll(policy, q.wnd, rs, unc, FrozenAll(q.sch, stop), s);
    MeasureCollects(policy, q.wnd, rs, unc, FrozenAll(q.sch, stop), s);
    IdsJoin(q.all, s'.kept);
    IdsJoin([], q.sch);
  }

  // ---------- the phase ----------

  /** After `k` quanta with the programs `p`. */
  ghost predicate At(p: seq<int>, target: seq<int>, q: State, k: nat)
    requires k <= |p|
  {
    && q.nr == |p| && q.wnd == k && q.target == target
    && Ids(q.all) == (if k == 0 then p else p[k..] + p[..k - 1])
    && Ids(q.sch) == (if k == 0 then [] else [p[k - 1]])
    && q.collected == (if k == 0 then [] else p[..k - 1])
  }

  /** The state when a quantum ends. */
  lemma FreezeAt(policy: Policy, p: seq<int>, target: seq<int>, q: State, k: nat, t: Tick)
    requires k <= |p| && At(p, target, q, k) && Slotted(q.sch, |q.target|)
    ensures
      var f := Freeze(policy, q, t.stop, t.wait, t.rs, t.unc);
      && Ids(f.all) == p[k..] + p[..k] && f.collected == p[..k] && f.target == target && f.nr == |p|
      && f.wnd == if k == Bound(policy, |p|) then k + 1 else k
  {
    hide Freeze;
    FreezeCollects(policy, q, t.stop, t.wait, t.rs, t.unc);
    if k > 0 {
      assert p[k..] + p[..k - 1] + [p[k - 1]] == p[k..] + p[..k];
      assert p[..k - 1] + [p[k - 1]] == p[..k];
    } else {
      assert p[0..] + p[..0] == p;
    }
  }

  lemma MonitorStep(policy: Policy, p: seq<int>, target: seq<int>, q: State, k: nat, t: Tick, q': State)
    requires k < |p| && At(p, target, q, k) && Expires(policy, q, t, q')
    ensures At(p, target, q', k + 1)
  {
    hide Freeze, Turn;
    var f := Freeze(policy, q, t.stop, t.wait, t.rs, t.unc);
    FreezeAt(policy, p, target, q, k, t);
    var m :| Turn(policy, f, m) && q' == Thaw(m, t.thaw);
    TurnMonitors(policy, f, m);
    assert Ids(f.all)[0] == p[k] && Ids(f.all)[1..] == p[k + 1..] + p[..k];
  }

  /** One quantum of the phase: the head of the list is scheduled. */
  lemma TurnMonitors(policy: Policy, f: State, m: State)
    requires Turn(policy, f, m) && f.wnd <= f.nr
    ensures f.all != [] && Ids(m.all) == Ids(f.all)[1..] && Ids(m.sch) == [Ids(f.all)[0]]
    ensures m == f.(all := m.all, sch := m.sch, wnd := f.wnd + 1)
  {
    assert Ids(f.all[1..]) == Ids(f.all)[1..];
    assert Ids([f.all[0]]) == [f.all[0].id];
  }

  /** In the first quanta each program runs alone once, in list order, and no instruction is charged. */
  lemma {:induction false} EachRunsAlone(policy: Policy, p: seq<int>, target: seq<int>, qs: seq<State>, ts: seq<Tick>,
                                         k: nat)
    requires Consecutive(policy, qs, ts) && At(p, target, qs[0], 0) && k <= |ts| && k <= |p|
    ensures At(p, target, qs[k], k)
  {
    hide At, Expires;
    if k > 0 {
      EachRunsAlone(policy, p, target, qs, ts, k - 1);
      MonitorStep(policy, p, target, qs[k - 1], k - 1, ts[k - 1], qs[k]);
    }
  }

  // ---------- after the phase ----------

  lemma {:induction false} MeasureCharges(policy: Policy, wnd: int, rs: int -> Reading, unc: U64, todo: seq<Prog>,
                                          s: Sweep)
    requires Slotted(todo, |s.target|) && wnd > s.nr
    ensures
      var s' := MeasureAll(policy, wnd, rs, unc, todo, s);
      s'.collected == s.collected && s'.nr <= s.nr
    decreases |todo|
  {
    if todo != [] {
      MeasureCharges(policy, wnd, rs, unc, todo[1..], Measure(policy, wnd, rs(todo[0].id), unc, todo[0], s));
    }
  }

  /** A quantum that does not begin in the phase collects nothing and does not lead back into it. */
  lemma NotAgain(policy: Policy, q: State, t: Tick, q': State)
    requires Expires(policy, q, t, q') && q.wnd > q.nr
    ensures q'.collected == q.collected && q'.wnd >= q.wnd && q'.nr <= q.nr
  {
    hide MeasureAll, Assessed, Turn;
    MeasureCharges(policy, q.wnd, t.rs, t.unc, FrozenAll(q.sch, t.stop), Sweep([], q.target, q.nr, 0, q.collected));
    var f := Freeze(policy, q, t.stop, t.wait, t.rs, t.unc);
    var m :| Turn(policy, f, m) && q' == Thaw(m, t.thaw);
    TurnConserves(policy, f, m);
  }

  /**
   * The phase ends when the next quantum does: all programs have been collected, once each, and all are selected from.
   */
  lemma PhaseEnds(policy: Policy, p: seq<int>, target: seq<int>, q: State, t: Tick, q': State)
    requires policy != FAIR && p != [] && At(p, target, q, |p|) && Expires(policy, q, t, q')
    ensures
      var f := Freeze(policy, q, t.stop, t.wait, t.rs, t.unc);
      && Ids(f.all) == p && f.collected == p && f.target == target && f.wnd > f.nr
      && |q'.sch| == (if |p| < MAX_CORES then |p| else MAX_CORES)
      && q'.collected == p && q'.wnd == |p| + 1 && q'.nr == |p|
  {
    hide Freeze, Turn;
    var f := Freeze(policy, q, t.stop, t.wait, t.rs, t.unc);
    FreezeAt(policy, p, target, q, |p|, t);
    assert p[|p|..] + p[..|p|] == p;
    var m :| Turn(policy, f, m) && q' == Thaw(m, t.thaw);
    TurnConserves(policy, f, m);
    assert |Ids(f.all)| == |f.all|;
  }

  /** `fair` goes on for one quantum more: the first program runs alone a second time, and is charged for it. */
  lemma FairRunsFirstAgain(p: seq<int>, target: seq<int>, q: State, t: Tick, q': State)
    requires p != [] && At(p, target, q, |p|) && Expires(FAIR, q, t, q')
    ensures Ids(q'.sch) == [p[0]] && q'.collected == p && q'.wnd == |p| + 1 && q'.nr == |p|
  {
    hide Freeze, Turn;
    var f := Freeze(FAIR, q, t.stop, t.wait, t.rs, t.unc);
    FreezeAt(FAIR, p, target, q, |p|, t);
    assert p[|p|..] + p[..|p|] == p;
    var m :| Turn(FAIR, f, m) && q' == Thaw(m, t.thaw);
    TurnMonitors(FAIR, f, m);
  }

  /** Its second run alone is outside the phase: the instructions are taken from the target of the first program. */
  lemma FairChargesFirst(p: seq<int>, q: State, t: Tick)
    requires p != [] && Ids(q.sch) == [p[0]] && q.wnd > q.nr && Slotted(q.sch, |q.target|)
    ensures |Ids(q.sch)| == |q.sch| && q.sch[0].pd.init_id < |q.target|
    ensures
      var i := q.sch[0].pd.init_id;
      Freeze(FAIR, q, t.stop, t.wait, t.rs, t.unc).target == q.target[i := q.target[i] - ToLong(t.rs(p[0]).instr_retd)]
  {
    hide ToLong, Assessed, Accounted, Collected;
    assert |Ids(q.sch)| == |q.sch| && Ids(q.sch)[0] == q.sch[0].id;
    var todo := FrozenAll(q.sch, t.stop);
    var s := Sweep([], q.target, q.nr, 0, q.collected);
    FrozenSlotted(q.sch, |q.target|, t.stop);
    MeasureStep(FAIR, q.wnd, t.rs, t.unc, todo, s);
    assert todo[1..] == [];
  }

  /** With a fixed population, every program is collected exactly once, whatever the number of quanta. */
  lemma {:induction false} CollectedOnce(policy: Policy, p: seq<int>, target: seq<int>, qs: seq<State>, ts: seq<Tick>,
                                         k: nat)
    requires Consecutive(policy, qs, ts) && p != [] && At(p, target, qs[0], 0) && |p| < k <= |ts|
    ensures qs[k].collected == p && qs[k].wnd > |p| && qs[k].nr <= |p|
  {
    hide At, Expires;
    if k == |p| + 1 {
      EachRunsAlone(policy, p, target, qs, ts, |p|);
      if policy == FAIR {
        FairRunsFirstAgain(p, target, qs[|p|], ts[|p|], qs[k]);
      } else {
        PhaseEnds(policy, p, target, qs[|p|], ts[|p|], qs[k]);
      }
    } else {
      CollectedOnce(policy, p, target, qs, ts, k - 1);
      NotAgain(policy, qs[k - 1], ts[k - 1], qs[k]);
    }
  }
  // ---------- what the phase has measured ----------

  ghost predicate DistinctIds(p: seq<int>) {
    forall i, j :: 0 <= i < j < |p| ==> p[i] != p[j]
  }

  /** When the k-th quantum of the phase ends, no program but the k-th has run. */
  lemma RanLast(p: seq<int>, target: seq<int>, q: State, k: nat, x: Prog)
    requires k <= |p| && At(p, target, q, k) && x in q.sch
    ensures k > 0 && x.id == p[k - 1]
  {
    var j :| 0 <= j < |q.sch| && q.sch[j] == x;
    assert Ids(q.sch)[j] == x.id;
  }

  lemma RanFirst(p: seq<int>, target: seq<int>, q: State, k: nat, x: Prog)
    requires 0 < k <= |p| && At(p, target, q, k) && DistinctIds(p) && x in q.all
    ensures x.id != p[k - 1]
  {
    var j :| 0 <= j < |q.all| && q.all[j] == x;
    assert Ids(q.all)[j] == x.id;
  }

  /** What a program has been measured to be stays in every quantum in which it is not measured again. */
  lemma MeasuredStays(policy: Policy, q: State, t: Tick, x: Prog, ran: bool, y: Prog, r: Reading, unc: U64)
    requires Passes(policy, q, t.rs, t.unc, x, ran, y) && Measures(policy, x.pd, r, unc)
    requires q.wnd > q.nr || !ran
    ensures Measures(policy, y.pd, r, unc)
  {
    hide Moved, Measures, FirstCycles;
    SameMeasures(policy, x.pd, y.pd, r, unc);
  }

  lemma MeasuredNow(policy: Policy, q: State, t: Tick, x: Prog, y: Prog)
    requires Passes(policy, q, t.rs, t.unc, x, true, y) && q.wnd <= q.nr
    ensures Measures(policy, y.pd, t.rs(y.id), t.unc)
  {
    hide Moved, FirstCycles;
  }

  lemma NotYetEnded(p: seq<int>, target: seq<int>, q: State, k: nat)
    requires k <= |p| && At(p, target, q, k)
    ensures q.wnd <= q.nr
  {
  }

  /** From the end of its quantum on, each program carries the figures of the quantum in which it ran alone. */
  lemma {:induction false} EachMeasured(policy: Policy, p: seq<int>, target: seq<int>, qs: seq<State>, ts: seq<Tick>,
                                        i: nat, k: nat, y: Prog)
    requires Consecutive(policy, qs, ts) && At(p, target, qs[0], 0) && DistinctIds(p)
    requires i < |p| && i + 2 <= k <= |ts| && y in qs[k].all + qs[k].sch && y.id == p[i]
    ensures Measures(policy, y.pd, ts[i + 1].rs(p[i]), ts[i + 1].unc)
  {
    hide At, Expires, Passes, Measures, DistinctIds;
    var q, t := qs[k - 1], ts[k - 1];
    var x, ran := ExpiryPasses(policy, q, t, qs[k], y);
    PassesId(policy, q, t, x, ran, y);
    if k - 1 <= |p| {
      EachRunsAlone(policy, p, target, qs, ts, k - 1);
      NotYetEnded(p, target, q, k - 1);
      if ran {
        RanLast(p, target, q, k - 1, x);
        DistinctAt(p, i, k - 2);
        MeasuredNow(policy, q, t, x, y);
      } else {
        RanFirst(p, target, q, k - 1, x);
        EachMeasured(policy, p, target, qs, ts, i, k - 1, x);
        MeasuredStays(policy, q, t, x, ran, y, ts[i + 1].rs(p[i]), ts[i + 1].unc);
      }
    } else {
      CollectedOnce(policy, p, target, qs, ts, k - 1);
      EachMeasured(policy, p, target, qs, ts, i, k - 1, x);
      MeasuredStays(policy, q, t, x, ran, y, ts[i + 1].rs(p[i]), ts[i + 1].unc);
    }
  }

  lemma PassesId(policy: Policy, q: State, t: Tick, x: Prog, ran: bool, y: Prog)
    requires Passes(policy, q, t.rs, t.unc, x, ran, y)
    ensures x.id == y.id
  {
    hide Moved, Measures, FirstCycles;
  }

  lemma DistinctAt(p: seq<int>, i: nat, j: nat)
    requires DistinctIds(p) && i < |p| && j < |p| && p[i] == p[j]
    ensures i == j
  {
  }
}
