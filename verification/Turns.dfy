/** One quantum of a policy, as a relation between states: freeze and account, select, thaw. */
module Turns {
  import opened Machine
  import opened Programs
  import opened Seqs
  import opened Quanta
  import Filling
  import PerfSpec
  import PerfFairSpec
  import FairBwCacheSpec

  /** The list `v` that `schedule` selects from: `perf` does not sort. */
  ghost predicate Ordered(policy: Policy, all: seq<Prog>, v: seq<Prog>) {
    if policy == PERF then v == all else multiset(v) == multiset(all) && InOrder(v)
  }

  /** The lists `(progs_all, progs_sch)` that `schedule` makes of `v` when it does not monitor. */
  function Selected(policy: Policy, v: seq<Prog>, nr: int): (seq<Prog>, seq<Prog>)
    requires policy == PERF_FAIR ==> nr <= |v|
  {
    match policy
    case PERF => PerfSpec.Select(v, [], PerfSpec.BW_START)
    case PERF_FAIR => PerfFairSpec.Select(v, nr)
    case FAIR => Filling.Fill(v, [])
    case FAIR_BW_CACHE => FairBwCacheSpec.Select(v, nr)
  }

  ghost predicate Chosen(policy: Policy, f: State, v: seq<Prog>, t: State) {
    && Ordered(policy, f.all, v)
    && (policy == PERF_FAIR ==> f.nr <= |v|)
    && t == f.(all := Selected(policy, v, f.nr).0, sch := Selected(policy, v, f.nr).1)
  }

  /** `schedule` may turn `f` into `t`: programs with equal ratios may be sorted in any order. */
  ghost predicate Turn(policy: Policy, f: State, t: State) {
    && f.sch == []
    && if f.wnd <= f.nr then f.all != [] && t == Monitored(f)
       else exists v :: Chosen(policy, f, v, t)
  }

  lemma MonitorTurn(policy: Policy, f: State, t: State)
    requires f.sch == [] && f.wnd <= f.nr && f.all != []
    requires t == f.(all := Without(f.all, 0), sch := [f.all[0]], wnd := f.wnd + 1)
    ensures Turn(policy, f, t)
  {
    assert Without(f.all, 0) == f.all[1..];
  }

  lemma SelectTurn(policy: Policy, f: State, v: seq<Prog>, t: State)
    requires f.sch == [] && f.wnd > f.nr && Chosen(policy, f, v, t)
    ensures Turn(policy, f, t)
  {
  }

  lemma IsQuantum(policy: Policy, q: State, stop: Times, wait: Times, thaw: Times, rs: int -> Reading, unc: U64,
                  t: State)
    requires Slotted(q.sch, |q.target|) && Turn(policy, Freeze(policy, q, stop, wait, rs, unc), t)
    ensures Quantum(policy, q, stop, wait, thaw, rs, unc, Thaw(t, thaw))
  {
  }

  /** `qexpired` may turn `q` into `q'`. */
  ghost predicate Quantum(policy: Policy, q: State, stop: Times, wait: Times, thaw: Times, rs: int -> Reading,
                          unc: U64, q': State)
  {
    && Slotted(q.sch, |q.target|)
    && exists t :: Turn(policy, Freeze(policy, q, stop, wait, rs, unc), t) && q' == Thaw(t, thaw)
  }

  /** What the outside world supplies to a quantum: clock readings and counter readings. */
  datatype Tick = Tick(stop: Times, wait: Times, thaw: Times, rs: int -> Reading, unc: U64)

  ghost predicate Expires(policy: Policy, q: State, t: Tick, q': State) {
    Quantum(policy, q, t.stop, t.wait, t.thaw, t.rs, t.unc, q')
  }

  // ---------- the lists hold the programs that are counted ----------

  /** No more programs are counted than listed; with no forced kill they are equally many. */
  ghost predicate Listed(q: State) {
    0 <= q.wnd && q.nr <= |q.all| + |q.sch|
  }

  lemma {:induction false} MeasureCounts(policy: Policy, wnd: int, rs: int -> Reading, unc: U64, todo: seq<Prog>,
                                         s: Sweep)
    requires Slotted(todo, |s.target|)
    ensures
      var s' := MeasureAll(policy, wnd, rs, unc, todo, s);
      |s'.kept| - s'.nr == |s.kept| + |todo| - s.nr
    decreases |todo|
  {
    if todo != [] {
      MeasureCounts(policy, wnd, rs, unc, todo[1..], Measure(policy, wnd, rs(todo[0].id), unc, todo[0], s));
    }
  }

  /** Freezing removes a program from the count when it removes it from the lists. */
  lemma FreezeCounts(policy: Policy, q: State, stop: Times, wait: Times, rs: int -> Reading, unc: U64)
    requires Slotted(q.sch, |q.target|)
    ensures
      var f := Freeze(policy, q, stop, wait, rs, unc);
      f.sch == [] && |f.all| - f.nr == |q.all| + |q.sch| - q.nr
  {
    hide MeasureAll;
    MeasureCounts(policy, q.wnd, rs, unc, FrozenAll(q.sch, stop), Sweep([], q.target, q.nr, 0, q.collected));
  }

  /** After freezing, a program to monitor exists if monitoring goes on, and at least `progs_nr` programs are listed. */
  lemma MonitorHasProgram(policy: Policy, q: State, stop: Times, wait: Times, rs: int -> Reading, unc: U64)
    requires Listed(q) && Slotted(q.sch, |q.target|)
    ensures
      var f := Freeze(policy, q, stop, wait, rs, unc);
      && Listed(f) && f.nr <= |f.all|
      && (f.wnd <= f.nr ==> f.all != [])
  {
    hide MeasureAll;
    FreezeCounts(policy, q, stop, wait, rs, unc);
  }

  // ---------- what every selection keeps ----------

  lemma SelectedPerm(policy: Policy, v: seq<Prog>, nr: int)
    requires policy == PERF_FAIR ==> nr <= |v|
    ensures
      var (a, s) := Selected(policy, v, nr);
      && multiset(a) + multiset(s) == multiset(v)
      && |s| == if |v| < MAX_CORES then |v| else MAX_CORES
  {
    hide *;
    SelectedIs(policy, v, nr);
    SixCores();
    match policy
    case PERF =>
      PerfSpec.WorkConserving(v, [], PerfSpec.BW_START);
      NoMore(v);
    case PERF_FAIR => PerfFairSpec.WorkConserving(v, nr);
    case FAIR =>
      Filling.FillPerm(v, []);
      FillSize(v);
      NoMore(v);
    case FAIR_BW_CACHE => FairBwCacheSpec.WorkConserving(v, nr);
  }

  lemma FillSize(v: seq<Prog>)
    ensures |Filling.Fill(v, []).1| == if |v| < MAX_CORES then |v| else MAX_CORES
  {
  }

  lemma NoMore(v: seq<Prog>)
    ensures multiset(v) + multiset([]) == multiset(v) && |v| + 0 == |v|
  {
  }

  lemma SelectedIs(policy: Policy, v: seq<Prog>, nr: int)
    requires policy == PERF_FAIR ==> nr <= |v|
    ensures Selected(policy, v, nr) ==
      match policy
      case PERF => PerfSpec.Select(v, [], PerfSpec.BW_START)
      case PERF_FAIR => PerfFairSpec.Select(v, nr)
      case FAIR => Filling.Fill(v, [])
      case FAIR_BW_CACHE => FairBwCacheSpec.Select(v, nr)
  {
  }

  /** Every policy schedules as many programs as fit, loses none and invents none. */
  lemma TurnConserves(policy: Policy, f: State, t: State)
    requires Turn(policy, f, t)
    ensures multiset(t.all) + multiset(t.sch) == multiset(f.all) && |t.all| + |t.sch| == |f.all|
    ensures |t.sch| == if f.wnd <= f.nr then 1 else if |f.all| < MAX_CORES then |f.all| else MAX_CORES
    ensures t.target == f.target && t.nr == f.nr && t.collected == f.collected
    ensures t.wnd == if f.wnd <= f.nr then f.wnd + 1 else f.wnd
  {
    hide Selected;
    if f.wnd <= f.nr {
      assert f.all == [f.all[0]] + f.all[1..];
    } else {
      var v :| Chosen(policy, f, v, t);
      SelectedPerm(policy, v, f.nr);
      SameSize(v, f.all);
    }
    SameSize(t.all + t.sch, f.all);
  }

  lemma SameSize<T>(s: seq<T>, t: seq<T>)
    ensures multiset(s) == multiset(t) ==> |s| == |t|
  {
    assert |multiset(s)| == |s| && |multiset(t)| == |t|;
  }
}
