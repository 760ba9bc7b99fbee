/** What each policy promises for a quantum, in every quantum of every run. */
module Guarantees {
  import opened Machine
  import opened Programs
  import opened Seqs
  import opened Bandwidth
  import opened Quanta
  import opened Turns
  import opened Instances
  import FairBwCacheSpec
  import PerfSpec
  import FairPolicy = Fair

  /**
   * `x` is one of the programs of `s` that do not by themselves demand too much, and none of them has made less
   * progress.
   */
  ghost predicate BehindAllThatFit(x: Prog, s: seq<Prog>) {
    && x in s && !FairBwCacheSpec.DemandsTooMuch(x.pd)
    && forall y :: y in s && !FairBwCacheSpec.DemandsTooMuch(y.pd) ==> ToInt(x.pd.ratio) <= ToInt(y.pd.ratio)
  }

  /** The first program of a list that fits, given that the k-th does. */
  lemma {:induction false} FirstOf(v: seq<Prog>, k: nat) returns (j: nat)
    requires k < |v| && !FairBwCacheSpec.DemandsTooMuch(v[k].pd)
    ensures j <= k && !FairBwCacheSpec.DemandsTooMuch(v[j].pd)
    ensures forall i :: 0 <= i < j ==> FairBwCacheSpec.DemandsTooMuch(v[i].pd)
  {
    hide FairBwCacheSpec.DemandsTooMuch;
    if i :| 0 <= i < k && !FairBwCacheSpec.DemandsTooMuch(v[i].pd) {
      j := FirstOf(v, i);
    } else {
      j := k;
    }
  }

  lemma IndexIn(s: seq<Prog>, v: seq<Prog>, x: Prog) returns (k: nat)
    requires multiset(v) == multiset(s) && x in s
    ensures k < |v| && v[k] == x
  {
    assert x in multiset(v);
    k :| 0 <= k < |v| && v[k] == x;
  }

  /** In sorted order the first program that fits is furthest behind among those that do. */
  lemma FirstFit(s: seq<Prog>, v: seq<Prog>, y: Prog) returns (j: nat)
    requires InOrder(v) && multiset(v) == multiset(s) && y in s && !FairBwCacheSpec.DemandsTooMuch(y.pd)
    ensures j < |v| && BehindAllThatFit(v[j], s)
    ensures forall i :: 0 <= i < j ==> FairBwCacheSpec.DemandsTooMuch(v[i].pd)
  {
    hide FairBwCacheSpec.DemandsTooMuch, ToInt;
    var k := IndexIn(s, v, y);
    j := FirstOf(v, k);
    var _ := IndexIn(v, s, v[j]);
    forall x | x in s && !FairBwCacheSpec.DemandsTooMuch(x.pd)
      ensures ToInt(v[j].pd.ratio) <= ToInt(x.pd.ratio)
    {
      var k := IndexIn(s, v, x);
      assert k >= j;
    }
  }

  /**
   * In every quantum that `fair_bw_cache` does not monitor in: if some program does not by itself demand more than
   * budget and slack, then the program that is scheduled first is furthest behind among all those programs.
   */
  lemma FurthestBehindRuns(q: State, t: Tick, q': State)
    requires Expires(FAIR_BW_CACHE, q, t, q')
    ensures
      var f := Freeze(FAIR_BW_CACHE, q, t.stop, t.wait, t.rs, t.unc);
      f.wnd > f.nr && (exists y :: y in f.all && !FairBwCacheSpec.DemandsTooMuch(y.pd)) ==>
        exists x :: BehindAllThatFit(x, f.all) && q'.sch != [] && q'.sch[0].id == x.id
  {
    hide Freeze, Turn, FairBwCacheSpec.Select, FairBwCacheSpec.DemandsTooMuch, BehindAllThatFit, InOrder;
    var f := Freeze(FAIR_BW_CACHE, q, t.stop, t.wait, t.rs, t.unc);
    if f.wnd > f.nr && exists y :: y in f.all && !FairBwCacheSpec.DemandsTooMuch(y.pd) {
      var y :| y in f.all && !FairBwCacheSpec.DemandsTooMuch(y.pd);
      var v, m := Selection(FAIR_BW_CACHE, q, t, q');
      var j := FirstFit(f.all, v, y);
      FitFits(v[j], f.all);
      FairBwCacheSpec.FirstFitIsScheduled(v, f.nr, j);
      ThawedHead(m, t.thaw);
    }
  }

  lemma FitFits(x: Prog, s: seq<Prog>)
    requires BehindAllThatFit(x, s)
    ensures !FairBwCacheSpec.DemandsTooMuch(x.pd)
  {
  }

  lemma ThawedHead(m: State, now: Times)
    ensures |Thaw(m, now).sch| == |m.sch| && (m.sch != [] ==> Thaw(m, now).sch[0].id == m.sch[0].id)
  {
  }

  /** The list that the programs were selected from, and the lists before they were thawed. */
  lemma Selection(policy: Policy, q: State, t: Tick, q': State) returns (v: seq<Prog>, m: State)
    requires Expires(policy, q, t, q')
    requires var f := Freeze(policy, q, t.stop, t.wait, t.rs, t.unc); f.wnd > f.nr
    ensures Chosen(policy, Freeze(policy, q, t.stop, t.wait, t.rs, t.unc), v, m) && q' == Thaw(m, t.thaw)
  {
    hide Freeze, Selected;
    var f := Freeze(policy, q, t.stop, t.wait, t.rs, t.unc);
    m :| Turn(policy, f, m) && q' == Thaw(m, t.thaw);
    v :| Chosen(policy, f, v, m);
  }

  /** In every quantum that `fair` does not monitor in, no program that waits is further behind than one that runs. */
  lemma RunnersBehindWaiters(q: State, t: Tick, q': State, i: nat, j: nat)
    requires Expires(FAIR, q, t, q') && i < |q'.sch| && j < |q'.all|
    requires var f := Freeze(FAIR, q, t.stop, t.wait, t.rs, t.unc); f.wnd > f.nr
    ensures ToInt(q'.sch[i].pd.ratio) <= ToInt(q'.all[j].pd.ratio)
    ensures q'.sch[i].pd.ratio < 0x8000_0000 ==> q'.sch[i].pd.ratio <= q'.all[j].pd.ratio
    ensures |q'.sch| == MAX_CORES
  {
    hide Freeze, InOrder;
    var v, m := Selection(FAIR, q, t, q');
    FairPolicy.RunnersAreBehind(v, m.sch[i], m.all[j]);
    ThawedRatio(m, t.thaw, i);
    TurnConserves(FAIR, Freeze(FAIR, q, t.stop, t.wait, t.rs, t.unc), m);
  }

  lemma ThawedRatio(m: State, now: Times, i: nat)
    requires i < |m.sch|
    ensures i < |Thaw(m, now).sch| && Thaw(m, now).sch[i].pd.ratio == m.sch[i].pd.ratio
  {
  }

  /**
   * In every quantum that `perf` does not monitor in, with `m` the lists before the programs are thawed: the first of
   * those that have waited longest runs first, and each other one is the first nearest to the bandwidth then left.
   */
  lemma LongestThenNearest(q: State, t: Tick, q': State) returns (m: State, k: nat)
    requires Expires(PERF, q, t, q')
    requires var f := Freeze(PERF, q, t.stop, t.wait, t.rs, t.unc); f.wnd > f.nr && f.all != [] && Readable(f.all)
    ensures
      var f := Freeze(PERF, q, t.stop, t.wait, t.rs, t.unc);
      && q' == Thaw(m, t.thaw) && k < |f.all| && PerfSpec.FirstLongest(f.all, k)
      && m.sch != [] && m.sch[0] == f.all[k]
      && NearestInTurn(Without(f.all, k), Left(255958745, f.all[k].pd.sum_mem_reads), m.sch[1..], m.all)
  {
    hide Freeze, PerfSpec.Select, NearestInTurn;
    var f := Freeze(PERF, q, t.stop, t.wait, t.rs, t.unc);
    var v;
    v, m := Selection(PERF, q, t, q');
    PerfSpec.SelectNearest(f.all);
    k := PerfSpec.Longest(f.all);
  }

  /** In every quantum of every run as many programs are scheduled as there are cores for, and no program twice. */
  lemma EveryQuantumIsFull(policy: Policy, ws: seq<World>, es: seq<Event>, start: seq<int>, k: nat)
    requires History(policy, ws, es) && Begin(ws[0], start) && k < |es| && es[k].Expiry?
    ensures Slotted(ws[k].q.sch, |ws[k].q.target|)
    ensures
      var t := es[k].t;
      var f := Freeze(policy, ws[k].q, t.stop, t.wait, t.rs, t.unc);
      var q := ws[k + 1].q;
      && |q.all| + |q.sch| == |f.all|
      && |q.sch| == (if f.wnd <= f.nr then 1 else if |f.all| < MAX_CORES then |f.all| else MAX_CORES)
      && (forall i, j :: 0 <= i < j < |q.sch| ==> q.sch[i].id != q.sch[j].id)
      && (forall i, j :: 0 <= i < |q.all| && 0 <= j < |q.sch| ==> q.all[i].id != q.sch[j].id)
  {
    hide Freeze, Begin, History;
    ExpiryAt(policy, ws, es, k);
    var t, q := es[k].t, ws[k + 1].q;
    ExpiryFills(policy, ws[k].q, t, q);
    IdsAreFresh(policy, ws, es, start, k + 1);
    InTwoLists(q.all, q.sch);
  }

  lemma ExpiryAt(policy: Policy, ws: seq<World>, es: seq<Event>, k: nat)
    requires History(policy, ws, es) && k < |es| && es[k].Expiry?
    ensures |ws| == |es| + 1 && Slotted(ws[k].q.sch, |ws[k].q.target|) && Expires(policy, ws[k].q, es[k].t, ws[k + 1].q)
  {
    hide Freeze, Turn;
    assert Step(policy, ws[k], es[k], ws[k + 1]);
  }

  lemma ExpiryFills(policy: Policy, q: State, t: Tick, q': State)
    requires Expires(policy, q, t, q')
    ensures
      var f := Freeze(policy, q, t.stop, t.wait, t.rs, t.unc);
      && |q'.all| + |q'.sch| == |f.all|
      && |q'.sch| == (if f.wnd <= f.nr then 1 else if |f.all| < MAX_CORES then |f.all| else MAX_CORES)
  {
    hide Freeze, Turn;
    var f := Freeze(policy, q, t.stop, t.wait, t.rs, t.unc);
    var m :| Turn(policy, f, m) && q' == Thaw(m, t.thaw);
    TurnConserves(policy, f, m);
  }

  lemma InTwoLists(all: seq<Prog>, sch: seq<Prog>)
    requires var s := all + sch; forall i, j :: 0 <= i < j < |s| ==> s[i].id != s[j].id
    ensures forall i, j :: 0 <= i < j < |sch| ==> sch[i].id != sch[j].id
    ensures forall i, j :: 0 <= i < |all| && 0 <= j < |sch| ==> all[i].id != sch[j].id
  {
    var s := all + sch;
    forall i, j | 0 <= i < j < |sch|
      ensures sch[i].id != sch[j].id
    {
      assert s[|all| + i].id != s[|all| + j].id;
    }
    forall i, j | 0 <= i < |all| && 0 <= j < |sch|
      ensures all[i].id != sch[j].id
    {
      assert s[i].id != s[|all| + j].id;
    }
  }
}
