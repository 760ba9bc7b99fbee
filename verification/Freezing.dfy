/** `freeze_sched` and `thaw_sched` on the program lists. */
module Freezing {
  import opened Machine
  import opened Programs
  import opened Seqs
  import opened Rings
  import opened Scheds
  import opened Clocks
  import opened Quanta

  /** What freezing reads and writes, as a value. */
  ghost function Q(sched: Sched): State
    reads sched`all, sched`sch, sched`monitor_wnd, sched`progs_nr, sched`collected, sched.target_instr
    reads (set n | n in sched.all + sched.sch)`pd
  {
    State(sched.A(), sched.S(), sched.target_instr[..], sched.monitor_wnd, sched.progs_nr, sched.collected)
  }

  /** Only the data of the k-th program differs from what `v` shows. */
  lemma PdChanged(s: seq<Node>, v: seq<Prog>, k: nat)
    requires k < |s| == |v|
    requires forall i :: 0 <= i < |s| && i != k ==> v[i] == Prog(s[i].id, s[i].pd)
    ensures View(s) == v[k := Prog(s[k].id, s[k].pd)]
  {
  }

  lemma Shown(s: seq<Node>)
    ensures |View(s)| == |s|
    ensures forall i :: 0 <= i < |s| ==> View(s)[i] == Prog(s[i].id, s[i].pd)
  {
  }

  lemma IsFrozen(pd: ProgData, now: int)
    ensures Frozen(pd, now) == Updated(pd, now).(run_status := RS_STOPED)
  {
  }

  lemma FrozenStep(v: seq<Prog>, i: nat, now: Times)
    requires i < |v|
    ensures (FrozenAll(v[..i], now) + v[i..])[i] == v[i]
    ensures (FrozenAll(v[..i], now) + v[i..])[i := Prog(v[i].id, Frozen(v[i].pd, now(v[i].id)))]
            == FrozenAll(v[..i + 1], now) + v[i + 1..]
  {
  }

  lemma FrozenEnds(v: seq<Prog>, now: Times)
    ensures FrozenAll(v[..0], now) + v[0..] == v
    ensures FrozenAll(v[..|v|], now) + v[|v|..] == FrozenAll(v, now)
  {
    assert v[..|v|] == v;
  }

  /** One program of `progs_sch`: what a change of its data leaves alone. */
  lemma SchApart(sched: Sched, k: nat)
    requires sched.Valid() && k < |sched.sch|
    ensures sched.sch[k].entry && sched.sch[k] !in sched.all && sched.sch[k] in sched.Repr()
    ensures forall i :: 0 <= i < |sched.sch| && i != k ==> sched.sch[i] != sched.sch[k]
    ensures sched.sch[k] == Pos(sched.progs_sch, sched.sch, k)
  {
    assert sched.sch[k] in Cells(sched.progs_sch, sched.sch);
    forall i | 0 <= i < |sched.all|
      ensures sched.all[i] != sched.sch[k]
    {
      assert sched.all[i] in Cells(sched.progs_all, sched.all);
    }
  }

  /** The first loop of `freeze_sched`. */
  method StopAll(sched: Sched, now: Times)
    requires sched.Valid()
    modifies sched.Repr()`pd
    ensures sched.Valid() && sched.Repr() == old(sched.Repr())
    ensures sched.A() == old(sched.A()) && sched.S() == FrozenAll(old(sched.S()), now)
  {
    hide *;
    ghost var v, i := sched.S(), 0;
    sched.Sizes();
    sched.Firsts();
    FrozenEnds(v, now);
    var prog := sched.progs_sch.next;
    while prog != sched.progs_sch
      invariant i <= |sched.sch| == |v| && prog == Pos(sched.progs_sch, sched.sch, i)
      invariant sched.Valid() && sched.Repr() == old(sched.Repr()) && sched.A() == old(sched.A())
      invariant sched.S() == FrozenAll(v[..i], now) + v[i..]
      decreases |v| - i
    {
      sched.AtEnd(i);
      sched.NextSch(i);
      SchApart(sched, i);
      var tmp := prog.next;
      sched.Sizes();
      SchAt(sched, i);
      StopOne(sched, prog, i, now(prog.id));
      FrozenStep(v, i, now);
      prog := tmp;
      i := i + 1;
    }
    sched.AtEnd(i);
  }

  method StopOne(sched: Sched, prog: Node, ghost k: nat, now: int)
    requires sched.Valid() && k < |sched.sch| && prog == sched.sch[k]
    modifies sched.Repr()`pd
    ensures sched.Valid() && sched.Repr() == old(sched.Repr())
    ensures sched.A() == old(sched.A())
    ensures |old(sched.S())| == |sched.sch|
    ensures var x := old(sched.S())[k]; sched.S() == old(sched.S())[k := Prog(x.id, Frozen(x.pd, now))]
  {
    hide IsRing, View, NoDup, Updated, Frozen;
    ghost var v := sched.S();
    SchApart(sched, k);
    sched.Views();
    Shown(sched.sch);
    UpdateClock(prog, now);
    prog.pd := prog.pd.(run_status := RS_STOPED);
    IsFrozen(v[k].pd, now);
    PdChanged(sched.sch, v, k);
    sched.Views();
  }

  // ---------- the second loop: one program is measured ----------

  /** `collect` of the policy. */
  method Collect(policy: Policy, n: Node, unc: U64)
    requires n.pd.unh_cycles > 0
    modifies n`pd
    ensures n.pd == Collected(policy, old(n.pd), unc)
  {
    n.pd := n.pd.(ipc_alone := ToInt(Div(AsU64(n.pd.instr_retd * 1000), n.pd.unh_cycles)));
    if policy != FAIR {
      n.pd := n.pd.(sum_mem_reads := if n.pd.category == BW then unc else n.pd.mem_reads);
    }
    if policy == PERF_FAIR || policy == FAIR_BW_CACHE {
      n.pd := n.pd.(llc_alone := ToInt(n.pd.llc_occupancy));
    }
  }

  /** `kill_app`: the program leaves the lists; its end is noticed later. */
  method KillApp(sched: Sched, prog: Node, ghost k: nat)
    requires sched.Valid() && k < |sched.sch| && prog == sched.sch[k]
    modifies sched`sch, sched`progs_nr, sched.Repr()`next, sched.Repr()`prev, prog`killed
    ensures sched.Valid() && sched.Repr() == old(sched.Repr()) - {prog}
    ensures sched.all == old(sched.all) && sched.sch == Without(old(sched.sch), k)
    ensures sched.progs_nr == old(sched.progs_nr) - 1 && prog.killed
    ensures sched.A() == old(sched.A()) && |old(sched.S())| == |old(sched.sch)|
    ensures sched.S() == Without(old(sched.S()), k)
    ensures Pos(sched.progs_sch, sched.sch, k) == Pos(sched.progs_sch, old(sched.sch), k + 1)
  {
    hide *;
    DelSch(sched, prog, k);
    prog.killed := true;
    sched.progs_nr := sched.progs_nr - 1;
  }

  method DelSch(sched: Sched, prog: Node, ghost k: nat)
    requires sched.Valid() && k < |sched.sch| && prog == sched.sch[k]
    modifies sched`sch, sched.Repr()`next, sched.Repr()`prev
    ensures sched.Valid() && sched.Repr() == old(sched.Repr()) - {prog} && prog in old(sched.Repr())
    ensures sched.sch == Without(old(sched.sch), k)
    ensures sched.A() == old(sched.A()) && |old(sched.S())| == |old(sched.sch)|
    ensures sched.S() == Without(old(sched.S()), k)
    ensures Pos(sched.progs_sch, sched.sch, k) == Pos(sched.progs_sch, old(sched.sch), k + 1)
  {
    hide IsRing, NoDup, View;
    ghost var v := View(sched.sch);
    SchApart(sched, k);
    WithoutFrom(sched.progs_sch, sched.sch, k);
    EntriesMoved(sched.sch, k, []);
    Del(prog, sched.progs_sch, sched.sch, k);
    Init(prog);
    assert View(sched.sch) == v;
    ViewMoved(sched.sch, k, []);
    sched.sch := Without(sched.sch, k);
  }

  /** The counters of a program are read, and its instructions charged or its figures collected. */
  method Account(policy: Policy, n: Node, r: Reading, unc: U64, monitoring: bool)
    requires r.unh_cycles > 0
    modifies n`pd
    ensures n.pd == Charge(policy, Measured(old(n.pd), r), unc, monitoring)
  {
    n.pd := n.pd.(instr_retd := r.instr_retd, unh_cycles := r.unh_cycles);
    n.pd := n.pd.(mem_reads := r.mem_reads, llc_occupancy := r.llc_occupancy);
    var together := Div(AsU64(n.pd.instr_retd * 1000), n.pd.unh_cycles);
    if monitoring {
      Collect(policy, n, unc);
    } else {
      n.pd := n.pd.(instr_retd_sum := AsU64(n.pd.instr_retd_sum + n.pd.instr_retd));
    }
  }

  /** The measuring loop stands behind the programs `s.kept`, before the programs `todo`. */
  ghost predicate Sweeping(sched: Sched, s: Sweep, unh: U64, todo: seq<Prog>)
    reads sched`all, sched`sch, sched`progs_nr, sched`collected, sched.target_instr, (set n | n in sched.sch)`pd
  {
    && sched.S() == s.kept + todo && sched.target_instr[..] == s.target
    && sched.progs_nr == s.nr && sched.collected == s.collected && unh == s.unh
  }

  lemma SweepingIs(sched: Sched, s: Sweep, unh: U64, todo: seq<Prog>)
    ensures Sweeping(sched, s, unh, todo) <==>
            && sched.S() == s.kept + todo && sched.target_instr[..] == s.target
            && sched.progs_nr == s.nr && sched.collected == s.collected && unh == s.unh
  {
  }

  /** One program of the measuring loop, case by case. */
  lemma MeasureIs(policy: Policy, wnd: int, r: Reading, unc: U64, x: Prog, s: Sweep)
    requires x.pd.init_id < |s.target|
    ensures
      var y := Prog(x.id, Charge(policy, Measured(x.pd, r), unc, wnd <= s.nr));
      var unh := if s.unh == 0 then r.unh_cycles else s.unh;
      var left := s.target[x.pd.init_id] - ToLong(r.instr_retd);
      Measure(policy, wnd, r, unc, x, s) ==
        if wnd <= s.nr then Sweep(s.kept + [y], s.target, s.nr, unh, s.collected + [x.id])
        else Sweep(if left <= 0 then s.kept else s.kept + [y], s.target[x.pd.init_id := left],
                   if left <= 0 then s.nr - 1 else s.nr, unh, s.collected)
  {
  }

  lemma Renewed(kept: seq<Prog>, todo: seq<Prog>, x: Prog)
    requires todo != []
    ensures (kept + todo)[|kept| := x] == (kept + [x]) + todo[1..]
    ensures Without((kept + todo)[|kept| := x], |kept|) == kept + todo[1..]
  {
  }

  /** The data of a scheduled program is brought up to date; nothing else changes. */
  method AccountSch(sched: Sched, policy: Policy, prog: Node, ghost k: nat, r: Reading, unc: U64, monitoring: bool)
    requires sched.Valid() && k < |sched.sch| && prog == sched.sch[k] && r.unh_cycles > 0
    modifies sched.Repr()`pd
    ensures sched.Valid() && sched.Repr() == old(sched.Repr())
    ensures sched.A() == old(sched.A())
    ensures |old(sched.S())| == |sched.sch|
    ensures prog.pd == Charge(policy, Measured(old(prog.pd), r), unc, monitoring)
    ensures sched.S() == old(sched.S())[k := Prog(prog.id, prog.pd)] && old(sched.S())[k] == Prog(prog.id, old(prog.pd))
    ensures prog.pd.unh_cycles == r.unh_cycles && prog.pd.instr_retd == r.instr_retd
    ensures prog.pd.init_id == old(prog.pd.init_id) && prog in sched.Repr()
  {
    hide IsRing, View, NoDup;
    ghost var v := sched.S();
    SchApart(sched, k);
    sched.Views();
    Shown(sched.sch);
    Account(policy, prog, r, unc, monitoring);
    PdChanged(sched.sch, v, k);
    sched.Views();
  }

  method MeasureOne(sched: Sched, policy: Policy, prog: Node, r: Reading, unc: U64, unh: U64,
                    ghost s: Sweep, ghost todo: seq<Prog>)
    returns (unh': U64)
    requires sched.Valid() && Sweeping(sched, s, unh, todo) && todo != []
    requires |s.kept| < |sched.sch| && prog == sched.sch[|s.kept|]
    requires r.unh_cycles > 0 && todo[0].pd.init_id < |s.target|
    modifies sched`sch, sched`progs_nr, sched`collected, sched.target_instr
    modifies sched.Repr()`next, sched.Repr()`prev, sched.Repr()`pd, sched.Repr()`killed
    ensures sched.Valid() && sched.Repr() <= old(sched.Repr()) && sched.A() == old(sched.A())
    ensures Sweeping(sched, Measure(policy, sched.monitor_wnd, r, unc, todo[0], s), unh', todo[1..])
    ensures var k := |Measure(policy, sched.monitor_wnd, r, unc, todo[0], s).kept|;
            k <= |sched.sch| && Pos(sched.progs_sch, sched.sch, k) == old(Pos(sched.progs_sch, sched.sch, |s.kept| + 1))
  {
    hide *;
    ghost var k := |s.kept|;
    SweepingIs(sched, s, unh, todo);
    Middle(s.kept, todo);
    MeasureIs(policy, sched.monitor_wnd, r, unc, todo[0], s);
    var monitoring := sched.monitor_wnd <= sched.progs_nr;
    AccountSch(sched, policy, prog, k, r, unc, monitoring);
    Renewed(s.kept, todo, Prog(prog.id, prog.pd));
    unh' := if unh == 0 then prog.pd.unh_cycles else unh;
    sched.Sizes();
    if monitoring {
      sched.collected := sched.collected + [prog.id];
    } else {
      var i := prog.pd.init_id;
      sched.target_instr[i] := sched.target_instr[i] - ToLong(prog.pd.instr_retd);
      if sched.target_instr[i] <= 0 {
        KillApp(sched, prog, k);
      }
    }
    sched.Sizes();
    SweepingIs(sched, Measure(policy, sched.monitor_wnd, r, unc, todo[0], s), unh', todo[1..]);
  }

  lemma SweptStep(todo: seq<Prog>, n: nat, rs: int -> Reading)
    requires todo != [] && Slotted(todo, n) && Counted(todo, rs)
    ensures Slotted(todo[1..], n) && Counted(todo[1..], rs)
    ensures rs(todo[0].id).unh_cycles > 0 && todo[0].pd.init_id < n
  {
  }

  /** The k-th scheduled program, in the list and in its view. */
  lemma SchAt(sched: Sched, k: nat)
    requires sched.Valid() && k < |sched.S()|
    ensures k < |sched.sch| && sched.sch[k] == Pos(sched.progs_sch, sched.sch, k) && sched.S()[k].id == sched.sch[k].id
  {
  }

  /** The second loop of `freeze_sched`. */
  method MeasureSch(sched: Sched, policy: Policy, rs: int -> Reading, unc: U64) returns (unh: U64)
    requires sched.Valid() && Slotted(sched.S(), sched.target_instr.Length) && Counted(sched.S(), rs)
    modifies sched`sch, sched`progs_nr, sched`collected, sched.target_instr
    modifies sched.Repr()`next, sched.Repr()`prev, sched.Repr()`pd, sched.Repr()`killed
    ensures sched.Valid() && sched.Repr() <= old(sched.Repr()) && sched.A() == old(sched.A())
    ensures
      var s := Sweep([], old(sched.target_instr[..]), old(sched.progs_nr), 0, old(sched.collected));
      Sweeping(sched, MeasureAll(policy, sched.monitor_wnd, rs, unc, old(sched.S()), s), unh, [])
  {
    hide *;
    unh := 0;
    ghost var todo := sched.S();
    ghost var s := Sweep([], sched.target_instr[..], sched.progs_nr, 0, sched.collected);
    ghost var goal := MeasureAll(policy, sched.monitor_wnd, rs, unc, todo, s);
    SweepingIs(sched, s, unh, todo);
    sched.Sizes();
    sched.Firsts();
    var prog := sched.progs_sch.next;
    while prog != sched.progs_sch
      invariant sched.Valid() && sched.Repr() <= old(sched.Repr()) && sched.A() == old(sched.A())
      invariant Slotted(todo, |s.target|) && Counted(todo, rs) && Sweeping(sched, s, unh, todo)
      invariant MeasureAll(policy, sched.monitor_wnd, rs, unc, todo, s) == goal
      invariant |s.kept| <= |sched.sch| && prog == Pos(sched.progs_sch, sched.sch, |s.kept|)
      decreases |todo|
    {
      sched.AtEnd(|s.kept|);
      sched.Sizes();
      SweepingIs(sched, s, unh, todo);
      SweptStep(todo, |s.target|, rs);
      MeasureStep(policy, sched.monitor_wnd, rs, unc, todo, s);
      Middle(s.kept, todo);
      SchAt(sched, |s.kept|);
      sched.NextSch(|s.kept|);
      var tmp := prog.next;
      unh := MeasureOne(sched, policy, prog, rs(prog.id), unc, unh, s, todo);
      s, todo := Measure(policy, sched.monitor_wnd, rs(todo[0].id), unc, todo[0], s), todo[1..];
      prog := tmp;
    }
    sched.AtEnd(|s.kept|);
    sched.Sizes();
    SweepingIs(sched, s, unh, todo);
    MeasureNone(policy, sched.monitor_wnd, rs, unc, s);
  }

  lemma MeasureNone(policy: Policy, wnd: int, rs: int -> Reading, unc: U64, s: Sweep)
    ensures Slotted([], |s.target|) && MeasureAll(policy, wnd, rs, unc, [], s) == s
  {
  }

  // ---------- the last loop ----------

  /** `update_progress` of the policies that have it. */
  method UpdateProgress(n: Node, unh: U64)
    requires unh != 0 ==> Ideal(n.pd, unh) > 0
    modifies n`pd
    ensures n.pd == Progressed(old(n.pd), unh)
  {
    if unh != 0 {
      n.pd := n.pd.(ideal_instr := AsU64(n.pd.ideal_instr + Div(AsU64(n.pd.ipc_alone * unh), 1000)));
      n.pd := n.pd.(ratio := Div(AsU64(n.pd.instr_retd_sum * 1000), n.pd.ideal_instr));
    }
  }

  method Assess(policy: Policy, n: Node, monitoring: bool, now: int, unh: U64)
    requires policy != PERF && !monitoring && unh != 0 ==> Ideal(n.pd, unh) > 0
    modifies n`pd
    ensures n.pd == Assessed(policy, monitoring, old(n.pd), now, unh)
  {
    UpdateWaiting(n, now);
    if policy == PERF {
      n.pd := n.pd.(ratio := AsU64(n.pd.waiting_time));
    } else if !monitoring {
      UpdateProgress(n, unh);
    }
  }

  lemma AllApart(sched: Sched, k: nat)
    requires sched.Valid() && k < |sched.all|
    ensures sched.all[k] == Pos(sched.progs_all, sched.all, k) && sched.all[k] in sched.Repr()
    ensures forall i :: 0 <= i < |sched.all| && i != k ==> sched.all[i] != sched.all[k]
  {
    assert sched.all[k] in Cells(sched.progs_all, sched.all);
  }

  method AssessAllOne(sched: Sched, policy: Policy, prog: Node, ghost k: nat, monitoring: bool, now: int, unh: U64)
    requires sched.Valid() && k < |sched.all| && prog == sched.all[k] && sched.sch == []
    requires policy != PERF && !monitoring && unh != 0 ==> Ideal(prog.pd, unh) > 0
    modifies sched.Repr()`pd
    ensures sched.Valid() && sched.Repr() == old(sched.Repr())
    ensures |old(sched.A())| == |sched.all|
    ensures var x := old(sched.A())[k];
            sched.A() == old(sched.A())[k := Prog(x.id, Assessed(policy, monitoring, x.pd, now, unh))]
  {
    hide IsRing, View, NoDup, Assessed, Ideal;
    ghost var v := sched.A();
    AllApart(sched, k);
    sched.Views();
    Shown(sched.all);
    Assess(policy, prog, monitoring, now, unh);
    PdChanged(sched.all, v, k);
    sched.Views();
  }

  lemma AssessedStep(policy: Policy, monitoring: bool, v: seq<Prog>, i: nat, now: Times, unh: U64)
    requires i < |v|
    ensures
      var s := AssessedAll(policy, monitoring, v[..i], now, unh) + v[i..];
      && |s| == |v| && s[i] == v[i]
      && s[i := Prog(v[i].id, Assessed(policy, monitoring, v[i].pd, now(v[i].id), unh))] ==
         AssessedAll(policy, monitoring, v[..i + 1], now, unh) + v[i + 1..]
  {
    hide Assessed;
  }

  lemma AssessedEnds(policy: Policy, monitoring: bool, v: seq<Prog>, now: Times, unh: U64)
    ensures AssessedAll(policy, monitoring, v[..0], now, unh) + v[0..] == v
    ensures AssessedAll(policy, monitoring, v[..|v|], now, unh) + v[|v|..]
            == AssessedAll(policy, monitoring, v, now, unh)
  {
    hide Assessed;
    assert v[..|v|] == v;
  }

  lemma IdealAt(v: seq<Prog>, i: nat, unh: U64)
    requires Ideals(v, unh) && i < |v|
    ensures Ideal(v[i].pd, unh) > 0
  {
  }

  method AssessSched(sched: Sched, policy: Policy, now: Times, unh: U64)
    requires sched.Valid() && sched.sch == []
    requires policy != PERF && !sched.Monitoring() && unh != 0 ==> Ideals(sched.A(), unh)
    modifies sched.Repr()`pd
    ensures sched.Valid() && sched.Repr() == old(sched.Repr())
    ensures sched.A() == AssessedAll(policy, sched.monitor_wnd <= sched.progs_nr, old(sched.A()), now, unh)
  {
    hide *;
    ghost var v, i := sched.A(), 0;
    var monitoring := sched.monitor_wnd <= sched.progs_nr;
    sched.IsMonitoring();
    sched.Sizes();
    sched.Firsts();
    AssessedEnds(policy, monitoring, v, now, unh);
    var prog := sched.progs_all.next;
    while prog != sched.progs_all
      invariant i <= |sched.all| == |v| && prog == Pos(sched.progs_all, sched.all, i)
      invariant sched.Valid() && sched.Repr() == old(sched.Repr())
      invariant sched.A() == AssessedAll(policy, monitoring, v[..i], now, unh) + v[i..]
      decreases |v| - i
    {
      sched.AtEnd(i);
      sched.NextAll(i);
      sched.ProgAt(i);
      AssessedStep(policy, monitoring, v, i, now, unh);
      if policy != PERF && !monitoring && unh != 0 { IdealAt(v, i, unh); }
      AssessAllOne(sched, policy, prog, i, monitoring, now(prog.id), unh);
      prog := prog.next;
      sched.NextAll(i);
      i := i + 1;
    }
    sched.AtEnd(i);
  }

  // ---------- freezing and thawing ----------

  method Gather(sched: Sched)
    requires sched.Valid()
    modifies sched`all, sched`sch, sched.Repr()`next, sched.Repr()`prev
    ensures sched.Valid() && sched.Repr() == old(sched.Repr())
    ensures sched.sch == [] && sched.S() == [] && sched.A() == old(sched.A()) + old(sched.S())
  {
    hide IsRing, View, NoDup;
    ghost var s, t := sched.all, sched.sch;
    sched.MoveProgsToAll();
    ViewConcat(s, t);
    Shown([]);
  }

  lemma FrozenSlots(s: seq<Prog>, n: nat, rs: int -> Reading, now: Times)
    requires Slotted(s, n) && Counted(s, rs)
    ensures Slotted(FrozenAll(s, now), n) && Counted(FrozenAll(s, now), rs)
  {
    forall i | 0 <= i < |s|
      ensures rs(FrozenAll(s, now)[i].id).unh_cycles > 0
    {
      assert FrozenAll(s, now)[i].id == s[i].id;
    }
  }

  lemma DividesIs(policy: Policy, q: State, stop: Times, rs: int -> Reading, unc: U64)
    requires Slotted(q.sch, |q.target|) && Divides(policy, q, stop, rs, unc)
    ensures Counted(q.sch, rs) && Slotted(FrozenAll(q.sch, stop), |q.target|)
    ensures
      var s := MeasureAll(policy, q.wnd, rs, unc, FrozenAll(q.sch, stop), Sweep([], q.target, q.nr, 0, q.collected));
      policy != PERF && q.wnd > s.nr && s.unh != 0 ==> Ideals(q.all + s.kept, s.unh)
  {
  }

  lemma QIs(sched: Sched)
    ensures Q(sched) == State(sched.A(), sched.S(), sched.target_instr[..], sched.monitor_wnd, sched.progs_nr,
                              sched.collected)
  {
  }

  lemma FreezeIs(policy: Policy, q: State, stop: Times, wait: Times, rs: int -> Reading, unc: U64)
    requires Slotted(q.sch, |q.target|) && Slotted(FrozenAll(q.sch, stop), |q.target|)
    ensures
      var s := MeasureAll(policy, q.wnd, rs, unc, FrozenAll(q.sch, stop), Sweep([], q.target, q.nr, 0, q.collected));
      Freeze(policy, q, stop, wait, rs, unc) ==
        State(AssessedAll(policy, q.wnd <= s.nr, q.all + s.kept, wait, s.unh), [], s.target,
              if q.wnd == (if policy == FAIR then 2 * s.nr else s.nr) then q.wnd + 1 else q.wnd, s.nr, s.collected)
  {
    hide Assessed, MeasureAll;
  }

  lemma KeptAll(kept: seq<Prog>)
    ensures kept + [] == kept
  {
  }

  /** `freeze_sched` */
  method FreezeSched(sched: Sched, policy: Policy, stop: Times, wait: Times, rs: int -> Reading, unc: U64)
    requires sched.Valid() && Slotted(sched.S(), sched.target_instr.Length)
    requires Divides(policy, Q(sched), stop, rs, unc)
    modifies sched`all, sched`sch, sched`monitor_wnd, sched`progs_nr, sched`collected, sched.target_instr
    modifies sched.Repr()`next, sched.Repr()`prev, sched.Repr()`pd, sched.Repr()`killed
    ensures sched.Valid() && sched.Repr() <= old(sched.Repr()) && sched.sch == []
    ensures Q(sched) == Freeze(policy, old(Q(sched)), stop, wait, rs, unc)
  {
    hide *;
    ghost var q := Q(sched);
    QIs(sched);
    DividesIs(policy, q, stop, rs, unc);
    FrozenSlots(q.sch, |q.target|, rs, stop);
    ghost var s := MeasureAll(policy, q.wnd, rs, unc, FrozenAll(q.sch, stop),
                              Sweep([], q.target, q.nr, 0, q.collected));
    StopAll(sched, stop);
    var unh := MeasureSch(sched, policy, rs, unc);
    SweepingIs(sched, s, unh, []);
    KeptAll(s.kept);
    Gather(sched);
    sched.IsMonitoring();
    AssessSched(sched, policy, wait, unh);
    if sched.monitor_wnd == (if policy == FAIR then 2 * sched.progs_nr else sched.progs_nr) {
      sched.monitor_wnd := sched.monitor_wnd + 1;
    }
    QIs(sched);
    FreezeIs(policy, q, stop, wait, rs, unc);
  }

  method ThawOne(sched: Sched, prog: Node, ghost k: nat, now: int)
    requires sched.Valid() && k < |sched.sch| && prog == sched.sch[k]
    modifies sched.Repr()`pd
    ensures sched.Valid() && sched.Repr() == old(sched.Repr())
    ensures sched.A() == old(sched.A())
    ensures |old(sched.S())| == |sched.sch|
    ensures var x := old(sched.S())[k]; sched.S() == old(sched.S())[k := Prog(x.id, Thawed(x.pd, now))]
  {
    hide IsRing, View, NoDup, Updated, Thawed;
    ghost var v := sched.S();
    SchApart(sched, k);
    sched.Views();
    Shown(sched.sch);
    UpdateClock(prog, now);
    prog.pd := prog.pd.(run_status := RS_RUNNING);
    IsThawed(v[k].pd, now);
    PdChanged(sched.sch, v, k);
    sched.Views();
  }

  lemma IsThawed(pd: ProgData, now: int)
    ensures Thawed(pd, now) == Updated(pd, now).(run_status := RS_RUNNING)
  {
  }

  lemma ThawedStep(v: seq<Prog>, i: nat, now: Times)
    requires i < |v|
    ensures (ThawedAll(v[..i], now) + v[i..])[i] == v[i]
    ensures (ThawedAll(v[..i], now) + v[i..])[i := Prog(v[i].id, Thawed(v[i].pd, now(v[i].id)))]
            == ThawedAll(v[..i + 1], now) + v[i + 1..]
  {
  }

  lemma ThawedEnds(v: seq<Prog>, now: Times)
    ensures ThawedAll(v[..0], now) + v[0..] == v
    ensures ThawedAll(v[..|v|], now) + v[|v|..] == ThawedAll(v, now)
  {
    assert v[..|v|] == v;
  }

  /** `thaw_sched` */
  method ThawSched(sched: Sched, now: Times)
    requires sched.Valid()
    modifies sched.Repr()`pd
    ensures sched.Valid() && sched.Repr() == old(sched.Repr())
    ensures Q(sched) == Thaw(old(Q(sched)), now)
  {
    hide *;
    ghost var q := Q(sched);
    QIs(sched);
    ghost var v, i := sched.S(), 0;
    sched.Sizes();
    sched.Firsts();
    ThawedEnds(v, now);
    var prog := sched.progs_sch.next;
    while prog != sched.progs_sch
      invariant i <= |sched.sch| == |v| && prog == Pos(sched.progs_sch, sched.sch, i)
      invariant sched.Valid() && sched.Repr() == old(sched.Repr()) && sched.A() == q.all
      invariant sched.S() == ThawedAll(v[..i], now) + v[i..]
      decreases |v| - i
    {
      sched.AtEnd(i);
      sched.NextSch(i);
      SchApart(sched, i);
      sched.Sizes();
      SchAt(sched, i);
      ThawOne(sched, prog, i, now(prog.id));
      ThawedStep(v, i, now);
      prog := prog.next;
      sched.NextSch(i);
      i := i + 1;
    }
    sched.AtEnd(i);
    QIs(sched);
    ThawIs(q, now);
  }

  lemma ThawIs(q: State, now: Times)
    ensures Thaw(q, now) == q.(sch := ThawedAll(q.sch, now))
  {
  }
}
