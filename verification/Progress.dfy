/** What freezing does to the figures of a program: which are measured, which are charged, and how progress moves. */
module Progress {
  import opened Machine
  import opened Programs
  import opened Clocks
  import opened Quanta
  import opened Turns

  /** The cycles that progress is computed from: the first ones counted that are not zero, in list order. */
  function FirstCycles(s: seq<Prog>, rs: int -> Reading): U64 {
    if s == [] then 0
    else if rs(s[0].id).unh_cycles != 0 then rs(s[0].id).unh_cycles
    else FirstCycles(s[1..], rs)
  }

  // ---------- what the figures mean ----------

  /** The counters of the quantum are in their fields. */
  ghost predicate Shows(pd: ProgData, r: Reading) {
    && pd.instr_retd == r.instr_retd && pd.unh_cycles == r.unh_cycles
    && pd.mem_reads == r.mem_reads && pd.llc_occupancy == r.llc_occupancy
  }

  ghost predicate SameCounters(pd: ProgData, pd': ProgData) {
    Shows(pd', Reading(pd.instr_retd, pd.unh_cycles, pd.mem_reads, pd.llc_occupancy))
  }

  ghost predicate SameFigures(pd: ProgData, pd': ProgData) {
    pd'.ipc_alone == pd.ipc_alone && pd'.llc_alone == pd.llc_alone && pd'.sum_mem_reads == pd.sum_mem_reads
  }

  /**
   * The stand-alone figures come from a quantum with the counters `r`, in which the socket counted `unc` reads: the
   * reads of the socket for a BW program and its own ones for any other, the occupancy, and the instructions for each
   * thousand cycles, rounded down.
   */
  ghost predicate Measures(policy: Policy, pd: ProgData, r: Reading, unc: U64) {
    && (policy != FAIR ==> pd.sum_mem_reads == if pd.category == BW then unc else r.mem_reads)
    && (policy in {PERF_FAIR, FAIR_BW_CACHE} ==> (pd.llc_alone == r.llc_occupancy <==> r.llc_occupancy < 0x8000_0000))
    && (r.unh_cycles > 0 ==>
          (pd.ipc_alone * r.unh_cycles <= r.instr_retd * 1000 < (pd.ipc_alone + 1) * r.unh_cycles
           <==> r.instr_retd * 1000 < TWO_64 && r.instr_retd * 1000 < 0x8000_0000 * r.unh_cycles))
  }

  /**
   * Progress has moved by `u` cycles: the ideal instructions by what the program would have done alone, and the ratio
   * is the progress in thousandths of them, each exactly if the numbers fit. No cycles, no move.
   */
  ghost predicate Moved(pd: ProgData, pd': ProgData, u: U64) {
    if u == 0 then pd'.ideal_instr == pd.ideal_instr && pd'.ratio == pd.ratio
    else
      && pd'.ideal_instr == (pd.ideal_instr + pd.ipc_alone * u % TWO_64 / 1000) % TWO_64
      && (pd'.ideal_instr == pd.ideal_instr + pd.ipc_alone * u / 1000 <==> Fits(pd.ideal_instr, pd.ipc_alone * u))
      && (pd'.ideal_instr > 0 ==>
            (pd'.ratio * pd'.ideal_instr <= pd'.instr_retd_sum * 1000 < (pd'.ratio + 1) * pd'.ideal_instr
             <==> pd'.instr_retd_sum * 1000 < TWO_64))
  }

  /** A quantum of the monitoring phase: nothing is charged, and what ran alone is measured. */
  ghost predicate Collecting(policy: Policy, pd: ProgData, ran: bool, r: Reading, unc: U64, pd': ProgData) {
    && pd'.instr_retd_sum == pd.instr_retd_sum && pd'.ideal_instr == pd.ideal_instr
    && (policy != PERF ==> pd'.ratio == pd.ratio)
    && if !ran then SameFigures(pd, pd')
       else
         && Measures(policy, pd', r, unc)
         && (policy == FAIR ==> pd'.sum_mem_reads == pd.sum_mem_reads)
         && (policy in {PERF, FAIR} ==> pd'.llc_alone == pd.llc_alone)
  }

  /** Any other quantum: what ran is charged, and the progress of all programs moves by the same cycles. */
  ghost predicate Charging(policy: Policy, pd: ProgData, ran: bool, r: Reading, u: U64, pd': ProgData) {
    && SameFigures(pd, pd')
    && pd'.instr_retd_sum == (pd.instr_retd_sum + if ran then r.instr_retd else 0) % TWO_64
    && if policy == PERF then pd'.ideal_instr == pd.ideal_instr else Moved(pd, pd', u)
  }

  /** What the end of a quantum makes of the program `x`, which has run or waited. */
  ghost predicate Passes(policy: Policy, q: State, rs: int -> Reading, unc: U64, x: Prog, ran: bool, y: Prog) {
    var r, u := rs(x.id), FirstCycles(q.sch, rs);
    && y.id == x.id && y.pd.init_id == x.pd.init_id && y.pd.category == x.pd.category
    && (if ran then Shows(y.pd, r) else SameCounters(x.pd, y.pd))
    && if q.wnd <= q.nr then Collecting(policy, x.pd, ran, r, unc, y.pd) else Charging(policy, x.pd, ran, r, u, y.pd)
  }

  // ---------- one program ----------

  lemma CollectedMeans(policy: Policy, pd: ProgData, r: Reading, unc: U64)
    requires Shows(pd, r)
    ensures
      var p := Collected(policy, pd, unc);
      && Measures(policy, p, r, unc) && Shows(p, r) && p.category == pd.category && p.init_id == pd.init_id
      && p.ideal_instr == pd.ideal_instr && p.ratio == pd.ratio && p.instr_retd_sum == pd.instr_retd_sum
      && (policy == FAIR ==> p.sum_mem_reads == pd.sum_mem_reads)
      && (policy in {PERF, FAIR} ==> p.llc_alone == pd.llc_alone)
  {
    hide AsU64, ToInt, Quot;
    NarrowLess(r.llc_occupancy);
    if r.unh_cycles > 0 {
      NarrowMeans(r.instr_retd * 1000, r.unh_cycles);
    }
  }

  /** The first two loops: nothing but the clocks, the counters and what is charged or collected changes. */
  lemma ChargeMeans(policy: Policy, monitoring: bool, pd: ProgData, stop: int, r: Reading, unc: U64)
    ensures
      var p := Charge(policy, Measured(Frozen(pd, stop), r), unc, monitoring);
      && Shows(p, r) && p.category == pd.category && p.init_id == pd.init_id
      && p.ideal_instr == pd.ideal_instr && p.ratio == pd.ratio
      && (if monitoring then Collecting(policy, pd, true, r, unc, p)
          else SameFigures(pd, p) && p.instr_retd_sum == (pd.instr_retd_sum + r.instr_retd) % TWO_64)
  {
    hide Collected, Measures;
    CollectedMeans(policy, Measured(Frozen(pd, stop), r), r, unc);
  }

  /** The last loop. */
  lemma AssessedMeans(policy: Policy, monitoring: bool, pd: ProgData, now: int, u: U64)
    ensures
      var p := Assessed(policy, monitoring, pd, now, u);
      && SameCounters(pd, p) && SameFigures(pd, p) && p.category == pd.category && p.init_id == pd.init_id
      && p.instr_retd_sum == pd.instr_retd_sum
      && (monitoring || policy == PERF ==> p.ideal_instr == pd.ideal_instr)
      && (policy != PERF ==> if monitoring then p.ratio == pd.ratio else Moved(pd, p, u))
      && (policy == PERF ==> p.ratio == p.waiting_time % TWO_64)
  {
    hide Progressed, Moved, AsU64, ToInt;
    WaitingRatio(Waiting(pd, now).waiting_time);
    if policy != PERF && !monitoring {
      var w := Waiting(pd, now);
      MovedBy(w, u);
      MovedSame(w, pd, Progressed(w, u), u);
    }
  }

  lemma WaitingRatio(t: int)
    ensures AsU64(t) == t % TWO_64
  {
  }

  lemma MovedSame(pd: ProgData, other: ProgData, pd': ProgData, u: U64)
    requires Moved(pd, pd', u)
    requires other.ideal_instr == pd.ideal_instr && other.ratio == pd.ratio && other.ipc_alone == pd.ipc_alone
    ensures Moved(other, pd', u)
  {
    hide Fits;
  }

  lemma MovedBy(pd: ProgData, u: U64)
    ensures Moved(pd, Progressed(pd, u), u)
    ensures
      var p := Progressed(pd, u);
      p == pd.(ideal_instr := p.ideal_instr, ratio := p.ratio)
  {
    hide Fits, Ideal;
    if u != 0 {
      IdealMeans(pd, u);
      if Progressed(pd, u).ideal_instr > 0 {
        RatioMeans(pd, u);
      }
    }
  }

  lemma PassesWaiting(policy: Policy, q: State, x: Prog, now: int, rs: int -> Reading, unc: U64)
    ensures
      var y := Prog(x.id, Assessed(policy, q.wnd <= q.nr, x.pd, now, FirstCycles(q.sch, rs)));
      Passes(policy, q, rs, unc, x, false, y) && (policy == PERF ==> y.pd.ratio == y.pd.waiting_time % TWO_64)
  {
    hide Assessed, Moved, FirstCycles;
    AssessedMeans(policy, q.wnd <= q.nr, x.pd, now, FirstCycles(q.sch, rs));
  }

  lemma PassesRunning(policy: Policy, q: State, x: Prog, stop: int, now: int, rs: int -> Reading, unc: U64)
    ensures
      var monitoring := q.wnd <= q.nr;
      var p := Charge(policy, Measured(Frozen(x.pd, stop), rs(x.id)), unc, monitoring);
      var y := Prog(x.id, Assessed(policy, monitoring, p, now, FirstCycles(q.sch, rs)));
      Passes(policy, q, rs, unc, x, true, y) && (policy == PERF ==> y.pd.ratio == y.pd.waiting_time % TWO_64)
  {
    hide Assessed, Charge, Measured, Frozen, Moved, FirstCycles, Measures;
    var monitoring := q.wnd <= q.nr;
    ChargeMeans(policy, monitoring, x.pd, stop, rs(x.id), unc);
    var p := Charge(policy, Measured(Frozen(x.pd, stop), rs(x.id)), unc, monitoring);
    var y := Assessed(policy, monitoring, p, now, FirstCycles(q.sch, rs));
    AssessedMeans(policy, monitoring, p, now, FirstCycles(q.sch, rs));
    if monitoring {
      SameMeasures(policy, p, y, rs(x.id), unc);
    } else if policy != PERF {
      MovedSame(p, x.pd, y, FirstCycles(q.sch, rs));
    }
  }

  lemma SameMeasures(policy: Policy, pd: ProgData, pd': ProgData, r: Reading, unc: U64)
    requires Measures(policy, pd, r, unc) && SameFigures(pd, pd') && pd'.category == pd.category
    ensures Measures(policy, pd', r, unc)
  {
  }

  // ---------- the whole of freeze_sched ----------

  lemma {:induction false} KeptFrom(policy: Policy, wnd: int, rs: int -> Reading, unc: U64, todo: seq<Prog>, s: Sweep,
                                    y: Prog)
    returns (j: nat)
    requires Slotted(todo, |s.target|) && y in MeasureAll(policy, wnd, rs, unc, todo, s).kept
    ensures y in s.kept || j < |todo|
    ensures y !in s.kept ==>
              var x := todo[j];
              y == Prog(x.id, Charge(policy, Measured(x.pd, rs(x.id)), unc, wnd <= s.nr))
    decreases |todo|
  {
    hide Charge, Collected, Accounted, Measured;
    j := 0;
    if todo != [] {
      var x := todo[0];
      var s' := Measure(policy, wnd, rs(x.id), unc, x, s);
      var i := KeptFrom(policy, wnd, rs, unc, todo[1..], s', y);
      MeasureAppends(policy, wnd, rs(x.id), unc, x, s, y);
      j := if y in s'.kept then 0 else i + 1;
    }
  }

  lemma MeasureAppends(policy: Policy, wnd: int, r: Reading, unc: U64, x: Prog, s: Sweep, y: Prog)
    requires x.pd.init_id < |s.target|
    ensures
      var s' := Measure(policy, wnd, r, unc, x, s);
      && (wnd <= s'.nr <==> wnd <= s.nr)
      && (y in s'.kept && y !in s.kept ==> y == Prog(x.id, Charge(policy, Measured(x.pd, r), unc, wnd <= s.nr)))
  {
    hide Collected, Accounted, Measured;
  }

  lemma {:induction false} CyclesAre(policy: Policy, wnd: int, rs: int -> Reading, unc: U64, todo: seq<Prog>, s: Sweep)
    requires Slotted(todo, |s.target|)
    ensures
      var s' := MeasureAll(policy, wnd, rs, unc, todo, s);
      s'.unh == (if s.unh != 0 then s.unh else FirstCycles(todo, rs)) && (wnd <= s'.nr <==> wnd <= s.nr)
    decreases |todo|
  {
    hide Collected, Accounted;
    if todo != [] {
      var s' := Measure(policy, wnd, rs(todo[0].id), unc, todo[0], s);
      CyclesAre(policy, wnd, rs, unc, todo[1..], s');
    }
  }

  lemma {:induction false} FrozenCycles(s: seq<Prog>, stop: Times, rs: int -> Reading)
    ensures FirstCycles(FrozenAll(s, stop), rs) == FirstCycles(s, rs)
  {
    hide Frozen;
    if s != [] {
      FrozenCycles(s[1..], stop, rs);
      assert FrozenAll(s, stop)[1..] == FrozenAll(s[1..], stop);
    }
  }

  /**
   * Every program that is listed after freezing has run or waited before, and has changed accordingly: in the phase
   * its figures are its own counters, outside it its progress has moved by the cycles of the quantum.
   */
  lemma FreezePasses(policy: Policy, q: State, stop: Times, wait: Times, rs: int -> Reading, unc: U64, y: Prog)
    returns (x: Prog, ran: bool)
    requires Slotted(q.sch, |q.target|) && y in Freeze(policy, q, stop, wait, rs, unc).all
    ensures if ran then x in q.sch else x in q.all
    ensures Passes(policy, q, rs, unc, x, ran, y) && (policy == PERF ==> y.pd.ratio == y.pd.waiting_time % TWO_64)
  {
    hide Assessed, MeasureAll, Charge, Measured, Frozen, Passes, FirstCycles;
    var todo, s0 := FrozenAll(q.sch, stop), Sweep([], q.target, q.nr, 0, q.collected);
    FrozenSlotted(q.sch, |q.target|, stop);
    CyclesAre(policy, q.wnd, rs, unc, todo, s0);
    FrozenCycles(q.sch, stop, rs);
    var s := Swept(policy, q, stop, rs, unc);
    var f := Freeze(policy, q, stop, wait, rs, unc);
    var i :| 0 <= i < |f.all| && f.all[i] == y;
    if i < |q.all| {
      x, ran := q.all[i], false;
      PassesWaiting(policy, q, x, wait(x.id), rs, unc);
    } else {
      var z := s.kept[i - |q.all|];
      var j := KeptFrom(policy, q.wnd, rs, unc, todo, s0, z);
      x, ran := q.sch[j], true;
      assert todo[j] == Prog(x.id, Frozen(x.pd, stop(x.id)));
      PassesRunning(policy, q, x, stop(x.id), wait(x.id), rs, unc);
    }
  }

  /** The same, in numbers, for the progress of a program outside the phase, and in it. */
  lemma FreezeMoves(policy: Policy, q: State, stop: Times, wait: Times, rs: int -> Reading, unc: U64, y: Prog)
    returns (x: Prog)
    requires Slotted(q.sch, |q.target|) && y in Freeze(policy, q, stop, wait, rs, unc).all && policy != PERF
    ensures x in q.all + q.sch && x.id == y.id
    ensures q.wnd <= q.nr || FirstCycles(q.sch, rs) == 0 ==>
              y.pd.ideal_instr == x.pd.ideal_instr && y.pd.ratio == x.pd.ratio
    ensures q.wnd > q.nr && FirstCycles(q.sch, rs) != 0 ==>
              var share := x.pd.ipc_alone * FirstCycles(q.sch, rs);
              && (y.pd.ideal_instr == x.pd.ideal_instr + share / 1000 <==> Fits(x.pd.ideal_instr, share))
              && (y.pd.ideal_instr > 0 ==>
                    (y.pd.ratio * y.pd.ideal_instr <= y.pd.instr_retd_sum * 1000 < (y.pd.ratio + 1) * y.pd.ideal_instr
                     <==> y.pd.instr_retd_sum * 1000 < TWO_64))
  {
    hide Freeze, FirstCycles, Fits;
    var ran;
    x, ran := FreezePasses(policy, q, stop, wait, rs, unc, y);
  }

  /** The same, in numbers, for a program that has run alone in the phase: what is measured, and what is not charged. */
  lemma FreezeMeasures(policy: Policy, q: State, stop: Times, wait: Times, rs: int -> Reading, unc: U64, y: Prog)
    returns (x: Prog, ran: bool)
    requires Slotted(q.sch, |q.target|) && y in Freeze(policy, q, stop, wait, rs, unc).all && q.wnd <= q.nr
    ensures (if ran then x in q.sch else x in q.all) && x.id == y.id && x.pd.category == y.pd.category
    ensures y.pd.instr_retd_sum == x.pd.instr_retd_sum && y.pd.ideal_instr == x.pd.ideal_instr
    ensures !ran ==>
              && y.pd.ipc_alone == x.pd.ipc_alone && y.pd.llc_alone == x.pd.llc_alone
              && y.pd.sum_mem_reads == x.pd.sum_mem_reads
    ensures ran && policy != FAIR ==> y.pd.sum_mem_reads == if x.pd.category == BW then unc else rs(x.id).mem_reads
    ensures ran && policy in {PERF_FAIR, FAIR_BW_CACHE} ==>
              (y.pd.llc_alone == rs(x.id).llc_occupancy <==> rs(x.id).llc_occupancy < 0x8000_0000)
    ensures ran && rs(x.id).unh_cycles > 0 ==>
              var instr, unh := rs(x.id).instr_retd, rs(x.id).unh_cycles;
              (y.pd.ipc_alone * unh <= instr * 1000 < (y.pd.ipc_alone + 1) * unh
               <==> instr * 1000 < TWO_64 && instr * 1000 < 0x8000_0000 * unh)
  {
    hide Freeze, FirstCycles, Moved;
    x, ran := FreezePasses(policy, q, stop, wait, rs, unc, y);
  }

  // ---------- a whole quantum ----------

  lemma ThawedSame(pd: ProgData, now: int)
    ensures
      var p := Thawed(pd, now);
      && SameCounters(pd, p) && SameFigures(pd, p) && p.category == pd.category && p.init_id == pd.init_id
      && p.instr_retd_sum == pd.instr_retd_sum && p.ideal_instr == pd.ideal_instr && p.ratio == pd.ratio
  {
  }

  lemma PassesThawed(policy: Policy, q: State, rs: int -> Reading, unc: U64, x: Prog, ran: bool, y: Prog, now: int)
    requires Passes(policy, q, rs, unc, x, ran, y)
    ensures Passes(policy, q, rs, unc, x, ran, Prog(y.id, Thawed(y.pd, now)))
  {
    hide Thawed, Moved, FirstCycles, Measures;
    ThawedSame(y.pd, now);
    var p := Thawed(y.pd, now);
    if q.wnd > q.nr && policy != PERF {
      MovedThen(x.pd, y.pd, p, FirstCycles(q.sch, rs));
    } else if q.wnd <= q.nr && ran {
      SameMeasures(policy, y.pd, p, rs(x.id), unc);
    }
  }

  lemma MovedThen(pd: ProgData, pd': ProgData, other: ProgData, u: U64)
    requires Moved(pd, pd', u)
    requires other.ideal_instr == pd'.ideal_instr && other.ratio == pd'.ratio
    requires other.instr_retd_sum == pd'.instr_retd_sum
    ensures Moved(pd, other, u)
  {
    hide Fits;
  }

  /** Every program that is listed after a quantum has been listed before. */
  lemma ExpiryPasses(policy: Policy, q: State, t: Tick, q': State, y: Prog) returns (x: Prog, ran: bool)
    requires Expires(policy, q, t, q') && y in q'.all + q'.sch
    ensures if ran then x in q.sch else x in q.all
    ensures Passes(policy, q, t.rs, t.unc, x, ran, y)
  {
    hide Freeze, Turn, Passes, Thawed;
    var f := Freeze(policy, q, t.stop, t.wait, t.rs, t.unc);
    var m :| Turn(policy, f, m) && q' == Thaw(m, t.thaw);
    TurnConserves(policy, f, m);
    if y in q'.sch {
      var j :| 0 <= j < |q'.sch| && q'.sch[j] == y;
      var z := m.sch[j];
      assert z in multiset(m.all) + multiset(m.sch);
      assert z in multiset(f.all);
      x, ran := FreezePasses(policy, q, t.stop, t.wait, t.rs, t.unc, z);
      PassesThawed(policy, q, t.rs, t.unc, x, ran, z, t.thaw(z.id));
    } else {
      assert y in multiset(m.all) + multiset(m.sch);
      assert y in multiset(f.all);
      x, ran := FreezePasses(policy, q, t.stop, t.wait, t.rs, t.unc, y);
    }
  }
  // ---------- who is killed ----------

  ghost predicate Apart(s: seq<Prog>) {
    forall i, j :: 0 <= i < j < |s| ==> s[i].id != s[j].id && s[i].pd.init_id != s[j].pd.init_id
  }

  /** A program that is not measured is noticed by none of the two. */
  lemma {:induction false} SweepBeside(policy: Policy, wnd: int, rs: int -> Reading, unc: U64, todo: seq<Prog>,
                                       s: Sweep, id: int, slot: nat)
    requires Slotted(todo, |s.target|) && slot < |s.target|
    requires forall i :: 0 <= i < |todo| ==> todo[i].id != id && todo[i].pd.init_id != slot
    ensures
      var s' := MeasureAll(policy, wnd, rs, unc, todo, s);
      (id in Ids(s'.kept) <==> id in Ids(s.kept)) && s'.target[slot] == s.target[slot]
    decreases |todo|
  {
    hide Collected, Accounted, Measured, Ids;
    if todo != [] {
      var s' := Measure(policy, wnd, rs(todo[0].id), unc, todo[0], s);
      KeptOne(policy, wnd, rs(todo[0].id), unc, todo[0], s, id, slot);
      SweepBeside(policy, wnd, rs, unc, todo[1..], s', id, slot);
    }
  }

  lemma KeptOne(policy: Policy, wnd: int, r: Reading, unc: U64, x: Prog, s: Sweep, id: int, slot: nat)
    requires x.pd.init_id < |s.target| && slot < |s.target|
    ensures
      var s' := Measure(policy, wnd, r, unc, x, s);
      var left := s.target[x.pd.init_id] - ToLong(r.instr_retd);
      && (id in Ids(s'.kept) <==> id in Ids(s.kept) || (id == x.id && (wnd <= s.nr || left > 0)))
      && s'.target[slot] == (if wnd > s.nr && slot == x.pd.init_id then left else s.target[slot])
      && (wnd <= s'.nr <==> wnd <= s.nr)
  {
    hide Collected, Accounted, ToLong, Ids;
    var s' := Measure(policy, wnd, r, unc, x, s);
    if s'.kept != s.kept {
      IdsGrow(s.kept, s'.kept[|s.kept|]);
    }
  }

  lemma IdsGrow(s: seq<Prog>, y: Prog)
    ensures Ids(s + [y]) == Ids(s) + [y.id]
  {
  }

  lemma {:induction false} SweepAt(policy: Policy, wnd: int, rs: int -> Reading, unc: U64, todo: seq<Prog>, s: Sweep,
                                   j: nat)
    requires Slotted(todo, |s.target|) && Apart(todo) && j < |todo| && todo[j].id !in Ids(s.kept)
    ensures
      var s' := MeasureAll(policy, wnd, rs, unc, todo, s);
      var slot := todo[j].pd.init_id;
      var left := s.target[slot] - ToLong(rs(todo[j].id).instr_retd);
      && (todo[j].id in Ids(s'.kept) <==> wnd <= s.nr || left > 0)
      && s'.target[slot] == if wnd > s.nr then left else s.target[slot]
    decreases |todo|
  {
    hide Measure, Ids, ToLong;
    var x := todo[0];
    var s' := Measure(policy, wnd, rs(x.id), unc, x, s);
    KeptOne(policy, wnd, rs(x.id), unc, x, s, todo[j].id, todo[j].pd.init_id);
    if j == 0 {
      SweepBeside(policy, wnd, rs, unc, todo[1..], s', x.id, x.pd.init_id);
    } else {
      SweepAt(policy, wnd, rs, unc, todo[1..], s', j - 1);
    }
  }

  /** What a program has run is taken from the target of its slot, and it is killed exactly when nothing is left. */
  lemma KilledWhen(policy: Policy, q: State, stop: Times, wait: Times, rs: int -> Reading, unc: U64, j: nat)
    requires Slotted(q.sch, |q.target|) && Apart(q.all + q.sch) && j < |q.sch|
    ensures
      var f := Freeze(policy, q, stop, wait, rs, unc);
      var slot := q.sch[j].pd.init_id;
      var left := q.target[slot] - ToLong(rs(q.sch[j].id).instr_retd);
      && |f.target| == |q.target|
      && (q.sch[j].id in Ids(f.all) <==> q.wnd <= q.nr || left > 0)
      && f.target[slot] == if q.wnd > q.nr then left else q.target[slot]
  {
    hide Assessed, Frozen, MeasureAll, ToLong, Ids;
    var todo, s0 := FrozenAll(q.sch, stop), Sweep([], q.target, q.nr, 0, q.collected);
    FrozenSlotted(q.sch, |q.target|, stop);
    ApartLast(q.all, q.sch, todo, stop);
    NoIds();
    SweepAt(policy, q.wnd, rs, unc, todo, s0, j);
    var s := Swept(policy, q, stop, rs, unc);
    IdsOf(q.all, s.kept);
    IdIn(q.all, q.sch, j);
  }

  lemma ApartLast(all: seq<Prog>, sch: seq<Prog>, todo: seq<Prog>, stop: Times)
    requires Apart(all + sch) && todo == FrozenAll(sch, stop)
    ensures Apart(todo)
    ensures forall j :: 0 <= j < |sch| ==> todo[j].id == sch[j].id && todo[j].pd.init_id == sch[j].pd.init_id
  {
    forall i, j | 0 <= i < j < |todo|
      ensures todo[i].id != todo[j].id && todo[i].pd.init_id != todo[j].pd.init_id
    {
      assert (all + sch)[|all| + i] == sch[i] && (all + sch)[|all| + j] == sch[j];
    }
  }

  lemma NoIds()
    ensures Ids([]) == []
  {
  }

  lemma IdsOf(s: seq<Prog>, t: seq<Prog>)
    ensures Ids(s + t) == Ids(s) + Ids(t)
  {
  }

  lemma IdIn(all: seq<Prog>, sch: seq<Prog>, j: nat)
    requires Apart(all + sch) && j < |sch|
    ensures sch[j].id !in Ids(all)
  {
    forall i | 0 <= i < |all|
      ensures all[i].id != sch[j].id
    {
      assert (all + sch)[i] == all[i] && (all + sch)[|all| + j] == sch[j];
    }
  }
}
