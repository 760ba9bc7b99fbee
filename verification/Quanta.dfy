/** The accounting between two quanta: `freeze_sched` and `thaw_sched` of the policies, on values. */
module Quanta {
  import opened Machine
  import opened Programs
  import opened Clocks

  /** The four policies that keep the two program lists; their sources differ only where this type is tested. */
  datatype Policy = PERF | PERF_FAIR | FAIR | FAIR_BW_CACHE

  /** What the counters of a program show at the end of its quantum. */
  datatype Reading = Reading(instr_retd: U64, unh_cycles: U64, mem_reads: U64, llc_occupancy: U64)

  /** The clock is read for each program in turn: the readings of one loop, by program. */
  type Times = int -> int

  /** The program lists with the state that freezing reads and writes. */
  datatype State = State(
    all: seq<Prog>,
    sch: seq<Prog>,
    target: seq<int>,         // instructions left to each slot, `target_instr`
    wnd: int,                 // `monitor_wnd`
    nr: int,                  // `progs_nr`
    collected: seq<int>)      // the programs whose stand-alone figures have been taken, in order

  ghost predicate Slotted(s: seq<Prog>, n: nat) {
    forall i :: 0 <= i < |s| ==> s[i].pd.init_id < n
  }

  function Ids(s: seq<Prog>): seq<int> {
    seq(|s|, i requires 0 <= i < |s| => s[i].id)
  }

  // ---------- one program ----------

  /** Unsigned division; dividing by zero would end the program. */
  function Quot(a: U64, b: U64): U64 {
    if b == 0 then 0 else Div(a, b)
  }

  function Div(a: U64, b: U64): (q: U64)
    requires b > 0
  {
    QuotBounds(a, b);
    a / b
  }

  lemma QuotBounds(a: U64, b: U64)
    requires b > 0
    ensures 0 <= a / b <= a
  {
  }

  function Measured(pd: ProgData, r: Reading): ProgData {
    pd.(instr_retd := r.instr_retd, unh_cycles := r.unh_cycles, mem_reads := r.mem_reads,
        llc_occupancy := r.llc_occupancy)
  }

  /** `collect`: the figures of a program that has run alone; `unc` counts the reads of the whole socket. */
  function Collected(policy: Policy, pd: ProgData, unc: U64): ProgData {
    var a := pd.(ipc_alone := ToInt(Quot(AsU64(pd.instr_retd * 1000), pd.unh_cycles)));
    var b := if policy == FAIR then a
             else a.(sum_mem_reads := if pd.category == BW then unc else pd.mem_reads);
    if policy in {PERF_FAIR, FAIR_BW_CACHE} then b.(llc_alone := ToInt(pd.llc_occupancy)) else b
  }

  function Accounted(pd: ProgData): ProgData {
    pd.(instr_retd_sum := AsU64(pd.instr_retd_sum + pd.instr_retd))
  }

  /** What the measuring loop does with the figures of a program that stays. */
  function Charge(policy: Policy, pd: ProgData, unc: U64, monitoring: bool): ProgData {
    if monitoring then Collected(policy, pd, unc) else Accounted(pd)
  }

  function Ideal(pd: ProgData, unh: U64): U64 {
    AsU64(pd.ideal_instr + Div(AsU64(pd.ipc_alone * unh), 1000))
  }

  /** `update_progress` */
  function Progressed(pd: ProgData, unh: U64): ProgData {
    if unh == 0 then pd
    else pd.(ideal_instr := Ideal(pd, unh), ratio := Quot(AsU64(pd.instr_retd_sum * 1000), Ideal(pd, unh)))
  }

  /**
   * The numbers for which `ideal` plus a thousandth of `a` comes out right in 64 bits: neither the product nor the sum
   * leaves them, or a negative product does so exactly a thousand times, which the sum makes up for.
   */
  predicate Fits(ideal: U64, a: int) {
    || (0 <= a < TWO_64 && ideal + a / 1000 < TWO_64)
    || (-1000 * TWO_64 <= a < -999 * TWO_64 && 0 <= ideal + a / 1000)
  }

  lemma ShareFits(ideal: U64, a: int)
    ensures (ideal + a % TWO_64 / 1000) % TWO_64 == ideal + a / 1000 <==> Fits(ideal, a)
  {
    var k := a / TWO_64;
    var r := a % TWO_64;
    assert a == r + k * TWO_64;
    var s := ideal + r / 1000;
    assert s % TWO_64 == if s < TWO_64 then s else s - TWO_64;
    if k == -1000 {
      assert a / 1000 == r / 1000 - TWO_64;
    } else if k <= -1001 {
      assert a / 1000 < r / 1000 - TWO_64;
    } else if -1000 < k < 0 {
      assert r / 1000 - TWO_64 < a / 1000 < r / 1000;
    } else if k > 0 {
      assert a / 1000 > r / 1000;
    }
  }

  /** The ideal instructions grow by the share of the quantum, exactly as long as product and sum fit. */
  lemma IdealMeans(pd: ProgData, unh: U64)
    requires unh != 0
    ensures
      var p := Progressed(pd, unh);
      && p == pd.(ideal_instr := p.ideal_instr, ratio := p.ratio)
      && p.ideal_instr == (pd.ideal_instr + pd.ipc_alone * unh % TWO_64 / 1000) % TWO_64
      && (p.ideal_instr == pd.ideal_instr + pd.ipc_alone * unh / 1000 <==> Fits(pd.ideal_instr, pd.ipc_alone * unh))
  {
    ShareFits(pd.ideal_instr, pd.ipc_alone * unh);
  }

  /** The ratio is the progress in thousandths, rounded down, exactly as long as the product does not overflow. */
  lemma RatioMeans(pd: ProgData, unh: U64)
    requires unh != 0 && Progressed(pd, unh).ideal_instr > 0
    ensures
      var p := Progressed(pd, unh);
      && (p.ideal_instr == pd.ideal_instr + pd.ipc_alone * unh / 1000 <==> Fits(pd.ideal_instr, pd.ipc_alone * unh))
      && (p.ratio * p.ideal_instr <= pd.instr_retd_sum * 1000 < (p.ratio + 1) * p.ideal_instr
          <==> pd.instr_retd_sum * 1000 < TWO_64)
  {
    hide Ideal, AsU64, Fits;
    IdealMeans(pd, unh);
    QuotientMeans(pd.instr_retd_sum * 1000, Ideal(pd, unh));
  }

  lemma QuotientMeans(s: nat, d: U64)
    requires d > 0
    ensures var q := Quot(AsU64(s), d); q * d <= s < (q + 1) * d <==> s < TWO_64
  {
    var a := AsU64(s);
    DivBounds(a, d);
    assert s < TWO_64 ==> a == s;
    assert s >= TWO_64 ==> a + d <= s by { Wraps(s); }
  }

  /** A quotient that is cut to an `int` is right exactly if the product does not overflow and the quotient fits. */
  lemma NarrowMeans(s: nat, d: U64)
    requires d > 0
    ensures var c := ToInt(Quot(AsU64(s), d)); c * d <= s < (c + 1) * d <==> s < TWO_64 && s < 0x8000_0000 * d
  {
    hide AsU64, ToInt;
    var q: nat, c: int := Quot(AsU64(s), d), ToInt(Quot(AsU64(s), d));
    QuotientMeans(s, d);
    DivBounds(AsU64(s), d);
    NarrowLess(q);
    if q < 0x8000_0000 {
      Scaled(q + 1, 0x8000_0000, d);
    } else {
      Scaled(0x8000_0000, q, d);
      Scaled(c + 1, q, d);
    }
    if s >= TWO_64 {
      Wraps(s);
      Scaled(c + 1, q + 1, d);
    }
  }

  lemma NarrowLess(q: nat)
    ensures ToInt(q) <= q && (ToInt(q) == q <==> q < 0x8000_0000)
  {
  }

  lemma Scaled(a: int, b: int, d: nat)
    requires a <= b
    ensures a * d <= b * d
  {
  }

  lemma Wraps(s: nat)
    ensures s >= TWO_64 ==> AsU64(s) + TWO_64 <= s
  {
  }

  lemma DivBounds(a: nat, d: nat)
    requires d > 0
    ensures a / d * d <= a < a / d * d + d == (a / d + 1) * d
  {
  }

  /** The last loop of `freeze_sched`. */
  function Assessed(policy: Policy, monitoring: bool, pd: ProgData, now: int, unh: U64): ProgData {
    var w := Waiting(pd, now);
    if policy == PERF then w.(ratio := AsU64(w.waiting_time))
    else if monitoring then w
    else Progressed(w, unh)
  }

  // ---------- the lists ----------

  function FrozenAll(s: seq<Prog>, now: Times): (r: seq<Prog>)
    ensures |r| == |s| && Ids(r) == Ids(s)
    ensures forall i :: 0 <= i < |s| ==> r[i] == Prog(s[i].id, Frozen(s[i].pd, now(s[i].id)))
  {
    seq(|s|, i requires 0 <= i < |s| => Prog(s[i].id, Frozen(s[i].pd, now(s[i].id))))
  }

  function ThawedAll(s: seq<Prog>, now: Times): (r: seq<Prog>)
    ensures |r| == |s| && Ids(r) == Ids(s)
    ensures forall i :: 0 <= i < |s| ==> r[i] == Prog(s[i].id, Thawed(s[i].pd, now(s[i].id)))
  {
    seq(|s|, i requires 0 <= i < |s| => Prog(s[i].id, Thawed(s[i].pd, now(s[i].id))))
  }

  function AssessedAll(policy: Policy, monitoring: bool, s: seq<Prog>, now: Times, unh: U64): (r: seq<Prog>)
    ensures |r| == |s| && Ids(r) == Ids(s)
    ensures forall i :: 0 <= i < |s| ==> r[i] == Prog(s[i].id, Assessed(policy, monitoring, s[i].pd, now(s[i].id), unh))
  {
    seq(|s|, i requires 0 <= i < |s| => Prog(s[i].id, Assessed(policy, monitoring, s[i].pd, now(s[i].id), unh)))
  }

  /** The state of the measuring loop: programs kept and killed so far, and the first non-zero cycle count. */
  datatype Sweep = Sweep(kept: seq<Prog>, target: seq<int>, nr: int, unh: U64, collected: seq<int>)

  /** One program of the measuring loop. */
  function Measure(policy: Policy, wnd: int, r: Reading, unc: U64, x: Prog, s: Sweep): (s': Sweep)
    requires x.pd.init_id < |s.target|
    ensures |s'.target| == |s.target|
  {
    var pd := Measured(x.pd, r);
    var u := s.(unh := if s.unh == 0 then pd.unh_cycles else s.unh);
    if wnd <= s.nr then
      u.(kept := s.kept + [Prog(x.id, Collected(policy, pd, unc))], collected := s.collected + [x.id])
    else
      var left := s.target[pd.init_id] - ToLong(pd.instr_retd);
      var t := s.target[pd.init_id := left];
      if left <= 0 then u.(target := t, nr := s.nr - 1)
      else u.(target := t, kept := s.kept + [Prog(x.id, Accounted(pd))])
  }

  function MeasureAll(policy: Policy, wnd: int, rs: int -> Reading, unc: U64, todo: seq<Prog>, s: Sweep): (s': Sweep)
    requires Slotted(todo, |s.target|)
    ensures |s'.target| == |s.target|
    decreases |todo|
  {
    if todo == [] then s
    else MeasureAll(policy, wnd, rs, unc, todo[1..], Measure(policy, wnd, rs(todo[0].id), unc, todo[0], s))
  }

  lemma MeasureStep(policy: Policy, wnd: int, rs: int -> Reading, unc: U64, todo: seq<Prog>, s: Sweep)
    requires todo != [] && Slotted(todo, |s.target|)
    ensures Slotted(todo[1..], |s.target|) && todo[0].pd.init_id < |s.target|
    ensures MeasureAll(policy, wnd, rs, unc, todo, s) ==
            MeasureAll(policy, wnd, rs, unc, todo[1..], Measure(policy, wnd, rs(todo[0].id), unc, todo[0], s))
  {
  }

  /** Monitoring ends when the window has passed all programs; `fair` waits twice as long. */
  function Bound(policy: Policy, nr: int): int {
    if policy == FAIR then 2 * nr else nr
  }

  function Swept(policy: Policy, q: State, stop: Times, rs: int -> Reading, unc: U64): Sweep
    requires Slotted(q.sch, |q.target|)
  {
    MeasureAll(policy, q.wnd, rs, unc, FrozenAll(q.sch, stop), Sweep([], q.target, q.nr, 0, q.collected))
  }

  /**
   * `freeze_sched`; the clock is read for each program that stops, and again for each one whose waiting time is taken.
   */
  function Freeze(policy: Policy, q: State, stop: Times, wait: Times, rs: int -> Reading, unc: U64): State
    requires Slotted(q.sch, |q.target|)
  {
    var s := Swept(policy, q, stop, rs, unc);
    State(
      AssessedAll(policy, q.wnd <= s.nr, q.all + s.kept, wait, s.unh),
      [],
      s.target,
      if q.wnd == Bound(policy, s.nr) then q.wnd + 1 else q.wnd,
      s.nr,
      s.collected)
  }

  lemma FrozenSlotted(s: seq<Prog>, n: nat, stop: Times)
    requires Slotted(s, n)
    ensures Slotted(FrozenAll(s, stop), n)
  {
  }

  /** No division of `freeze_sched` has the divisor zero. */
  ghost predicate Divides(policy: Policy, q: State, stop: Times, rs: int -> Reading, unc: U64)
    requires Slotted(q.sch, |q.target|)
  {
    var s := Swept(policy, q, stop, rs, unc);
    && Counted(q.sch, rs)
    && (policy != PERF && q.wnd > s.nr && s.unh != 0 ==> Ideals(q.all + s.kept, s.unh))
  }

  ghost predicate Counted(s: seq<Prog>, rs: int -> Reading) {
    forall i :: 0 <= i < |s| ==> rs(s[i].id).unh_cycles > 0
  }

  ghost predicate Ideals(s: seq<Prog>, unh: U64) {
    forall i :: 0 <= i < |s| ==> Ideal(s[i].pd, unh) > 0
  }

  function Thaw(q: State, now: Times): State {
    q.(sch := ThawedAll(q.sch, now))
  }

  /** `monitor`: the first program is scheduled alone. */
  function Monitored(q: State): State
    requires q.all != []
  {
    q.(all := q.all[1..], sch := [q.all[0]], wnd := q.wnd + 1)
  }
}
