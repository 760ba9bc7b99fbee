/** Under `perf` no program waits for ever: the list is kept in the order in which the programs stopped. */
module BoundedWaiting {
  import opened Machine
  import opened Programs
  import opened Seqs
  import opened Clocks
  import opened Quanta
  import opened Turns
  import opened Instances
  import opened Lines
  import PerfSpec

  ghost predicate Running(sch: seq<Prog>) {
    forall i :: 0 <= i < |sch| ==> sch[i].pd.run_status == RS_RUNNING
  }

  // ---------- freezing ----------

  /** The readings `t` are taken in list order, from `lo` to `hi`. */
  ghost predicate InTurn(s: seq<Prog>, t: Times, lo: int, hi: int) {
    && (forall i :: 0 <= i < |s| ==> lo <= t(s[i].id) <= hi)
    && (forall i, j :: 0 <= i <= j < |s| ==> t(s[i].id) <= t(s[j].id))
  }

  /** Every program of `s` has stopped at its own reading. */
  ghost predicate Halted(s: seq<Prog>, stop: Times) {
    forall i :: 0 <= i < |s| ==> Since(s[i], stop(s[i].id))
  }

  lemma FrozenHalted(s: seq<Prog>, stop: Times)
    requires Running(s)
    ensures Halted(FrozenAll(s, stop), stop)
  {
  }

  lemma MeasureHalts(policy: Policy, wnd: int, r: Reading, unc: U64, x: Prog, s: Sweep, stop: Times)
    requires x.pd.init_id < |s.target| && Since(x, stop(x.id)) && Halted(s.kept, stop)
    ensures Halted(Measure(policy, wnd, r, unc, x, s).kept, stop)
  {
    hide AsU32;
  }

  lemma {:induction false} MeasureAllHalts(
    policy: Policy, wnd: int, rs: int -> Reading, unc: U64, todo: seq<Prog>, s: Sweep, stop: Times)
    requires Slotted(todo, |s.target|) && Halted(todo, stop) && Halted(s.kept, stop)
    ensures Halted(MeasureAll(policy, wnd, rs, unc, todo, s).kept, stop)
    decreases |todo|
  {
    hide Measure, Since;
    if todo != [] {
      MeasureHalts(policy, wnd, rs(todo[0].id), unc, todo[0], s, stop);
      MeasureAllHalts(policy, wnd, rs, unc, todo[1..], Measure(policy, wnd, rs(todo[0].id), unc, todo[0], s), stop);
    }
  }

  /** What is measured next is kept in its place or dropped, so the order of the readings stays. */
  lemma MeasureInTurn(policy: Policy, wnd: int, r: Reading, unc: U64, pre: seq<Prog>, x: Prog, todo: seq<Prog>,
                      s: Sweep,
                      t: Times, lo: int, hi: int)
    requires x.pd.init_id < |s.target| && InTurn(pre + s.kept + ([x] + todo), t, lo, hi)
    ensures InTurn(pre + Measure(policy, wnd, r, unc, x, s).kept + todo, t, lo, hi)
  {
    var k := Measure(policy, wnd, r, unc, x, s).kept;
    MeasureKeeps(policy, wnd, r, unc, x, s);
    var was, now := pre + s.kept + ([x] + todo), pre + k + todo;
    var m := |pre| + |s.kept|;
    forall i | 0 <= i < |now|
      ensures var j := if i < m || |k| > |s.kept| then i else i + 1; j < |was| && now[i].id == was[j].id
    {
      if i == m && |k| > |s.kept| {
        assert now[i] == k[|s.kept|];
      }
    }
  }

  lemma MeasureKeeps(policy: Policy, wnd: int, r: Reading, unc: U64, x: Prog, s: Sweep)
    requires x.pd.init_id < |s.target|
    ensures
      var k := Measure(policy, wnd, r, unc, x, s).kept;
      k == s.kept || (|k| == |s.kept| + 1 && s.kept <= k && k[|s.kept|].id == x.id)
  {
  }

  lemma {:induction false} MeasureAllInTurn(
    policy: Policy, wnd: int, rs: int -> Reading, unc: U64, pre: seq<Prog>, todo: seq<Prog>, s: Sweep, t: Times,
        lo: int, hi: int)
    requires Slotted(todo, |s.target|) && InTurn(pre + s.kept + todo, t, lo, hi)
    ensures InTurn(pre + MeasureAll(policy, wnd, rs, unc, todo, s).kept, t, lo, hi)
    ensures |MeasureAll(policy, wnd, rs, unc, todo, s).kept| <= |s.kept| + |todo|
    decreases |todo|
  {
    hide Measure, InTurn;
    if todo == [] {
      assert pre + s.kept + todo == pre + s.kept;
    } else {
      assert todo == [todo[0]] + todo[1..];
      MeasureInTurn(policy, wnd, rs(todo[0].id), unc, pre, todo[0], todo[1..], s, t, lo, hi);
      MeasureKeeps(policy, wnd, rs(todo[0].id), unc, todo[0], s);
      MeasureAllInTurn(policy, wnd, rs, unc, pre, todo[1..], Measure(policy, wnd, rs(todo[0].id), unc, todo[0], s), t,
                       lo, hi);
    }
  }

  /** A waiting time is measured correctly exactly when it fits in an `int`: less than 2^31 milliseconds. */
  lemma WaitingIs(pd: ProgData, since: int, wait: int)
    requires pd.tm_wstart == AsU32(since) && since <= wait
    ensures Waiting(pd, wait).waiting_time == wait - since <==> wait - since < 0x8000_0000
  {
  }

  /** How long each program of a list has been waiting is what the list says. */
  ghost predicate Waited(all: seq<Prog>, line: seq<Place>, wait: Times) {
    |line| == |all| && forall i :: 0 <= i < |all| ==> all[i].pd.waiting_time == wait(all[i].id) - line[i].since
  }

  lemma NotTooLong(line: seq<Place>, i: nat, b: int, z: Bounds)
    requires i < |line| && Reaches(line, i, b, z) && |line| <= z.n
    ensures b - z.n * z.d <= line[i].since
  {
    var r := line[i].reach;
    assert z.n * z.d == (z.n + 1 - r) * z.d + (r - 1) * z.d;
    Never(r - 1, z.d);
  }

  lemma AssessedLined(all: seq<Prog>, line: seq<Place>, c: int, b: int, z: Bounds, monitoring: bool, wait: Times,
                      lo: int, hi: int, unh: U64)
    requires Lined(all, line, c, b, z) && |all| <= z.n && (z.n + 1) * z.d < 0x8000_0000
    requires InTurn(all, wait, lo, hi) && c <= lo && hi <= b + z.d
    ensures
      var f := AssessedAll(PERF, monitoring, all, wait, unh);
      Lined(f, line, c, b, z) && Waited(f, line, wait) && InTurn(f, wait, lo, hi)
  {
    hide AsU32, Waiting, Reaches;
    var f := AssessedAll(PERF, monitoring, all, wait, unh);
    forall i | 0 <= i < |all|
      ensures f[i].id == all[i].id && f[i].pd.waiting_time == wait(all[i].id) - line[i].since
      ensures Since(f[i], line[i].since)
    {
      NotTooLong(line, i, b, z);
      assert (z.n + 1) * z.d == z.n * z.d + z.d;
      WaitingIs(all[i].pd, line[i].since, wait(all[i].id));
      AssessedPerf(monitoring, all[i].pd, wait(all[i].id), unh);
    }
  }

  lemma AssessedPerf(monitoring: bool, pd: ProgData, wait: int, unh: U64)
    ensures
      var a := Assessed(PERF, monitoring, pd, wait, unh);
      a.waiting_time == Waiting(pd, wait).waiting_time && a.run_status == pd.run_status && a.tm_wstart == pd.tm_wstart
  {
  }

  /** When a quantum ends: programs stop up to `open`, waiting times are taken up to `close`, all is over at `done`. */
  datatype Window = Window(open: int, close: int, done: int)

  /**
   * What is known between two quanta, `c` being the last reading of the clock and `b` that of the last waiting time.
   */
  ghost predicate Orderly(q: State, line: seq<Place>, c: int, b: int, z: Bounds) {
    Lined(q.all, line, c, b, z) && Running(q.sch) && b <= c && z.s <= z.d
  }

  /** The readings at the end of a quantum: in list order, spread over at most `z.s`, and not too early nor too late. */
  ghost predicate Prompt(q: State, t: Tick, v: Window, c: int, b: int, z: Bounds) {
    && c <= v.open <= v.close <= v.done
    && b + z.s <= v.open && v.close <= v.open + z.s && v.close <= b + z.d
    && InTurn(q.sch, t.stop, Low(c, b, z), v.open)
    && InTurn(q.all + q.sch, t.wait, v.open, v.close)
  }

  /** No program stops earlier than this. */
  function Low(c: int, b: int, z: Bounds): int {
    if b + z.s <= c then c else b + z.s
  }

  function Kept(q: State, t: Tick): seq<Prog>
    requires Slotted(q.sch, |q.target|)
  {
    Swept(PERF, q, t.stop, t.rs, t.unc).kept
  }

  /** The places after freezing. */
  function FrozenLine(q: State, t: Tick, line: seq<Place>, c: int, b: int, z: Bounds): seq<Place>
    requires Slotted(q.sch, |q.target|)
  {
    Joined(line, Stops(Kept(q, t), t.stop), Low(c, b, z), z.s)
  }

  function Stops(kept: seq<Prog>, stop: Times): (r: seq<int>)
    ensures |r| == |kept| && forall i :: 0 <= i < |kept| ==> r[i] == stop(kept[i].id)
  {
    seq(|kept|, i requires 0 <= i < |kept| => stop(kept[i].id))
  }

  lemma FrozenInTurn(s: seq<Prog>, pre: seq<Prog>, stop: Times, t: Times, lo: int, hi: int)
    requires InTurn(pre + s, t, lo, hi)
    ensures InTurn(pre + [] + FrozenAll(s, stop), t, lo, hi)
  {
    var r := pre + [] + FrozenAll(s, stop);
    assert forall i :: 0 <= i < |r| ==> r[i].id == (pre + s)[i].id;
  }

  /** The programs that are kept have stopped in order, and their readings are in order after those of the others. */
  lemma KeptInTurn(q: State, t: Tick, v: Window, c: int, b: int, z: Bounds)
    requires Slotted(q.sch, |q.target|) && Running(q.sch) && Prompt(q, t, v, c, b, z)
    ensures News(Kept(q, t), Stops(Kept(q, t), t.stop), Low(c, b, z), v.open)
    ensures InTurn(q.all + Kept(q, t), t.wait, v.open, v.close) && |Kept(q, t)| <= |q.sch|
  {
    hide Since, MeasureAll, InTurn, Frozen;
    var todo := FrozenAll(q.sch, t.stop);
    var s := Sweep([], q.target, q.nr, 0, q.collected);
    FrozenSlotted(q.sch, |q.target|, t.stop);
    FrozenHalted(q.sch, t.stop);
    MeasureAllHalts(PERF, q.wnd, t.rs, t.unc, todo, s, t.stop);
    assert [] + q.sch == q.sch;
    FrozenInTurn(q.sch, [], t.stop, t.stop, Low(c, b, z), v.open);
    FrozenInTurn(q.sch, q.all, t.stop, t.wait, v.open, v.close);
    MeasureAllInTurn(PERF, q.wnd, t.rs, t.unc, [], todo, s, t.stop, Low(c, b, z), v.open);
    MeasureAllInTurn(PERF, q.wnd, t.rs, t.unc, q.all, todo, s, t.wait, v.open, v.close);
    assert [] + Kept(q, t) == Kept(q, t);
    IsNews(Kept(q, t), t.stop, Low(c, b, z), v.open);
  }

  lemma IsNews(kept: seq<Prog>, stop: Times, lo: int, hi: int)
    requires Halted(kept, stop) && InTurn(kept, stop, lo, hi)
    ensures News(kept, Stops(kept, stop), lo, hi)
  {
    hide Since;
  }

  /** The state after freezing: the list is still in order, and the waiting times are exact. */
  lemma FreezeLined(q: State, t: Tick, v: Window, line: seq<Place>, c: int, b: int, z: Bounds)
    requires Orderly(q, line, c, b, z) && Slotted(q.sch, |q.target|) && |q.all| + |q.sch| <= z.n
    requires Prompt(q, t, v, c, b, z) && (z.n + 1) * z.d < 0x8000_0000
    ensures
      var f := Freeze(PERF, q, t.stop, t.wait, t.rs, t.unc);
      var fl := FrozenLine(q, t, line, c, b, z);
      && Lined(f.all, fl, v.open, b, z) && Waited(f.all, fl, t.wait) && InTurn(f.all, t.wait, v.open, v.close)
      && |f.all| <= z.n && |f.all| >= |q.all| && Ids(f.all) == Ids(q.all + Kept(q, t))
  {
    hide Lined, Halted, Since, Assessed, MeasureAll, Waited, Frozen, InTurn, News, Running;
    var kept := Kept(q, t);
    KeptInTurn(q, t, v, c, b, z);
    JoinLined(q.all, line, kept, Stops(kept, t.stop), Low(c, b, z), c, v.open, b, z);
    var s := Swept(PERF, q, t.stop, t.rs, t.unc);
    AssessedLined(q.all + kept, FrozenLine(q, t, line, c, b, z), v.open, b, z, q.wnd <= s.nr, t.wait, v.open, v.close,
                  s.unh);
  }

  // ---------- selecting ----------

  /** The program that has waited longest is in reach of all others. */
  lemma ChosenInReach(all: seq<Prog>, line: seq<Place>, c: int, b: int, z: Bounds, wait: Times, lo: int, hi: int,
                      i: nat)
    requires Lined(all, line, c, b, z) && Waited(all, line, wait) && InTurn(all, wait, lo, hi) && hi <= lo + z.s
    requires i < |all|
    ensures PerfSpec.Longest(all) < line[i].reach
  {
    hide Since;
    var k := PerfSpec.Longest(all);
    assert Reaches(line, i, b, z);
  }

  /** The places of the programs that `select` leaves waiting. */
  function SelectLine(all: seq<Prog>, line: seq<Place>, sch: seq<Prog>, bw: int): seq<Place>
    requires |line| == |all|
    decreases |all|
  {
    if |sch| >= MAX_CORES || all == [] then line
    else
      var k := PerfSpec.Next(all, sch, bw);
      SelectLine(Without(all, k), Cut(line, k), sch + [all[k]], Spend(bw, all[k].pd.sum_mem_reads))
  }

  lemma {:induction false} SelectLined(all: seq<Prog>, line: seq<Place>, sch: seq<Prog>, bw: int, c: int, b: int,
                                       z: Bounds)
    requires Lined(all, line, c, b, z)
    ensures Lined(PerfSpec.Select(all, sch, bw).0, SelectLine(all, line, sch, bw), c, b, z)
    decreases |all|
  {
    hide Since, Reaches, Cut;
    if |sch| < MAX_CORES && all != [] {
      var k := PerfSpec.Next(all, sch, bw);
      CutLined(all, line, k, c, b, z);
      SelectLined(Without(all, k), Cut(line, k), sch + [all[k]], Spend(bw, all[k].pd.sum_mem_reads), c, b, z);
    }
  }

  ghost predicate Scheduled(q: State, id: int) {
    OnList(q.sch, id)
  }

  ghost predicate OnList(s: seq<Prog>, id: int) {
    exists j :: 0 <= j < |s| && s[j].id == id
  }

  /** The program waits since `since`, and at most `r` programs, itself included, may still run before others. */
  ghost predicate Waits(all: seq<Prog>, line: seq<Place>, id: int, since: int, r: int) {
    |line| == |all| && exists i :: 0 <= i < |all| && all[i].id == id && line[i].since == since && line[i].reach <= r
  }

  lemma CutWaits(all: seq<Prog>, line: seq<Place>, k: nat, i: nat)
    requires |line| == |all| && k < |all| && i < |all| && i != k
    ensures var h := New(k, i);
            && 0 <= h < |all| - 1 == |Without(all, k)| && Without(all, k)[h] == all[i]
            && Cut(line, k)[h] == Shorter(line[i], k)
  {
    assert Old(k, New(k, i)) == i;
  }

  lemma {:induction false} SelectWaits(all: seq<Prog>, line: seq<Place>, sch: seq<Prog>, bw: int, i: nat)
    requires |line| == |all| && i < |all|
    ensures
      var (a, s) := PerfSpec.Select(all, sch, bw);
      OnList(s, all[i].id) || Waits(a, SelectLine(all, line, sch, bw), all[i].id, line[i].since, line[i].reach)
    decreases |all|
  {
    hide Cut;
    if |sch| < MAX_CORES && all != [] {
      var k := PerfSpec.Next(all, sch, bw);
      var bw' := Spend(bw, all[k].pd.sum_mem_reads);
      if k == i {
        PerfSpec.Scheduled(Without(all, k), sch + [all[k]], bw', |sch|);
        assert PerfSpec.Select(Without(all, k), sch + [all[k]], bw').1[|sch|].id == all[i].id;
      } else {
        CutWaits(all, line, k, i);
        SelectWaits(Without(all, k), Cut(line, k), sch + [all[k]], bw', New(k, i));
      }
    }
  }

  lemma TurnSelects(f: State, m: State)
    requires Turn(PERF, f, m) && f.wnd > f.nr
    ensures (m.all, m.sch) == PerfSpec.Select(f.all, [], PerfSpec.BW_START)
  {
    hide PerfSpec.Select;
  }

  /** The first program that is scheduled: the head while monitoring, the one that has waited longest otherwise. */
  function First(f: State): (k: nat)
    requires f.all != []
    ensures k < |f.all|
  {
    if f.wnd <= f.nr then 0 else PerfSpec.Longest(f.all)
  }

  /** The places of the programs that still wait after a quantum has begun. */
  function TurnLine(f: State, fl: seq<Place>): seq<Place>
    requires |fl| == |f.all|
  {
    if f.all == [] then []
    else
      var k := First(f);
      if f.wnd <= f.nr then Cut(fl, k)
      else SelectLine(Without(f.all, k), Cut(fl, k), [f.all[k]], Spend(PerfSpec.BW_START, f.all[k].pd.sum_mem_reads))
  }

  lemma FirstInReach(f: State, fl: seq<Place>, c: int, b: int, z: Bounds, wait: Times, lo: int, hi: int)
    requires Lined(f.all, fl, c, b, z) && Waited(f.all, fl, wait) && InTurn(f.all, wait, lo, hi) && hi <= lo + z.s
    requires f.all != []
    ensures forall i :: 0 <= i < |f.all| ==> First(f) < fl[i].reach
  {
    hide Since, Waited, InTurn;
    forall i | 0 <= i < |f.all|
      ensures First(f) < fl[i].reach
    {
      assert Reaches(fl, i, b, z);
      ChosenInReach(f.all, fl, c, b, z, wait, lo, hi, i);
    }
  }

  /** Selecting in two steps: the first program, and the others. */
  lemma SelectFirst(f: State, m: State)
    requires Turn(PERF, f, m) && f.wnd > f.nr && f.all != []
    ensures
      var k := First(f);
      (m.all, m.sch) ==
        PerfSpec.Select(Without(f.all, k), [f.all[k]], Spend(PerfSpec.BW_START, f.all[k].pd.sum_mem_reads))
  {
    hide PerfSpec.Select, PerfSpec.Longest, PerfSpec.Nearest, Spend, Turn;
    SixCores();
    TurnSelects(f, m);
    PerfSpec.SelectStep(f.all, [], PerfSpec.BW_START);
    assert [] + [f.all[First(f)]] == [f.all[First(f)]];
  }

  lemma MonitorFirst(f: State, m: State)
    requires Turn(PERF, f, m) && f.wnd <= f.nr
    ensures f.all != [] && First(f) == 0 && m.all == Without(f.all, 0) && m.sch == [f.all[0]]
  {
  }

  lemma TurnLineIs(f: State, fl: seq<Place>)
    requires |fl| == |f.all|
    ensures
      TurnLine(f, fl) ==
        if f.all == [] then []
        else if f.wnd <= f.nr then Cut(fl, 0)
        else SelectLine(Without(f.all, First(f)), Cut(fl, First(f)), [f.all[First(f)]],
                        Spend(PerfSpec.BW_START, f.all[First(f)].pd.sum_mem_reads))
  {
    hide SelectLine, PerfSpec.Longest, Spend;
  }

  /** A quantum keeps the order of the list, and moves it on by its length. */
  lemma TurnLined(f: State, m: State, fl: seq<Place>, c: int, b: int, z: Bounds, wait: Times, lo: int, hi: int)
    requires Turn(PERF, f, m) && Lined(f.all, fl, c, b, z) && Waited(f.all, fl, wait)
    requires InTurn(f.all, wait, lo, hi) && hi <= lo + z.s
    ensures Lined(m.all, TurnLine(f, fl), c, b + z.d, z)
  {
    hide *;
    LinedSize(f.all, fl, c, b, z);
    TurnLineIs(f, fl);
    if f.all == [] {
      NoneLeft(f, m);
      NoneLined(c, b + z.d, z);
    } else {
      var k := First(f);
      FirstInReach(f, fl, c, b, z, wait, lo, hi);
      ChosenLined(f.all, fl, k, c, b, z);
      if f.wnd <= f.nr {
        MonitorFirst(f, m);
      } else {
        SelectFirst(f, m);
        SelectLined(Without(f.all, k), Cut(fl, k), [f.all[k]],
                    Spend(PerfSpec.BW_START, f.all[k].pd.sum_mem_reads), c, b + z.d, z);
      }
    }
  }

  lemma LinedSize(all: seq<Prog>, line: seq<Place>, c: int, b: int, z: Bounds)
    requires Lined(all, line, c, b, z)
    ensures |line| == |all|
  {
  }

  lemma NoneLined(c: int, b: int, z: Bounds)
    ensures Lined([], [], c, b, z)
  {
  }

  lemma NoneLeft(f: State, m: State)
    requires Turn(PERF, f, m) && f.all == []
    ensures m.all == []
  {
    hide PerfSpec.Select;
    TurnSelects(f, m);
    PerfSpec.SelectStep([], [], PerfSpec.BW_START);
  }

  /** In each quantum a program is scheduled or one program fewer may still run before others that have it in reach. */
  lemma TurnWaits(f: State, m: State, fl: seq<Place>, c: int, b: int, z: Bounds, wait: Times, lo: int, hi: int, i: nat)
    requires Turn(PERF, f, m) && Lined(f.all, fl, c, b, z) && Waited(f.all, fl, wait)
    requires InTurn(f.all, wait, lo, hi) && hi <= lo + z.s && i < |f.all|
    ensures Scheduled(m, f.all[i].id) || Waits(m.all, TurnLine(f, fl), f.all[i].id, fl[i].since, fl[i].reach - 1)
  {
    hide *;
    LinedSize(f.all, fl, c, b, z);
    TurnLineIs(f, fl);
    var k := First(f);
    FirstInReach(f, fl, c, b, z, wait, lo, hi);
    var bw := Spend(PerfSpec.BW_START, f.all[k].pd.sum_mem_reads);
    if f.wnd <= f.nr {
      MonitorFirst(f, m);
    } else {
      SelectFirst(f, m);
    }
    if i == k {
      if f.wnd > f.nr { PerfSpec.Scheduled(Without(f.all, k), [f.all[k]], bw, 0); }
      OnListAt(m, 0);
    } else {
      CutWaits(f.all, fl, k, i);
      IsShorter(fl[i], k);
      if f.wnd <= f.nr {
        IsWaiting(m.all, Cut(fl, k), New(k, i), fl[i].reach - 1);
      } else {
        SelectWaits(Without(f.all, k), Cut(fl, k), [f.all[k]], bw, New(k, i));
        AsScheduled(m, f.all[i].id);
      }
    }
  }

  lemma AsScheduled(q: State, id: int)
    ensures Scheduled(q, id) <==> OnList(q.sch, id)
  {
  }

  lemma OnListAt(q: State, j: nat)
    requires j < |q.sch|
    ensures Scheduled(q, q.sch[j].id)
  {
  }

  lemma IsShorter(p: Place, k: nat)
    requires k < p.reach
    ensures Shorter(p, k) == Place(p.since, p.reach - 1)
  {
  }

  lemma IsWaiting(all: seq<Prog>, line: seq<Place>, i: nat, r: int)
    requires i < |all| == |line| && line[i].reach <= r
    ensures Waits(all, line, all[i].id, line[i].since, r)
  {
  }

  // ---------- one step ----------

  /** The places after a step. */
  ghost function StepLine(w: World, e: Event, line: seq<Place>, c: int, b: int, z: Bounds): seq<Place>
    requires |line| == |w.q.all|
  {
    match e
    case Expiry(t) =>
      if Slotted(w.q.sch, |w.q.target|) then
        TurnLine(Freeze(PERF, w.q, t.stop, t.wait, t.rs, t.unc), FrozenLine(w.q, t, line, c, b, z))
      else []
    case Start(_, _, now) => Joined(line, [now], now, z.s)
    case Finish(scheduled, k, _, _) => if !scheduled && k < |line| then Cut(line, k) else line
    case Reaped => line
  }

  /** The clock is read in order, `v` being the readings that bound the step. */
  ghost predicate OnTime(q: State, e: Event, v: Window, c: int, b: int, z: Bounds) {
    match e
    case Expiry(t) => Prompt(q, t, v, c, b, z)
    case Start(_, _, now) => c <= now == v.done
    case Finish(_, _, _, now) => c <= now == v.done
    case Reaped => v.done == c
  }

  function BaseAfter(e: Event, v: Window, b: int): int {
    if e.Expiry? then v.close else b
  }

  lemma Thawing(q: State, now: Times, id: int)
    ensures Running(Thaw(q, now).sch) && Thaw(q, now).all == q.all
    ensures Scheduled(q, id) ==> Scheduled(Thaw(q, now), id)
  {
    hide Updated;
    if Scheduled(q, id) {
      var j :| 0 <= j < |q.sch| && q.sch[j].id == id;
      assert Thaw(q, now).sch[j].id == id;
    }
  }

  lemma PromptBounds(q: State, t: Tick, v: Window, c: int, b: int, z: Bounds)
    requires Prompt(q, t, v, c, b, z)
    ensures c <= v.open <= v.close <= v.done && b + z.s <= v.open && v.close <= v.open + z.s && v.close <= b + z.d
  {
  }

  /** One quantum: the list stays in order, and who has stopped by `open` is listed by then. */
  lemma ExpiryOrderly(w: World, t: Tick, q': State, v: Window, line: seq<Place>, c: int, b: int, z: Bounds)
    requires Orderly(w.q, line, c, b, z) && Expires(PERF, w.q, t, q') && Prompt(w.q, t, v, c, b, z)
    requires |w.q.all| + |w.q.sch| <= z.n && (z.n + 1) * z.d < 0x8000_0000
    ensures |line| == |w.q.all|
    ensures
      var l := StepLine(w, Expiry(t), line, c, b, z);
      Orderly(q', l, v.done, v.close, z) && Lined(q'.all, l, v.open, v.close, z)
  {
    hide Lined, Running, Freeze, Turn, Waited, InTurn, TurnLine, FrozenLine, Prompt, StepLine, Thaw, Orderly;
    OrderlyIs(w.q, line, c, b, z);
    LinedSize(w.q.all, line, c, b, z);
    PromptBounds(w.q, t, v, c, b, z);
    StepLineIs(w, t, line, c, b, z);
    var f := Freeze(PERF, w.q, t.stop, t.wait, t.rs, t.unc);
    var fl := FrozenLine(w.q, t, line, c, b, z);
    FreezeLined(w.q, t, v, line, c, b, z);
    LinedSize(f.all, fl, v.open, b, z);
    var m :| Turn(PERF, f, m) && q' == Thaw(m, t.thaw);
    TurnLined(f, m, fl, v.open, b, z, t.wait, v.open, v.close);
    Thawing(m, t.thaw, 0);
    Later(m.all, TurnLine(f, fl), v.open, b + z.d, v.open, v.close, z);
    Later(m.all, TurnLine(f, fl), v.open, v.close, v.done, v.close, z);
    OrderlyIs(q', TurnLine(f, fl), v.done, v.close, z);
  }

  lemma OrderlyIs(q: State, line: seq<Place>, c: int, b: int, z: Bounds)
    ensures Orderly(q, line, c, b, z) <==> Lined(q.all, line, c, b, z) && Running(q.sch) && b <= c && z.s <= z.d
  {
  }

  lemma StepLineIs(w: World, t: Tick, line: seq<Place>, c: int, b: int, z: Bounds)
    requires |line| == |w.q.all| && Slotted(w.q.sch, |w.q.target|)
    ensures
      var f := Freeze(PERF, w.q, t.stop, t.wait, t.rs, t.unc);
      var fl := FrozenLine(w.q, t, line, c, b, z);
      |fl| == |f.all| && StepLine(w, Expiry(t), line, c, b, z) == TurnLine(f, fl)
  {
    hide TurnLine, MeasureAll, Assessed, Frozen;
  }

  lemma FrozenWaits(q: State, t: Tick, v: Window, line: seq<Place>, c: int, b: int, z: Bounds, i: nat)
    requires Orderly(q, line, c, b, z) && Slotted(q.sch, |q.target|) && |q.all| + |q.sch| <= z.n
    requires Prompt(q, t, v, c, b, z) && (z.n + 1) * z.d < 0x8000_0000 && i < |q.all|
    ensures |line| == |q.all|
    ensures
      var f := Freeze(PERF, q, t.stop, t.wait, t.rs, t.unc);
      var fl := FrozenLine(q, t, line, c, b, z);
      && |fl| == |f.all| && i < |f.all| && f.all[i].id == q.all[i].id && fl[i].since == line[i].since
      && fl[i].reach <= if line[i].since + z.s <= Low(c, b, z) then line[i].reach else z.n
  {
    hide Lined, Waited, InTurn, Running, Assessed, MeasureAll, Kept;
    LinedSize(q.all, line, c, b, z);
    FreezeLined(q, t, v, line, c, b, z);
    var f := Freeze(PERF, q, t.stop, t.wait, t.rs, t.unc);
    LinedSize(f.all, FrozenLine(q, t, line, c, b, z), v.open, b, z);
    assert Ids(f.all)[i] == Ids(q.all + Kept(q, t))[i];
  }

  /** In one quantum a waiting program is scheduled, or comes nearer; its reach has grown only if it was not settled. */
  lemma ExpiryWaits(w: World, t: Tick, q': State, v: Window, line: seq<Place>, c: int, b: int, z: Bounds, id: int,
                    since: int, r: int)
    requires Orderly(w.q, line, c, b, z) && Expires(PERF, w.q, t, q') && Prompt(w.q, t, v, c, b, z)
    requires |w.q.all| + |w.q.sch| <= z.n && (z.n + 1) * z.d < 0x8000_0000
    requires Waits(w.q.all, line, id, since, r)
    ensures |line| == |w.q.all|
    ensures
      var r' := if since + z.s <= c || since <= b then r else z.n;
      Scheduled(q', id) || Waits(q'.all, StepLine(w, Expiry(t), line, c, b, z), id, since, r' - 1)
  {
    hide Lined, Running, Freeze, Turn, Waited, InTurn, TurnLine, FrozenLine, Prompt;
    LinedSize(w.q.all, line, c, b, z);
    PromptBounds(w.q, t, v, c, b, z);
    var i :| 0 <= i < |w.q.all| && w.q.all[i].id == id && line[i].since == since && line[i].reach <= r;
    var f := Freeze(PERF, w.q, t.stop, t.wait, t.rs, t.unc);
    var fl := FrozenLine(w.q, t, line, c, b, z);
    StepLineIs(w, t, line, c, b, z);
    FreezeLined(w.q, t, v, line, c, b, z);
    FrozenWaits(w.q, t, v, line, c, b, z, i);
    var m :| Turn(PERF, f, m) && q' == Thaw(m, t.thaw);
    TurnWaits(f, m, fl, v.open, b, z, t.wait, v.open, v.close, i);
    Thawing(m, t.thaw, id);
  }

  ghost predicate Live(q: State, id: int) {
    OnList(q.all, id) || OnList(q.sch, id)
  }

  ghost predicate Distinct(s: seq<Prog>) {
    forall i, j :: 0 <= i < j < |s| ==> s[i].id != s[j].id
  }

  lemma StartOrderly(w: World, k: nat, junk: ProgData, now: int, line: seq<Place>, c: int, b: int, z: Bounds)
    requires Orderly(w.q, line, c, b, z) && k < |w.waiting| && w.q.target != [] && c <= now && |w.q.all| < z.n
    ensures Orderly(Launched(w, k, junk, now).q, Joined(line, [now], now, z.s), now, b, z)
  {
    hide Running, Lined;
    var x := Added(w.waiting[k], junk, |w.q.target|, now);
    assert News([x], [now], now, now);
    JoinLined(w.q.all, line, [x], [now], now, c, now, b, z);
  }

  lemma StartWaits(w: World, k: nat, junk: ProgData, now: int, line: seq<Place>, c: int, z: Bounds, id: int,
                   since: int, r: int)
    requires k < |w.waiting| && w.q.target != [] && c <= now
    requires |w.q.all| < z.n && Waits(w.q.all, line, id, since, r) && r <= z.n
    ensures Waits(Launched(w, k, junk, now).q.all, Joined(line, [now], now, z.s), id, since,
                  if since + z.s <= c then r else z.n)
  {
    hide Added;
    var i :| 0 <= i < |w.q.all| && w.q.all[i].id == id && line[i].since == since && line[i].reach <= r;
    var a := Launched(w, k, junk, now).q.all;
    assert a[i].id == id;
    assert Joined(line, [now], now, z.s)[i] == Further(line[i], |line| + 1, now, z.s);
  }

  lemma FinishOrderly(policy: Policy, w: World, scheduled: bool, k: nat, r: Reading, now: int,
                      line: seq<Place>, c: int, b: int, z: Bounds)
    requires Orderly(w.q, line, c, b, z) && c <= now
    requires k < |List(w.q, scheduled)| && List(w.q, scheduled)[k].pd.init_id < |w.q.target|
    ensures |line| == |w.q.all|
    ensures Orderly(Finished(policy, w, scheduled, k, r, now).q, if scheduled then line else Cut(line, k), now, b, z)
  {
    hide Ended, HandedOn, Deducted, Lined, Cut;
    LinedSize(w.q.all, line, c, b, z);
    if scheduled {
      Later(w.q.all, line, c, b, now, b, z);
    } else {
      CutLined(w.q.all, line, k, c, b, z);
      Later(Without(w.q.all, k), Cut(line, k), c, b, now, b, z);
    }
  }

  /** A program that waits keeps its reach or loses one of it when another one goes. */
  lemma FinishWaits(policy: Policy, w: World, scheduled: bool, k: nat, r: Reading, now: int, line: seq<Place>, id: int,
                    since: int, m: int)
    requires k < |List(w.q, scheduled)| && List(w.q, scheduled)[k].pd.init_id < |w.q.target|
    requires Distinct(w.q.all + w.q.sch) && Waits(w.q.all, line, id, since, m)
    requires Live(Finished(policy, w, scheduled, k, r, now).q, id)
    ensures Waits(Finished(policy, w, scheduled, k, r, now).q.all,
                  if scheduled then line else Cut(line, k), id, since, m)
  {
    hide Ended, HandedOn, Deducted, Cut, Distinct;
    var i :| 0 <= i < |w.q.all| && w.q.all[i].id == id && line[i].since == since && line[i].reach <= m;
    if scheduled {
      IsWaiting(w.q.all, line, i, m);
    } else {
      Removed(w.q.all, w.q.sch, k);
      assert i != k;
      CutWaits(w.q.all, line, k, i);
      IsWaiting(Without(w.q.all, k), Cut(line, k), New(k, i), m);
    }
  }

  lemma Removed(all: seq<Prog>, sch: seq<Prog>, k: nat)
    requires Distinct(all + sch) && k < |all|
    ensures forall a :: 0 <= a < |sch| ==> sch[a].id != all[k].id
    ensures forall a :: 0 <= a < |all| - 1 ==> Without(all, k)[a].id != all[k].id
  {
    var s := all + sch;
    forall a | 0 <= a < |sch|
      ensures sch[a].id != all[k].id
    {
      assert s[k].id != s[|all| + a].id;
    }
    forall a | 0 <= a < |all| - 1
      ensures Without(all, k)[a].id != all[k].id
    {
      var h := if a < k then a else a + 1;
      assert s[h] == Without(all, k)[a] && s[k] == all[k] && (h < k || k < h);
    }
  }

  lemma StepOrderly(w: World, e: Event, w': World, v: Window, line: seq<Place>, c: int, b: int, z: Bounds)
    requires Step(PERF, w, e, w') && OnTime(w.q, e, v, c, b, z) && Orderly(w.q, line, c, b, z)
    requires |w.q.all| + |w.q.sch| <= z.n && |w'.q.all| + |w'.q.sch| <= z.n && (z.n + 1) * z.d < 0x8000_0000
    ensures |line| == |w.q.all|
    ensures Orderly(w'.q, StepLine(w, e, line, c, b, z), v.done, BaseAfter(e, v, b), z)
    ensures e.Expiry? ==> Lined(w'.q.all, StepLine(w, e, line, c, b, z), v.open, v.close, z) && v.open <= v.close
  {
    hide Expires, Finished, Launched, Lined, Running, Prompt, TurnLine, FrozenLine, Freeze;
    LinedSize(w.q.all, line, c, b, z);
    match e
    case Expiry(t) =>
      ExpiryOrderly(w, t, w'.q, v, line, c, b, z);
      PromptBounds(w.q, t, v, c, b, z);
    case Start(k, junk, now) =>
      LaunchedSize(w, k, junk, now);
      StartOrderly(w, k, junk, now, line, c, b, z);
    case Finish(scheduled, k, r, now) => FinishOrderly(PERF, w, scheduled, k, r, now, line, c, b, z);
    case Reaped =>
  }

  lemma LaunchedSize(w: World, k: nat, junk: ProgData, now: int)
    requires k < |w.waiting| && w.q.target != []
    ensures |Launched(w, k, junk, now).q.all| == |w.q.all| + 1
  {
  }

  lemma StepWaits(w: World, e: Event, w': World, v: Window, line: seq<Place>, c: int, b: int, z: Bounds, id: int,
                  since: int, r: int)
    requires Step(PERF, w, e, w') && OnTime(w.q, e, v, c, b, z) && Orderly(w.q, line, c, b, z)
    requires |w.q.all| + |w.q.sch| <= z.n && |w'.q.all| + |w'.q.sch| <= z.n && (z.n + 1) * z.d < 0x8000_0000
    requires Waits(w.q.all, line, id, since, r) && r <= z.n && Distinct(w.q.all + w.q.sch) && Live(w'.q, id)
    ensures |line| == |w.q.all| && c <= v.done
    ensures
      var l := StepLine(w, e, line, c, b, z);
      if e.Expiry? then
        Scheduled(w'.q, id) || Waits(w'.q.all, l, id, since, (if since + z.s <= c || since <= b then r else z.n) - 1)
      else Waits(w'.q.all, l, id, since, if since + z.s <= c then r else z.n)
  {
    hide Expires, Finished, Launched, Lined, Running, Prompt, TurnLine, FrozenLine, Freeze, Waits, Live, Distinct,
        Scheduled;
    LinedSize(w.q.all, line, c, b, z);
    match e
    case Expiry(t) =>
      ExpiryWaits(w, t, w'.q, v, line, c, b, z, id, since, r);
      PromptBounds(w.q, t, v, c, b, z);
    case Start(k, junk, now) =>
      LaunchedSize(w, k, junk, now);
      StartWaits(w, k, junk, now, line, c, z, id, since, r);
    case Finish(scheduled, k, x, now) =>
      FinishWaits(PERF, w, scheduled, k, x, now, line, id, since, r);
      Weaker(w'.q.all, StepLine(w, e, line, c, b, z), id, since, r, z.n);
    case Reaped =>
      SameLists(w.q, w'.q, line, id, since, r);
      Weaker(w'.q.all, line, id, since, r, z.n);
  }

  lemma Weaker(all: seq<Prog>, line: seq<Place>, id: int, since: int, r: int, r': int)
    requires Waits(all, line, id, since, r) && r <= r'
    ensures Waits(all, line, id, since, r')
  {
  }

  lemma SameLists(q: State, q': State, line: seq<Place>, id: int, since: int, r: int)
    requires q'.all == q.all && Waits(q.all, line, id, since, r)
    ensures Waits(q'.all, line, id, since, r)
  {
  }

  // ---------- whole runs ----------

  /** A run with the readings that bound its steps; the first reading of all is `first`. */
  datatype Course = Course(ws: seq<World>, es: seq<Event>, vs: seq<Window>, first: int)

  function Clock(h: Course, k: nat): int
    requires k <= |h.vs|
  {
    if k == 0 then h.first else h.vs[k - 1].done
  }

  function Base(h: Course, k: nat): int
    requires k <= |h.vs| <= |h.es|
  {
    if k == 0 then h.first else BaseAfter(h.es[k - 1], h.vs[k - 1], Base(h, k - 1))
  }

  /** The places when `k` steps have been taken. */
  ghost function LineAt(h: Course, k: nat, z: Bounds): seq<Place>
    requires k <= |h.vs| <= |h.es| && |h.es| < |h.ws|
  {
    if k == 0 then []
    else
      var line := LineAt(h, k - 1, z);
      if |line| != |h.ws[k - 1].q.all| then []
      else StepLine(h.ws[k - 1], h.es[k - 1], line, Clock(h, k - 1), Base(h, k - 1), z)
  }

  /**
   * A run of the scheduler under `perf` in which readings are in order, no quantum takes longer than `z.d`, the
   * readings of one loop differ by at most `z.s`, which no quantum is shorter than, and at most `z.n` programs are
   * listed.
   */
  ghost predicate Bounded(h: Course, start: seq<int>, z: Bounds) {
    && History(PERF, h.ws, h.es) && Begin(h.ws[0], start) && |h.vs| == |h.es|
    && (forall k :: 0 <= k < |h.es| ==> OnTime(h.ws[k].q, h.es[k], h.vs[k], Clock(h, k), Base(h, k), z))
    && (forall k :: 0 <= k < |h.ws| ==> |h.ws[k].q.all| + |h.ws[k].q.sch| <= z.n)
    && z.s <= z.d && (z.n + 1) * z.d < 0x8000_0000
  }

  lemma BoundedAt(h: Course, start: seq<int>, z: Bounds, k: nat)
    requires Bounded(h, start, z) && k <= |h.es|
    ensures |h.ws| == |h.es| + 1 == |h.vs| + 1 && History(PERF, h.ws, h.es) && Begin(h.ws[0], start)
    ensures |h.ws[k].q.all| + |h.ws[k].q.sch| <= z.n && z.s <= z.d && (z.n + 1) * z.d < 0x8000_0000
    ensures k < |h.es| ==>
              && Step(PERF, h.ws[k], h.es[k], h.ws[k + 1]) && |h.ws[k + 1].q.all| + |h.ws[k + 1].q.sch| <= z.n
              && OnTime(h.ws[k].q, h.es[k], h.vs[k], Clock(h, k), Base(h, k), z)
  {
    hide Step, OnTime, Begin;
  }

  lemma {:induction false} CourseOrderly(h: Course, start: seq<int>, z: Bounds, k: nat)
    requires Bounded(h, start, z) && k <= |h.es|
    ensures |h.ws| == |h.es| + 1 == |h.vs| + 1
    ensures Orderly(h.ws[k].q, LineAt(h, k, z), Clock(h, k), Base(h, k), z)
    ensures k > 0 && h.es[k - 1].Expiry? ==> Lined(h.ws[k].q.all, LineAt(h, k, z), Base(h, k), Base(h, k), z)
  {
    hide Bounded, Step, Orderly, OnTime, Begin, Lined, StepLine;
    BoundedAt(h, start, z, k);
    if k == 0 {
      BeginOrderly(h.ws[0], start, h.first, z);
    } else {
      BoundedAt(h, start, z, k - 1);
      CourseOrderly(h, start, z, k - 1);
      var line := LineAt(h, k - 1, z);
      StepOrderly(h.ws[k - 1], h.es[k - 1], h.ws[k], h.vs[k - 1], line, Clock(h, k - 1), Base(h, k - 1), z);
      if h.es[k - 1].Expiry? {
        Later(h.ws[k].q.all, LineAt(h, k, z), h.vs[k - 1].open, h.vs[k - 1].close, h.vs[k - 1].close,
              h.vs[k - 1].close, z);
      }
    }
  }

  lemma BeginOrderly(w: World, start: seq<int>, c: int, z: Bounds)
    requires Begin(w, start) && z.s <= z.d
    ensures Orderly(w.q, [], c, c, z)
  {
  }

  function Expiries(es: seq<Event>): nat {
    if es == [] then 0 else (if es[0].Expiry? then 1 else 0) + Expiries(es[1..])
  }

  lemma DistinctIds(ws: seq<World>, es: seq<Event>, start: seq<int>, k: nat)
    requires History(PERF, ws, es) && Begin(ws[0], start) && k <= |es|
    ensures Distinct(ws[k].q.all + ws[k].q.sch)
  {
    hide History, Begin, Slot;
    IdsAreFresh(PERF, ws, es, start, k);
  }

  /** What one step of a run does to a program that waits and stays. */
  lemma CourseWaits(h: Course, start: seq<int>, z: Bounds, k: nat, id: int, since: int, r: int)
    requires Bounded(h, start, z) && k < |h.es| && |h.ws| == |h.es| + 1 == |h.vs| + 1
    requires Waits(h.ws[k].q.all, LineAt(h, k, z), id, since, r) && r <= z.n && Live(h.ws[k + 1].q, id)
    ensures Clock(h, k) <= Clock(h, k + 1)
    ensures
      var l := LineAt(h, k + 1, z);
      if h.es[k].Expiry? then
        || Scheduled(h.ws[k + 1].q, id)
        || Waits(h.ws[k + 1].q.all, l, id, since,
                 (if since + z.s <= Clock(h, k) || since <= Base(h, k) then r else z.n) - 1)
      else Waits(h.ws[k + 1].q.all, l, id, since, if since + z.s <= Clock(h, k) then r else z.n)
  {
    hide Bounded, Step, Orderly, OnTime, Begin, Waits, Live, Scheduled, StepLine;
    BoundedAt(h, start, z, k);
    CourseOrderly(h, start, z, k);
    DistinctIds(h.ws, h.es, start, k);
    StepWaits(h.ws[k], h.es[k], h.ws[k + 1], h.vs[k], LineAt(h, k, z), Clock(h, k), Base(h, k), z, id, since, r);
  }

  lemma InReach(h: Course, start: seq<int>, z: Bounds, k: nat, id: int, since: int, r: int)
    requires Bounded(h, start, z) && k <= |h.es| && |h.ws| == |h.es| + 1 == |h.vs| + 1
    requires Waits(h.ws[k].q.all, LineAt(h, k, z), id, since, r)
    ensures since <= Clock(h, k) && r >= 1 && Waits(h.ws[k].q.all, LineAt(h, k, z), id, since, |h.ws[k].q.all|)
    ensures k > 0 && h.es[k - 1].Expiry? ==> since <= Base(h, k)
  {
    hide Bounded, LineAt;
    CourseOrderly(h, start, z, k);
    var line := LineAt(h, k, z);
    var i :| 0 <= i < |h.ws[k].q.all| && h.ws[k].q.all[i].id == id && line[i].since == since && line[i].reach <= r;
    assert Reaches(line, i, Base(h, k), z);
  }

  /**
   * A program that at most `r` programs, itself included, may run before, runs within `r` quanta. It must be settled:
   * no program that stops or comes from now on may run before it because of the spread of the readings.
   */
  lemma {:induction false} RunsWithin(h: Course, start: seq<int>, z: Bounds, k: nat, m: nat, id: int, since: int,
                                      r: nat)
    returns (j: nat)
    requires Bounded(h, start, z) && k <= m <= |h.es| && |h.ws| == |h.es| + 1 == |h.vs| + 1
    requires forall x :: k <= x <= m ==> Live(h.ws[x].q, id)
    requires Waits(h.ws[k].q.all, LineAt(h, k, z), id, since, r) && since + z.s <= Clock(h, k) && r <= z.n
    requires Expiries(h.es[k..m]) >= r
    ensures k < j <= m && Scheduled(h.ws[j].q, id)
    decreases m - k
  {
    hide Bounded, Waits, Live, Scheduled, LineAt, Clock, Base;
    InReach(h, start, z, k, id, since, r);
    CourseWaits(h, start, z, k, id, since, r);
    assert h.es[k..m][1..] == h.es[k + 1..m];
    if Scheduled(h.ws[k + 1].q, id) {
      j := k + 1;
    } else if h.es[k].Expiry? {
      InReach(h, start, z, k + 1, id, since, r - 1);
      j := RunsWithin(h, start, z, k + 1, m, id, since, r - 1);
    } else {
      j := RunsWithin(h, start, z, k + 1, m, id, since, r);
    }
  }

  /** With one reading for each loop, a program that waits behind `i` others runs within `i + 1` quanta. */
  lemma RunsBehind(h: Course, start: seq<int>, z: Bounds, k: nat, m: nat, id: int, i: nat)
    requires Bounded(h, start, z) && k <= m <= |h.es| && |h.ws| == |h.es| + 1 == |h.vs| + 1 && z.s == 0
    requires forall x :: k <= x <= m ==> Live(h.ws[x].q, id)
    requires i < |h.ws[k].q.all| && h.ws[k].q.all[i].id == id && Expiries(h.es[k..m]) > i
    ensures exists j :: k < j <= m && Scheduled(h.ws[j].q, id)
  {
    hide LineAt, Begin, OnTime, Since, Live, Scheduled;
    CourseOrderly(h, start, z, k);
    var line := LineAt(h, k, z);
    assert Reaches(line, i, Base(h, k), z);
    IsWaiting(h.ws[k].q.all, line, i, i + 1);
    var j := RunsWithin(h, start, z, k, m, id, line[i].since, i + 1);
  }

  /** A program that waited when the last quantum began runs within `z.n` quanta: with the next one it is settled. */
  lemma {:induction false} RunsAfter(h: Course, start: seq<int>, z: Bounds, k: nat, m: nat, id: int, since: int)
    returns (j: nat)
    requires Bounded(h, start, z) && k <= m <= |h.es| && |h.ws| == |h.es| + 1 == |h.vs| + 1
    requires forall x :: k <= x <= m ==> Live(h.ws[x].q, id)
    requires Waits(h.ws[k].q.all, LineAt(h, k, z), id, since, z.n) && since <= Base(h, k)
    requires Expiries(h.es[k..m]) >= z.n > 0
    ensures k < j <= m && Scheduled(h.ws[j].q, id)
    decreases m - k
  {
    hide Bounded, Waits, Live, Scheduled, LineAt, Clock, Base, OnTime;
    CourseWaits(h, start, z, k, id, since, z.n);
    assert h.es[k..m][1..] == h.es[k + 1..m];
    if !h.es[k].Expiry? {
      BaseStays(h, k);
      j := RunsAfter(h, start, z, k + 1, m, id, since);
    } else if Scheduled(h.ws[k + 1].q, id) {
      j := k + 1;
    } else {
      NowSettled(h, start, z, k);
      InReach(h, start, z, k + 1, id, since, z.n - 1);
      j := RunsWithin(h, start, z, k + 1, m, id, since, z.n - 1);
    }
  }

  lemma BaseStays(h: Course, k: nat)
    requires k < |h.es| == |h.vs| && !h.es[k].Expiry?
    ensures Base(h, k + 1) == Base(h, k)
  {
  }

  lemma NowSettled(h: Course, start: seq<int>, z: Bounds, k: nat)
    requires Bounded(h, start, z) && k < |h.es| == |h.vs| && h.es[k].Expiry?
    ensures Base(h, k) + z.s <= Clock(h, k + 1)
  {
    hide InTurn, Step;
    BoundedAt(h, start, z, k);
    PromptBounds(h.ws[k].q, h.es[k].t, h.vs[k], Clock(h, k), Base(h, k), z);
  }

  /** A waiting program has a place. */
  lemma HasPlace(h: Course, start: seq<int>, z: Bounds, k: nat, id: int) returns (since: int)
    requires Bounded(h, start, z) && k <= |h.es| && |h.ws| == |h.es| + 1 == |h.vs| + 1 && OnList(h.ws[k].q.all, id)
    ensures Waits(h.ws[k].q.all, LineAt(h, k, z), id, since, |h.ws[k].q.all|) && |h.ws[k].q.all| <= z.n
  {
    hide LineAt, Begin, OnTime, Since;
    CourseOrderly(h, start, z, k);
    var i :| 0 <= i < |h.ws[k].q.all| && h.ws[k].q.all[i].id == id;
    since := LineAt(h, k, z)[i].since;
    assert Reaches(LineAt(h, k, z), i, Base(h, k), z);
  }

  /** After a quantum has begun, fewer programs wait than are listed. */
  lemma ExpirySchedules(policy: Policy, q: State, t: Tick, q': State)
    requires Expires(policy, q, t, q') && q'.all != []
    ensures q'.sch != []
  {
    hide Freeze, Turn;
    var f := Freeze(policy, q, t.stop, t.wait, t.rs, t.unc);
    var m :| Turn(policy, f, m) && q' == Thaw(m, t.thaw);
    TurnConserves(policy, f, m);
    SixCores();
  }

  lemma SomeRun(h: Course, start: seq<int>, z: Bounds, k: nat)
    requires Bounded(h, start, z) && k < |h.es| && |h.ws| == |h.es| + 1 && h.es[k].Expiry? && h.ws[k + 1].q.all != []
    ensures |h.ws[k + 1].q.all| < z.n
  {
    hide Expires, Bounded, OnTime, Begin;
    BoundedAt(h, start, z, k);
    ExpirySchedules(PERF, h.ws[k].q, h.es[k].t, h.ws[k + 1].q);
  }

  /** How many quanta a program may have to wait: one more if readings of the same loop may differ. */
  function Rounds(z: Bounds): nat {
    if z.s == 0 then z.n else z.n + 1
  }

  /** The program waits, or runs until the next quantum begins. */
  lemma {:induction false} ScheduledInTurn(h: Course, start: seq<int>, z: Bounds, k: nat, m: nat, id: int)
    returns (j: nat)
    requires Bounded(h, start, z) && k <= m <= |h.es| && |h.ws| == |h.es| + 1 == |h.vs| + 1
    requires forall x :: k <= x <= m ==> Live(h.ws[x].q, id)
    requires Expiries(h.es[k..m]) >= Rounds(z) && z.n > 0
    ensures k < j <= m && Scheduled(h.ws[j].q, id)
    decreases m - k
  {
    hide Bounded, Waits, Scheduled, LineAt, Clock, Base, OnTime, OnList;
    if z.s == 0 && OnList(h.ws[k].q.all, id) {
      var since := HasPlace(h, start, z, k, id);
      InReach(h, start, z, k, id, since, |h.ws[k].q.all|);
      j := RunsWithin(h, start, z, k, m, id, since, |h.ws[k].q.all|);
    } else {
      assert h.es[k..m][1..] == h.es[k + 1..m];
      if !h.es[k].Expiry? {
        j := ScheduledInTurn(h, start, z, k + 1, m, id);
      } else if Scheduled(h.ws[k + 1].q, id) {
        j := k + 1;
      } else {
        j := ScheduledNext(h, start, z, k, m, id);
      }
    }
  }

  lemma ScheduledNext(h: Course, start: seq<int>, z: Bounds, k: nat, m: nat, id: int) returns (j: nat)
    requires Bounded(h, start, z) && k < m <= |h.es| && |h.ws| == |h.es| + 1 == |h.vs| + 1 && h.es[k].Expiry?
    requires forall x :: k <= x <= m ==> Live(h.ws[x].q, id)
    requires Expiries(h.es[k + 1..m]) + 1 >= Rounds(z) && z.n > 0 && !Scheduled(h.ws[k + 1].q, id)
    ensures k < j <= m && Scheduled(h.ws[j].q, id)
  {
    hide Bounded, Waits, LineAt, Clock, Base, OnTime, OnList;
    var since := HasPlace(h, start, z, k + 1, id);
    var r := |h.ws[k + 1].q.all|;
    InReach(h, start, z, k + 1, id, since, r);
    SomeRun(h, start, z, k) by { NotNone(h.ws[k + 1].q.all, id); }
    if z.s == 0 {
      j := RunsWithin(h, start, z, k + 1, m, id, since, r);
    } else {
      Weaker(h.ws[k + 1].q.all, LineAt(h, k + 1, z), id, since, r, z.n);
      j := RunsAfter(h, start, z, k + 1, m, id, since);
    }
  }

  lemma NotNone(s: seq<Prog>, id: int)
    requires OnList(s, id)
    ensures s != []
  {
  }

  /**
   * Bounded waiting: with at most `n` programs, in `n` quanta every program that stays has been scheduled, even
   * while programs come and go; in `n + 1` quanta if the readings of one loop may differ. The hypotheses bound
   * the time of a round, so that the 32-bit clocks do not wrap around; they do not bound the number of rounds.
   */
  lemma NoProgramStarves(h: Course, start: seq<int>, z: Bounds, k: nat, m: nat, id: int)
    requires Bounded(h, start, z) && k <= m <= |h.es| && |h.ws| == |h.es| + 1 == |h.vs| + 1
    requires forall x :: k <= x <= m ==> Live(h.ws[x].q, id)
    requires Expiries(h.es[k..m]) >= (if z.s == 0 then z.n else z.n + 1) && z.n > 0
    ensures exists j :: k < j <= m && Scheduled(h.ws[j].q, id)
  {
    hide Bounded, Live, Scheduled;
    var j := ScheduledInTurn(h, start, z, k, m, id);
  }
}
