/** The clocks of a program, src/scheds/common.c: how long it has run and waited, in milliseconds modulo 2^32. */
module Clocks {
  import opened Machine
  import opened Programs

  // ---------- what the clock functions compute ----------

  function Started(pd: ProgData, now: int): ProgData {
    if pd.run_status == RS_RUNNING then pd
    else pd.(
      tm_wstop := AsU32(now),
      tm_rstart := AsU32(now),
      tm_waiting := AsU32(pd.tm_waiting + AsU32(AsU32(now) - pd.tm_wstart)))
  }

  function Stopped(pd: ProgData, now: int): ProgData {
    if pd.run_status == RS_STOPED then pd
    else pd.(
      tm_rstop := AsU32(now),
      tm_wstart := AsU32(now),
      tm_running := AsU32(pd.tm_running + AsU32(AsU32(now) - pd.tm_rstart)))
  }

  function Updated(pd: ProgData, now: int): ProgData {
    Stopped(Started(pd, now), now)
  }

  /** `current - pd->tm_wstart`: the difference is unsigned, and stored in an `int`. */
  function Waiting(pd: ProgData, now: int): ProgData {
    pd.(waiting_time := ToInt(AsU32(now) - pd.tm_wstart))
  }

  function Initial(pd: ProgData, now: int): ProgData {
    pd.(
      tm_wstart := AsU32(now),
      tm_wstop := AsU32(now),
      tm_rstart := AsU32(now),
      tm_rstop := AsU32(now),
      run_status := RS_STOPED,
      tm_running := 0,
      tm_waiting := 0)
  }

  /** A program is thawed: `thaw_sched`. */
  function Thawed(pd: ProgData, now: int): ProgData {
    Updated(pd, now).(run_status := RS_RUNNING)
  }

  /** A program is stopped: the first loop of `freeze_sched`. */
  function Frozen(pd: ProgData, now: int): ProgData {
    Updated(pd, now).(run_status := RS_STOPED)
  }

  // ---------- the functions of the source ----------

  method StartClock(n: Node, now: int)
    modifies n`pd
    ensures n.pd == Started(old(n.pd), now)
  {
    if n.pd.run_status == RS_RUNNING { return; }
    n.pd := n.pd.(tm_wstop := AsU32(now));
    n.pd := n.pd.(tm_rstart := AsU32(now));
    n.pd := n.pd.(tm_waiting := AsU32(n.pd.tm_waiting + AsU32(n.pd.tm_wstop - n.pd.tm_wstart)));
  }

  method StopClock(n: Node, now: int)
    modifies n`pd
    ensures n.pd == Stopped(old(n.pd), now)
  {
    if n.pd.run_status == RS_STOPED { return; }
    n.pd := n.pd.(tm_rstop := AsU32(now));
    n.pd := n.pd.(tm_wstart := AsU32(now));
    n.pd := n.pd.(tm_running := AsU32(n.pd.tm_running + AsU32(n.pd.tm_rstop - n.pd.tm_rstart)));
  }

  method UpdateClock(n: Node, now: int)
    modifies n`pd
    ensures n.pd == Updated(old(n.pd), now)
  {
    StartClock(n, now);
    StopClock(n, now);
  }

  method UpdateWaiting(n: Node, now: int)
    modifies n`pd
    ensures n.pd == Waiting(old(n.pd), now)
  {
    var current := ToInt(now);
    n.pd := n.pd.(waiting_time := ToInt(AsU32(current - n.pd.tm_wstart)));
  }

  method InitClock(n: Node, now: int)
    modifies n`pd
    ensures n.pd == Initial(old(n.pd), now)
  {
    n.pd := n.pd.(tm_wstart := AsU32(now), tm_wstop := AsU32(now));
    n.pd := n.pd.(tm_rstart := AsU32(now), tm_rstop := AsU32(now));
    n.pd := n.pd.(run_status := RS_STOPED, tm_running := 0, tm_waiting := 0);
  }

  // ---------- whole runs ----------

  /** Thaws and freezes in turn at the given times, starting with a thaw of a stopped program. */
  function Run(pd: ProgData, times: seq<int>): (r: ProgData)
  {
    if times == [] then pd
    else
      var before := Run(pd, times[..|times| - 1]);
      var now := times[|times| - 1];
      if before.run_status == RS_STOPED then Thawed(before, now) else Frozen(before, now)
  }

  /** The lengths of every other interval of `t`, from the first (`k` even) or the second (`k` odd) one on. */
  function Intervals(t: seq<int>, k: nat): int
  {
    if |t| <= 1 then 0
    else Intervals(t[..|t| - 1], k) + if |t| % 2 == k % 2 then t[|t| - 1] - t[|t| - 2] else 0
  }

  /** The clock has seen the times `t`: an initialisation and then thaws and freezes in turn. */
  ghost predicate Charged(r: ProgData, t: seq<int>)
    requires |t| >= 1
  {
    && r.tm_waiting == AsU32(Intervals(t, 0)) && r.tm_running == AsU32(Intervals(t, 1))
    && if |t| % 2 == 1 then r.run_status == RS_STOPED && r.tm_wstart == AsU32(t[|t| - 1])
       else r.run_status == RS_RUNNING && r.tm_rstart == AsU32(t[|t| - 1])
  }

  lemma IntervalsGrow(t: seq<int>, now: int, k: nat)
    requires |t| >= 1
    ensures Intervals(t + [now], k) == Intervals(t, k) + if |t| % 2 == k % 2 then 0 else now - t[|t| - 1]
  {
    assert (t + [now])[..|t|] == t;
  }

  lemma ChargedStep(r: ProgData, t: seq<int>, now: int)
    requires |t| >= 1 && Charged(r, t)
    ensures Charged(if r.run_status == RS_STOPED then Thawed(r, now) else Frozen(r, now), t + [now])
  {
    hide AsU32, Intervals;
    IntervalsGrow(t, now, 0);
    IntervalsGrow(t, now, 1);
    AddModulo(Intervals(t, 0), now, t[|t| - 1]);
    AddModulo(Intervals(t, 1), now, t[|t| - 1]);
  }

  /** Every interval is charged once and to the right total, whatever the times. */
  lemma {:induction false} ChargedOnce(pd: ProgData, t: seq<int>)
    requires |t| >= 1
    ensures Charged(Run(Initial(pd, t[0]), t[1..]), t)
    decreases |t|
  {
    if |t| > 1 {
      var s := t[..|t| - 1];
      ChargedOnce(pd, s);
      assert t[1..][..|t| - 2] == s[1..];
      ChargedStep(Run(Initial(pd, s[0]), s[1..]), s, t[|t| - 1]);
      assert s + [t[|t| - 1]] == t;
    } else {
      assert t[1..] == [];
    }
  }

  lemma AddModulo(a: int, x: int, y: int)
    ensures AsU32(AsU32(a) + AsU32(AsU32(x) - AsU32(y))) == AsU32(a + x - y)
  {
    hide AsU32;
    var d := AsU32(x) - AsU32(y);
    PlusModulo(d, AsU32(a));
    PlusModulo(a, d);
    PlusModulo(x, a - AsU32(y));
    MinusModulo(y, a + x);
  }

  lemma PlusModulo(a: int, b: int)
    ensures AsU32(AsU32(a) + b) == AsU32(a + b)
  {
    Multiples(a + b, -(a / TWO_32));
  }

  lemma MinusModulo(a: int, b: int)
    ensures AsU32(b - AsU32(a)) == AsU32(b - a)
  {
    Multiples(b - a, a / TWO_32);
  }

  lemma Multiples(a: int, k: int)
    ensures AsU32(a + k * TWO_32) == AsU32(a)
  {
    assert a + k * TWO_32 == (a / TWO_32 + k) * TWO_32 + a % TWO_32;
  }

  lemma {:induction false} IntervalsAddUp(t: seq<int>)
    requires |t| >= 1
    ensures Intervals(t, 0) + Intervals(t, 1) == t[|t| - 1] - t[0]
  {
    if |t| > 1 {
      IntervalsAddUp(t[..|t| - 1]);
    }
  }

  /** Running and waiting time together are the time since the clock was initialised, modulo 2^32. */
  lemma TimeConserved(pd: ProgData, t: seq<int>)
    requires |t| >= 1
    ensures var r := Run(Initial(pd, t[0]), t[1..]);
            AsU32(r.tm_running + r.tm_waiting) == AsU32(t[|t| - 1] - t[0])
  {
    hide AsU32, Intervals, Run;
    ChargedOnce(pd, t);
    IntervalsAddUp(t);
    AddParts(Intervals(t, 1), Intervals(t, 0));
  }

  lemma AddParts(a: int, b: int)
    ensures AsU32(AsU32(a) + AsU32(b)) == AsU32(a + b)
  {
  }
}
