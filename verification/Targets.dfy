/** How often a program runs under the `linux` policy: its target goes down by one with each run, until none is left. */
module Targets {
  import opened Machine
  import opened Events
  import opened Lifecycle
  import opened Rounds
  import HeapOrder
  import Instances

  /** The slot of the first finished program, if its run counts. */
  ghost predicate Counts(x: Exec, i: nat) {
    && x.pfinished != [] && x.pfinished[0] in x.info && x.times != []
    && x.pfinished[0] !in x.killed && Instances.Slot(x.info[x.pfinished[0]].id, |x.times|) == i
  }

  /**
   * A finished program that has not been killed has run once more. It is started again exactly if its target is not
   * reached, with the id that leads to its slot; otherwise one program fewer is left.
   */
  lemma BuriedMeans(x: Exec, f: Fork, i: nat)
    requires Counts(x, i) && f.evnt !in x.mem && f.prog !in x.info
    ensures
      var y := Buried(x, f);
      && i < |x.times| && |y.times| == |x.times| && y.times == x.times[i := y.times[i]]
      && y.times[i] == x.times[i] - 1.0
      && (if y.times[i] == 0.0 then y.progs_left == x.progs_left - 1 && y.h == x.h && y.waiting_nr == x.waiting_nr
          else
            && y.progs_left == x.progs_left && y.waiting_nr == x.waiting_nr + 1
            && multiset(y.h) == multiset(x.h) + multiset{f.evnt}
            && f.evnt in y.mem && y.mem[f.evnt] == Event(NEWPROG, Timeval(f.now.sec, 0), f.prog)
            && f.prog in y.info && y.info[f.prog] == Info(|x.times| + x.info[x.pfinished[0]].id, f.pid))
      && x.pfinished[0] !in y.info && y.pfinished == x.pfinished[1..]
  {
    hide Instances.Slot, HeapOrder.Push, EventLeq;
    var mem := x.mem[f.evnt := Event(NEWPROG, Timeval(f.now.sec, 0), f.prog)];
    Pushed(mem, x.h, f.evnt);
  }

  lemma Pushed(mem: Memory, h: seq<U64>, a: U64)
    ensures multiset(HeapOrder.Push(EventLeq(mem), h, a)) == multiset(h) + multiset{a}
  {
    hide HeapOrder.Lift;
    HeapOrder.LiftPerm(EventLeq(mem), h + [a], |h|, a);
    assert (h + [a])[|h| := a] == h + [a];
  }

  /** A killed program is dealt with and not started again. */
  lemma BuriedKilled(x: Exec, f: Fork)
    requires x.pfinished != [] && x.pfinished[0] in x.info && x.times != [] && x.pfinished[0] in x.killed
    ensures Buried(x, f) == x.(pfinished := x.pfinished[1..], progs_nr := x.progs_nr - 1,
                               info := x.info - {x.pfinished[0]})
  {
  }

  ghost function Runs(xs: seq<Exec>, ms: seq<Move>, i: nat, k: nat): nat
    requires k <= |ms| < |xs|
  {
    if k == 0 then 0 else Runs(xs, ms, i, k - 1) + if ms[k - 1].Bury? && Counts(xs[k - 1], i) then 1 else 0
  }

  lemma TimesKept(x: Exec, m: Move, qt: Timeval, clock: Timeval, y: Exec, clock': Timeval, i: nat)
    requires Moves(x, m, qt, clock, y, clock') && i < |x.times|
    ensures |y.times| == |x.times|
    ensures y.times[i] == x.times[i] - (if m.Bury? && Counts(x, i) then 1.0 else 0.0)
  {
    hide Instances.Slot, HeapOrder.Push, HeapOrder.PopAt, Normal, Micros, EventLeq, Rescheduled, ForkOk;
    if m.Bury? && x.pfinished[0] in x.killed {
      BuriedKilled(x, m.f);
    }
  }

  /** In every run, what is left of a target and the runs that counted are together what the target was. */
  lemma {:induction false} TimesAddUp(xs: seq<Exec>, ms: seq<Move>, clocks: seq<Timeval>, qt: Timeval, i: nat, k: nat)
    requires Course(xs, ms, clocks, qt) && k <= |ms| && i < |xs[0].times|
    ensures |xs[k].times| == |xs[0].times| && xs[k].times[i] + Runs(xs, ms, i, k) as real == xs[0].times[i]
  {
    hide Moves, Counts;
    if k > 0 {
      TimesAddUp(xs, ms, clocks, qt, i, k - 1);
      assert Moves(xs[k - 1], ms[k - 1], qt, clocks[k - 1], xs[k - 1 + 1], clocks[k - 1 + 1]);
      TimesKept(xs[k - 1], ms[k - 1], qt, clocks[k - 1], xs[k], clocks[k], i);
    }
  }
  /** The next event is the end of a quantum. */
  ghost predicate QuantumDue(x: Exec) {
    x.h != [] && x.h[0] == QT && QT in x.mem && x.mem[QT].kind == QEXPIRED
  }

  /** By how much a step lowers the number of programs that are left. */
  ghost function Fewer(x: Exec, m: Move): nat {
    match m
    case Dispatch(_, kills) => if QuantumDue(x) then |kills| else 0
    case Bury(_) => if exists i: nat :: Counts(x, i) && i < |x.times| && x.times[i] == 1.0 then 1 else 0
    case _ => 0
  }

  ghost function Gone(xs: seq<Exec>, ms: seq<Move>, k: nat): nat
    requires k <= |ms| < |xs|
  {
    if k == 0 then 0 else Gone(xs, ms, k - 1) + Fewer(xs[k - 1], ms[k - 1])
  }

  lemma LeftKept(x: Exec, m: Move, qt: Timeval, clock: Timeval, y: Exec, clock': Timeval)
    requires Moves(x, m, qt, clock, y, clock')
    ensures y.progs_left == x.progs_left - Fewer(x, m)
  {
    hide Instances.Slot, HeapOrder.Push, HeapOrder.PopAt, Normal, Micros, EventLeq;
    if m.Bury? {
      if x.pfinished[0] in x.killed {
        BuriedKilled(x, m.f);
      } else {
        var i := Instances.Slot(x.info[x.pfinished[0]].id, |x.times|);
        assert Counts(x, i);
        BuriedMeans(x, m.f, i);
      }
    }
  }

  /** In every run, one program fewer is left for each that is killed and for each that reaches its target. */
  lemma {:induction false} LeftAddsUp(xs: seq<Exec>, ms: seq<Move>, clocks: seq<Timeval>, qt: Timeval, k: nat)
    requires Course(xs, ms, clocks, qt) && k <= |ms|
    ensures xs[k].progs_left + Gone(xs, ms, k) == xs[0].progs_left
  {
    hide Moves, Fewer;
    if k > 0 {
      LeftAddsUp(xs, ms, clocks, qt, k - 1);
      assert Moves(xs[k - 1], ms[k - 1], qt, clocks[k - 1], xs[k - 1 + 1], clocks[k - 1 + 1]);
      LeftKept(xs[k - 1], ms[k - 1], qt, clocks[k - 1], xs[k], clocks[k]);
    }
  }
  // ---------- who counts as killed ----------

  ghost predicate Starts(x: Exec, m: Move, p: U64) {
    m.Begin? && x.pnew != [] && x.pnew[0] == p
  }

  /** A program is marked when it is killed, and the mark is gone when a program begins at its address. */
  lemma MarkKept(x: Exec, m: Move, qt: Timeval, clock: Timeval, y: Exec, clock': Timeval, p: U64)
    requires Moves(x, m, qt, clock, y, clock')
    ensures p in y.killed <==>
            !Starts(x, m, p) && (p in x.killed || (m.Dispatch? && QuantumDue(x) && p in m.kills))
  {
    hide Instances.Slot, HeapOrder.Push, HeapOrder.PopAt, Normal, Micros, EventLeq, Rescheduled, ForkOk;
  }

  /** In every run a killed program stays marked, so that its end does not count, until its address is used again. */
  lemma {:induction false} KilledStays(xs: seq<Exec>, ms: seq<Move>, clocks: seq<Timeval>, qt: Timeval, j: nat, k: nat,
                                       p: U64)
    requires Course(xs, ms, clocks, qt) && j < k <= |ms|
    requires ms[j].Dispatch? && QuantumDue(xs[j]) && p in ms[j].kills
    requires forall i :: j <= i < k ==> !Starts(xs[i], ms[i], p)
    ensures p in xs[k].killed
    decreases k - j
  {
    hide Moves, Starts, QuantumDue;
    assert Moves(xs[k - 1], ms[k - 1], qt, clocks[k - 1], xs[k - 1 + 1], clocks[k - 1 + 1]);
    MarkKept(xs[k - 1], ms[k - 1], qt, clocks[k - 1], xs[k], clocks[k], p);
    if k > j + 1 {
      KilledStays(xs, ms, clocks, qt, j, k - 1, p);
    }
  }
}
