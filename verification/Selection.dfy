/** `select_ready_events`: all events that are due are handled, in order, and the next one is found. */
module Selection {
  import opened Machine
  import opened Events
  import opened Lifecycle
  import HeapOrder

  predicate Ready(x: Exec, now: Timeval) {
    x.h != [] && x.h[0] in x.mem && !Later(x.mem[x.h[0]].tv, now)
  }

  /** The events with a time not after `now`: every handled one is removed, so this set bounds the loop. */
  ghost function Due(x: Exec, now: Timeval): set<U64> {
    set a | a in x.h && a in x.mem && !Later(x.mem[a].tv, now)
  }

  /** `xs` are the states from the start of the loop on. */
  ghost predicate Draining(xs: seq<Exec>, qt: Timeval, now: Timeval, kills: set<U64>) {
    && xs != []
    && (forall i {:trigger xs[i]} :: 0 <= i < |xs| - 1 ==>
          Ready(xs[i], now) && xs[i + 1] == Handled(xs[i], qt, now, kills))
  }

  /** `xs` are the states from the start to the end of the loop. */
  ghost predicate Drained(xs: seq<Exec>, qt: Timeval, now: Timeval, kills: set<U64>) {
    Draining(xs, qt, now, kills) && !Ready(xs[|xs| - 1], now)
  }

  lemma DrainMore(xs: seq<Exec>, qt: Timeval, now: Timeval, kills: set<U64>, y: Exec)
    requires Draining(xs, qt, now, kills) && Ready(xs[|xs| - 1], now) && y == Handled(xs[|xs| - 1], qt, now, kills)
    ensures Draining(xs + [y], qt, now, kills)
  {
    hide Handled;
  }

  lemma HandledIs(x: Exec, qt: Timeval, now: Timeval, kills: set<U64>)
    requires Inv(x)
    ensures x.h != [] && x.h[0] in x.mem && QT in x.mem
    ensures
      var a := x.h[0];
      var y := x.(h := HeapOrder.PopAt(EventLeq(x.mem), x.h, 0));
      Handled(x, qt, now, kills) ==
        match x.mem[a].kind
        case NEWPROG => WaitingNew(y, a)
        case QEXPIRED => Expire(y, qt, now, kills)
        case SAMPLING => y
  {
    hide Expire, HeapOrder.PopAt, Queue, Waiting;
    QueueHead(x);
  }

  ghost predicate Clocked(qt: Timeval, now: Timeval) {
    Normal(qt) && Normal(now) && Micros(qt) > 0
  }

  // ---------- one event ----------

  lemma HandledHeap(x: Exec, qt: Timeval, now: Timeval, kills: set<U64>)
    requires Inv(x) && Clocked(qt, now) && x.h[0] in x.mem
    ensures
      var y := Handled(x, qt, now, kills);
      && (forall a :: a in x.h && a != x.h[0] ==> a in y.h && a in y.mem && a in x.mem && y.mem[a].tv == x.mem[a].tv)
      && (forall a :: a in y.h ==> a in x.h)
      && (x.h[0] == QT ==> QT in y.mem && y.mem[QT].tv == Plus(qt, now))
      && (x.h[0] != QT ==> x.h[0] !in y.h)
  {
    hide HeapOrder.PopAt, HeapOrder.Push, HashOk, Waiting, Census, PidsOk, Queue, Plus, Normal;
    QueueHead(x);
    QueueIn(x.mem, x.h);
    var y := Handled(x, qt, now, kills);
    if x.h[0] == QT {
      RescheduledIs(x.mem, qt, now);
      QuantumEvents(x, y, qt, now);
      SameMembers(x.h, y.h);
      QueueIn(y.mem, y.h);
    } else {
      QueuePop(x.mem, x.h, y.mem);
    }
  }

  /** Handling an event makes it the only one less that is due; a new quantum is not due yet. */
  lemma HandledDue(x: Exec, qt: Timeval, now: Timeval, kills: set<U64>)
    requires Inv(x) && Clocked(qt, now) && Ready(x, now)
    ensures Due(Handled(x, qt, now, kills), now) == Due(x, now) - {x.h[0]} && x.h[0] in Due(x, now)
  {
    hide Handled, Inv, Later, Micros, Plus, Normal;
    var y := Handled(x, qt, now, kills);
    HandledHeap(x, qt, now, kills);
    assert x.h[0] in x.h;
    NotDue(qt, now);
    forall a
      ensures a in Due(y, now) <==> a in Due(x, now) && a != x.h[0]
    {
    }
  }

  lemma NotDue(qt: Timeval, now: Timeval)
    requires Clocked(qt, now)
    ensures Later(Plus(qt, now), now)
  {
    hide Micros;
    TimesAreNumbers(qt, now);
    TimesAreNumbers(Plus(qt, now), now);
  }

  /** The next event to be handled does not come before the one that has just been handled. */
  lemma NextNotBefore(x: Exec, qt: Timeval, now: Timeval, kills: set<U64>)
    requires Inv(x) && Clocked(qt, now) && Ready(x, now)
    requires Inv(Handled(x, qt, now, kills))
    ensures
      var y := Handled(x, qt, now, kills);
      y.h != [] && y.h[0] in y.mem && Micros(x.mem[x.h[0]].tv) <= Micros(y.mem[y.h[0]].tv)
  {
    hide Handled, Later, Micros, Plus, Normal, Census, Counted, HashOk, PidsOk, Distinct, HeapOrder.Ordered;
    var y := Handled(x, qt, now, kills);
    HandledHeap(x, qt, now, kills);
    QueueHead(y);
    assert y.h[0] in y.h;
    if x.h[0] == QT && y.h[0] == QT {
      TimesAreNumbers(qt, now);
      RootTime(x, now);
    } else {
      RootFirst(x.mem, x.h, y.h[0]);
    }
  }

  lemma RootTime(x: Exec, now: Timeval)
    requires Inv(x) && Normal(now) && Ready(x, now)
    ensures Micros(x.mem[x.h[0]].tv) <= Micros(now)
  {
    hide Later, Micros, Normal, Census, Counted, HashOk, PidsOk, Distinct, HeapOrder.Ordered;
    assert x.h[0] in x.h;
    TimesAreNumbers(x.mem[x.h[0]].tv, now);
  }

  // ---------- the whole loop ----------

  lemma {:induction false} DrainedInv(xs: seq<Exec>, qt: Timeval, now: Timeval, kills: set<U64>, k: nat)
    requires Drained(xs, qt, now, kills) && Inv(xs[0]) && Clocked(qt, now) && k < |xs|
    ensures Inv(xs[k])
  {
    hide Inv, Handled, Ready;
    if k > 0 {
      DrainedInv(xs, qt, now, kills, k - 1);
      assert xs[k - 1] == xs[k - 1];
      ClockedTells(qt, now);
      HandledInv(xs[k - 1], qt, now, kills);
    }
  }

  lemma ClockedTells(qt: Timeval, now: Timeval)
    requires Clocked(qt, now)
    ensures Normal(qt) && Normal(now)
  {
  }

  /** The events handled so far are those that were due and are due no more. */
  ghost function Done(xs: seq<Exec>, k: nat): (s: set<U64>)
    requires k <= |xs|
  {
    set i | 0 <= i < k && xs[i].h != [] :: xs[i].h[0]
  }

  lemma {:induction false} DrainedDue(xs: seq<Exec>, qt: Timeval, now: Timeval, kills: set<U64>, k: nat)
    requires Drained(xs, qt, now, kills) && Inv(xs[0]) && Clocked(qt, now) && k < |xs|
    ensures Due(xs[k], now) == Due(xs[0], now) - Done(xs, k) && Done(xs, k) <= Due(xs[0], now)
    ensures |Due(xs[k], now)| == |Due(xs[0], now)| - k
  {
    hide Inv, Handled, Ready, Due, Done, Clocked;
    if k > 0 {
      var x := xs[k - 1];
      assert Ready(x, now);
      IsReady(x, now);
      assert xs[k] == Handled(x, qt, now, kills);
      hide Drained;
      DrainedInv(xs, qt, now, kills, k - 1);
      DrainedDue(xs, qt, now, kills, k - 1);
      HandledDue(x, qt, now, kills);
      DoneMore(xs, k - 1);
      OneLess(Due(xs[0], now), Done(xs, k - 1), x.h[0]);
    } else {
      NothingDone(xs);
    }
  }

  lemma NothingDone(xs: seq<Exec>)
    ensures Done(xs, 0) == {}
  {
  }

  lemma OneLess<T>(a: set<T>, d: set<T>, x: T)
    requires x in a - d
    ensures a - (d + {x}) == a - d - {x} && |a - d - {x}| == |a - d| - 1
  {
  }

  lemma IsReady(x: Exec, now: Timeval)
    requires Ready(x, now)
    ensures x.h != [] && x.h[0] in x.mem
  {
  }

  lemma DoneMore(xs: seq<Exec>, k: nat)
    requires k < |xs| && xs[k].h != []
    ensures Done(xs, k + 1) == Done(xs, k) + {xs[k].h[0]}
  {
  }

  lemma NoneDue(x: Exec, now: Timeval)
    requires Inv(x) && Normal(now) && !Ready(x, now)
    ensures Due(x, now) == {}
  {
    hide Later, Micros, Normal, Census, Counted, HashOk, PidsOk, Distinct, HeapOrder.Ordered;
    QueueHead(x);
    assert x.h[0] in x.h;
    forall a | a in x.h
      ensures a !in Due(x, now)
    {
      RootFirst(x.mem, x.h, a);
      TimesAreNumbers(x.mem[x.h[0]].tv, now);
      TimesAreNumbers(x.mem[a].tv, now);
    }
  }

  /** Exactly the events that were due have been handled, each once; none that is due remains. */
  lemma AllHandled(xs: seq<Exec>, qt: Timeval, now: Timeval, kills: set<U64>)
    requires Drained(xs, qt, now, kills) && Inv(xs[0]) && Clocked(qt, now)
    ensures
      var last := |xs| - 1;
      && Inv(xs[last]) && Due(xs[last], now) == {}
      && Done(xs, last) == Due(xs[0], now) && last == |Due(xs[0], now)|
  {
    hide Inv, Handled, Ready, Due;
    var last := |xs| - 1;
    DrainedInv(xs, qt, now, kills, last);
    DrainedDue(xs, qt, now, kills, last);
    ClockedTells(qt, now);
    NoneDue(xs[last], now);
  }

  function RootMicros(x: Exec): int {
    if x.h != [] && x.h[0] in x.mem then Micros(x.mem[x.h[0]].tv) else 0
  }

  /** Events are handled in the order of their times. */
  lemma {:induction false} HandledInOrder(xs: seq<Exec>, qt: Timeval, now: Timeval, kills: set<U64>, i: nat, j: nat)
    requires Drained(xs, qt, now, kills) && Inv(xs[0]) && Clocked(qt, now) && i <= j < |xs| - 1
    ensures RootMicros(xs[i]) <= RootMicros(xs[j]) <= Micros(now)
    decreases j - i
  {
    hide Inv, Handled, Ready, Micros;
    DrainedInv(xs, qt, now, kills, j);
    IsReady(xs[j], now);
    ClockedTells(qt, now);
    RootTime(xs[j], now);
    if i < j {
      HandledInOrder(xs, qt, now, kills, i, j - 1);
      DrainedInv(xs, qt, now, kills, j - 1);
      IsReady(xs[j - 1], now);
      NextNotBefore(xs[j - 1], qt, now, kills);
    }
  }

  /** At the end an event remains, so the alarm is always set: to the time left until the earliest one. */
  lemma Wakeup(x: Exec, now: Timeval)
    requires Inv(x) && Normal(now) && !Ready(x, now)
    ensures x.h != [] && x.h[0] in x.mem
    ensures
      var wakeup := Minus(x.mem[x.h[0]].tv, now);
      && Normal(wakeup) && Micros(wakeup) > 0
      && (forall a :: a in x.h ==> a in x.mem && Micros(now) + Micros(wakeup) <= Micros(x.mem[a].tv))
  {
    hide Later, Micros, Minus, Normal, Census, Counted, HashOk, PidsOk, Distinct, HeapOrder.Ordered;
    QueueHead(x);
    assert x.h[0] in x.h;
    TimesAreNumbers(x.mem[x.h[0]].tv, now);
    forall a | a in x.h
      ensures a in x.mem && Micros(x.mem[x.h[0]].tv) <= Micros(x.mem[a].tv)
    {
      RootFirst(x.mem, x.h, a);
    }
  }

  /** Events do not concern the programs that have finished. */
  lemma {:induction false} DrainedFinished(xs: seq<Exec>, qt: Timeval, now: Timeval, kills: set<U64>, k: nat)
    requires Drained(xs, qt, now, kills) && k < |xs|
    ensures xs[k].pfinished == xs[0].pfinished
  {
    if k > 0 {
      DrainedFinished(xs, qt, now, kills, k - 1);
      assert Ready(xs[k - 1], now);
      HandledFinished(xs[k - 1], qt, now, kills);
    }
  }

  lemma HandledFinished(x: Exec, qt: Timeval, now: Timeval, kills: set<U64>)
    requires x.h != [] && x.h[0] in x.mem
    ensures Handled(x, qt, now, kills).pfinished == x.pfinished
  {
    hide HeapOrder.PopAt, HeapOrder.Push;
  }
}
