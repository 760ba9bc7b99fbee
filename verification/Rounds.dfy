/** The loops over programs in `linux_rebalance` and in the handler of SIGCHLD, and runs of all the steps together. */
module Rounds {
  import opened Machine
  import opened Seqs
  import opened Events
  import opened Lifecycle
  import Hashes

  // ---------- the configuration file ----------

  /** The programs of the lines can be forked, one after the other. */
  ghost predicate LinesOk(x: Exec, id: int, forks: seq<Fork>)
    decreases |forks|
  {
    forks == [] || (ForkOk(x, forks[0]) && LinesOk(Respawn(x, id, forks[0]), id + 1, forks[1..]))
  }

  /** The state when all lines have been read; the ids count up from `id`. */
  function Loaded(x: Exec, id: int, forks: seq<Fork>): Exec
    decreases |forks|
  {
    if forks == [] then x else Loaded(Respawn(x, id, forks[0]), id + 1, forks[1..])
  }

  lemma LoadStep(x: Exec, id: int, forks: seq<Fork>)
    requires Loading(x) && LinesOk(x, id, forks)
    ensures forks == [] ==> Loaded(x, id, forks) == x
    ensures forks != [] ==>
              var y := Respawn(x, id, forks[0]);
              Loading(y) && LinesOk(y, id + 1, forks[1..]) && Loaded(y, id + 1, forks[1..]) == Loaded(x, id, forks)
    ensures QT in x.mem && (forks != [] ==> var y := Respawn(x, id, forks[0]); QT in y.mem && y.mem[QT] == x.mem[QT])
  {
    hide Loading, Respawn, ForkOk;
    QuantumLoaded(x);
    if forks != [] {
      QuantumStays(x, id, forks[0]);
      LoadMore(x, id, forks[0]);
    }
  }

  lemma QuantumLoaded(x: Exec)
    requires Loading(x)
    ensures QT in x.mem
  {
  }

  lemma QuantumStays(x: Exec, id: int, f: Fork)
    requires QT in x.mem && ForkOk(x, f)
    ensures var y := Respawn(x, id, f); QT in y.mem && y.mem[QT] == x.mem[QT]
  {
  }

  /** The quantum's event begins with the length of a quantum as its time, long before any clock. */
  lemma BeginsInQuantum(x: Exec, h: seq<U64>, qt: Timeval)
    requires QT in x.mem && x.mem[QT].tv == qt
    ensures InQuantum(x.(h := h), qt, Timeval(0, 0))
  {
  }

  // ---------- linux_rebalance ----------

  ghost function StartAll(x: Exec): (y: Exec)
    requires Inv(x)
    ensures Inv(y) && y.pnew == [] && y.pfinished == x.pfinished && y.mem == x.mem && y.h == x.h && y.info == x.info
    decreases |x.pnew|
  {
    if x.pnew == [] then x
    else
      NewRunningInv(x);
      StartAll(NewRunning(x))
  }

  /** Each program that has finished gets a fork that would do. */
  ghost predicate ForksOk(x: Exec, forks: seq<Fork>)
    requires Inv(x)
    decreases |x.pfinished|
  {
    if x.pfinished == [] then true
    else if forks == [] || !ForkOk(x, forks[0]) then false
    else
      BuriedInv(x, forks[0]);
      BuriedShrinks(x, forks[0]);
      ForksOk(Buried(x, forks[0]), forks[1..])
  }

  lemma BuriedShrinks(x: Exec, f: Fork)
    requires x.pfinished != [] && x.pfinished[0] in x.info && x.times != []
    ensures Buried(x, f).pfinished == x.pfinished[1..] && Buried(x, f).pnew == x.pnew
  {
  }

  ghost function BuryAll(x: Exec, forks: seq<Fork>): (y: Exec)
    requires Inv(x) && ForksOk(x, forks)
    ensures Inv(y) && y.pfinished == [] && y.pnew == x.pnew
    decreases |x.pfinished|
  {
    if x.pfinished == [] then x
    else
      BuriedInv(x, forks[0]);
      BuriedShrinks(x, forks[0]);
      BuryAll(Buried(x, forks[0]), forks[1..])
  }

  /** After `linux_rebalance` no program is new and none is finished: all wait or run. */
  ghost function Rebalanced(x: Exec, forks: seq<Fork>): (y: Exec)
    requires Inv(x) && ForksOk(StartAll(x), forks)
    ensures Inv(y) && y.pnew == [] && y.pfinished == []
  {
    BuryAll(StartAll(x), forks)
  }

  lemma StartStep(x: Exec)
    requires Inv(x)
    ensures x.pnew == [] ==> StartAll(x) == x
    ensures x.pnew != [] ==> x.pnew[0] in x.info && Inv(NewRunning(x)) && StartAll(NewRunning(x)) == StartAll(x)
                             && |NewRunning(x).pnew| < |x.pnew|
  {
    hide Inv;
    if x.pnew != [] {
      NewRunningInv(x);
    }
  }

  lemma BuryStep(x: Exec, forks: seq<Fork>)
    requires Inv(x) && ForksOk(x, forks)
    ensures x.times != []
    ensures x.pfinished == [] ==> BuryAll(x, forks) == x
    ensures x.pfinished != [] ==>
              && forks != [] && x.pfinished[0] in x.info
              && var y := Buried(x, forks[0]);
                 && Inv(y) && ForksOk(y, forks[1..]) && BuryAll(y, forks[1..]) == BuryAll(x, forks)
                 && |y.pfinished| < |x.pfinished|
  {
    hide ForkOk, Buried, EventsOk, Counted, Census, HashOk, PidsOk;
    if x.pfinished != [] {
      BuriedInv(x, forks[0]);
      BuriedShrinks(x, forks[0]);
    }
  }

  lemma RebalancedIs(x: Exec, forks: seq<Fork>)
    requires Inv(x) && ForksOk(StartAll(x), forks)
    ensures Rebalanced(x, forks) == BuryAll(StartAll(x), forks)
  {
  }

  // ---------- SIGCHLD ----------

  /** What `waitpid` reports: a process that has ended, or only stopped. */
  datatype Death = Death(pid: U64, stopped: bool)

  /** A process that has ended was running. */
  ghost predicate DeathsOk(x: Exec, deaths: seq<Death>)
    requires Inv(x)
    decreases |deaths|
  {
    if deaths == [] || x.running_nr == 0 then true
    else if deaths[0].stopped then DeathsOk(x, deaths[1..])
    else if deaths[0].pid !in x.hash then false
    else
      RunningFinishedInv(x, deaths[0].pid);
      DeathsOk(RunningFinished(x, deaths[0].pid), deaths[1..])
  }

  ghost function Reaped(x: Exec, deaths: seq<Death>): (y: Exec)
    requires Inv(x) && DeathsOk(x, deaths)
    ensures Inv(y) && |x.pfinished| <= |y.pfinished| && y.pnew == x.pnew && y.mem == x.mem
    decreases |deaths|
  {
    if deaths == [] || x.running_nr == 0 then x
    else if deaths[0].stopped then Reaped(x, deaths[1..])
    else
      RunningFinishedInv(x, deaths[0].pid);
      Reaped(RunningFinished(x, deaths[0].pid), deaths[1..])
  }

  lemma ReapStep(x: Exec, deaths: seq<Death>)
    requires Inv(x) && DeathsOk(x, deaths)
    ensures deaths == [] || x.running_nr == 0 ==> Reaped(x, deaths) == x
    ensures deaths != [] && x.running_nr != 0 && deaths[0].stopped ==>
              DeathsOk(x, deaths[1..]) && Reaped(x, deaths[1..]) == Reaped(x, deaths)
    ensures deaths != [] && x.running_nr != 0 && !deaths[0].stopped ==>
              && deaths[0].pid in x.hash && x.hash[deaths[0].pid] != Hashes.NOT_FOUND
              && var y := RunningFinished(x, deaths[0].pid);
                 Inv(y) && DeathsOk(y, deaths[1..]) && Reaped(y, deaths[1..]) == Reaped(x, deaths)
  {
    hide RunningFinished, Inv;
    if deaths != [] && x.running_nr != 0 && !deaths[0].stopped {
      RunningFinishedInv(x, deaths[0].pid);
      Found(x, deaths[0].pid);
    }
  }

  lemma Found(x: Exec, pid: U64)
    requires Inv(x) && pid in x.hash
    ensures x.hash[pid] != Hashes.NOT_FOUND
  {
  }

  // ---------- runs ----------

  datatype Move =
    | Dispatch(now: Timeval, kills: set<U64>)     // an event that is due is handled
    | Begin                                       // the first new program is started
    | Die(pid: U64)                               // a running program ends
    | Bury(f: Fork)                               // the first finished program is dealt with
    | Restart(now: Timeval)                       // the quantum is reset

  ghost predicate Moves(x: Exec, m: Move, qt: Timeval, clock: Timeval, y: Exec, clock': Timeval) {
    match m
    case Dispatch(now, kills) =>
      Normal(now) && Micros(clock) <= Micros(now) && clock' == now
      && x.h != [] && x.h[0] in x.mem && y == Handled(x, qt, now, kills)
    case Begin => clock' == clock && x.pnew != [] && x.pnew[0] in x.info && y == NewRunning(x)
    case Die(pid) => clock' == clock && pid in x.hash && y == RunningFinished(x, pid)
    case Bury(f) =>
      && clock' == clock && x.pfinished != [] && x.pfinished[0] in x.info && x.times != []
      && ForkOk(x, f) && y == Buried(x, f)
    case Restart(now) =>
      Normal(now) && Micros(clock) <= Micros(now) && clock' == now && QT in x.mem && QT in x.h && y == Reset(x, qt, now)
  }

  lemma MovesInv(x: Exec, m: Move, qt: Timeval, clock: Timeval, y: Exec, clock': Timeval)
    requires Inv(x) && InQuantum(x, qt, clock) && Normal(qt) && Normal(clock) && Moves(x, m, qt, clock, y, clock')
    ensures Inv(y) && InQuantum(y, qt, clock') && Normal(clock')
  {
    hide Inv, Handled, NewRunning, RunningFinished, Buried, Reset, InQuantum, ForkOk, Normal, Micros;
    match m
    case Dispatch(now, kills) =>
      HandledInv(x, qt, now, kills);
      HandledQuantum(x, qt, clock, now, kills);
    case Begin =>
      NewRunningInv(x);
      QuantumKept(x, NewRunning(x), qt, clock) by { NewRunningKeeps(x); }
    case Die(pid) =>
      RunningFinishedInv(x, pid);
      QuantumKept(x, RunningFinished(x, pid), qt, clock) by { RunningFinishedKeeps(x, pid); }
    case Bury(f) =>
      BuriedInv(x, f);
      QuantumKept(x, Buried(x, f), qt, clock) by { BuriedKeeps(x, f); }
    case Restart(now) =>
      ResetInv(x, qt, clock, now);
  }

  lemma QuantumKept(x: Exec, y: Exec, qt: Timeval, clock: Timeval)
    requires InQuantum(x, qt, clock) && (QT in x.mem ==> QT in y.mem && y.mem[QT] == x.mem[QT])
    ensures InQuantum(y, qt, clock)
  {
  }

  lemma NewRunningKeeps(x: Exec)
    requires x.pnew != [] && x.pnew[0] in x.info
    ensures NewRunning(x).mem == x.mem
  {
  }

  lemma RunningFinishedKeeps(x: Exec, pid: U64)
    requires pid in x.hash
    ensures RunningFinished(x, pid).mem == x.mem
  {
  }

  lemma BuriedKeeps(x: Exec, f: Fork)
    requires x.pfinished != [] && x.pfinished[0] in x.info && x.times != [] && ForkOk(x, f)
    ensures QT in x.mem ==> QT in Buried(x, f).mem && Buried(x, f).mem[QT] == x.mem[QT]
  {
  }

  lemma HandledQuantum(x: Exec, qt: Timeval, clock: Timeval, now: Timeval, kills: set<U64>)
    requires Inv(x) && InQuantum(x, qt, clock) && Normal(qt) && Normal(now) && Micros(clock) <= Micros(now)
    requires x.h != [] && x.h[0] in x.mem
    ensures InQuantum(Handled(x, qt, now, kills), qt, now)
  {
    hide HashOk, PidsOk, Census, Counted, Queue, Micros, Normal;
    QueueHead(x);
    RescheduledIs(x.mem, qt, now);
  }

  /** The states and clock readings of a run of single steps, in any order. */
  ghost predicate Course(xs: seq<Exec>, ms: seq<Move>, clocks: seq<Timeval>, qt: Timeval) {
    && |xs| == |clocks| == |ms| + 1
    && forall i {:trigger ms[i]} :: 0 <= i < |ms| ==> Moves(xs[i], ms[i], qt, clocks[i], xs[i + 1], clocks[i + 1])
  }

  /**
   * In every run the counters are right, every program is in one state, and the quantum's event is in the heap once.
   */
  lemma {:induction false} CourseInv(xs: seq<Exec>, ms: seq<Move>, clocks: seq<Timeval>, qt: Timeval, k: nat)
    requires Course(xs, ms, clocks, qt) && k <= |ms|
    requires Inv(xs[0]) && InQuantum(xs[0], qt, clocks[0]) && Normal(qt) && Normal(clocks[0])
    ensures Inv(xs[k]) && InQuantum(xs[k], qt, clocks[k]) && Normal(clocks[k])
  {
    hide Inv, InQuantum, Normal, Moves;
    if k > 0 {
      CourseInv(xs, ms, clocks, qt, k - 1);
      assert Moves(xs[k - 1], ms[k - 1], qt, clocks[k - 1], xs[k - 1 + 1], clocks[k - 1 + 1]);
      MovesInv(xs[k - 1], ms[k - 1], qt, clocks[k - 1], xs[k], clocks[k]);
    }
  }

  /** `check_shutdown` ends the executor exactly when no program waits, is new or runs. */
  predicate ShutsDown(x: Exec) {
    x.running_nr == 0 && x.waiting_nr == 0 && x.new_nr == 0
  }

  lemma {:induction false} AllNew(mem: Memory, h: seq<U64>)
    requires forall a :: a in h ==> a in mem && mem[a].kind == NEWPROG
    ensures |Waiting(mem, h)| == |h|
  {
    if h != [] {
      AllNew(mem, h[..|h| - 1]);
      assert h[|h| - 1] in h;
    }
  }

  lemma WaitingCounts(x: Exec)
    requires EventsOk(x)
    ensures |Waiting(x.mem, x.h)| == |x.h| - 1 && (|x.h| == 1 ==> x.h == [QT])
  {
    hide Waiting;
    var k :| 0 <= k < |x.h| && x.h[k] == QT;
    var r := Without(x.h, k);
    WaitingWithout(x.mem, x.h, k);
    TakeFrom(x.h, k);
    Taken(x.h, r, QT);
    AllNew(x.mem, r);
  }

  lemma Nobody(x: Exec, p: U64)
    requires Census(x) && Waiting(x.mem, x.h) == multiset{} && x.pnew == [] && x.listed == []
    ensures p in x.info ==> p in x.pfinished
  {
    hide Census, Waiting;
    CensusOnce(x, p);
    InList(x.pfinished, p);
  }

  lemma AllFinished(x: Exec)
    requires Census(x) && forall p :: p in x.info ==> p in x.pfinished
    ensures Waiting(x.mem, x.h) == multiset{} && x.pnew == [] && x.listed == []
  {
    hide Census, Waiting;
    var w := Waiting(x.mem, x.h);
    forall p
      ensures w[p] == 0 && p !in x.pnew && p !in x.listed
    {
      CensusOnce(x, p);
      InList(x.pnew, p);
      InList(x.listed, p);
      InList(x.pfinished, p);
    }
    assert w == multiset{};
    HeadIn(x.pnew);
    HeadIn(x.listed);
  }

  lemma HeadIn(s: seq<U64>)
    ensures s == [] || s[0] in s
  {
  }

  lemma ShutdownWhen(x: Exec)
    requires Inv(x)
    ensures ShutsDown(x) <==> x.hash == map[] && x.h == [QT] && x.pnew == []
    ensures ShutsDown(x) <==> forall p :: p in x.info ==> p in x.pfinished
  {
    hide HashOk, PidsOk, Queue, Waiting, EventsOk, Census;
    WaitingCounts(x);
    if ShutsDown(x) {
      forall p
        ensures p in x.info ==> p in x.pfinished
      {
        Nobody(x, p);
      }
    }
    if forall p :: p in x.info ==> p in x.pfinished {
      AllFinished(x);
    }
  }
}
