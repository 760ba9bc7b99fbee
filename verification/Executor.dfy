/** The executor, src/aff-executor.c, with the `linux` policy, src/scheds/linux.c. */
module Executors {
  import opened Machine
  import opened Events
  import opened Lifecycle
  import opened Selection
  import opened Rounds
  import HeapOrder
  import Heaps
  import Hashes
  import Instances

  const MAX_PROGS: nat := 128

  class Executor {
    const events_heap: Heaps.Heap<U64>
    const prog_pid_hash: Hashes.Hash
    var mem: Memory               // the events, by address; `qt_event` is at `QT`
    var info: map<U64, Info>      // the programs, by address
    var pnew_l: seq<U64>
    var pfinished_l: seq<U64>
    var progs: seq<U64>           // the list of the policy
    var killed: set<U64>
    var waiting_nr: int
    var new_nr: int
    var running_nr: int
    var finished_nr: int
    var progs_nr: int
    var progs_left: int
    var times_target: seq<real>
    var qt: Timeval

    ghost predicate Valid()
      reads this, events_heap, events_heap.da, prog_pid_hash, prog_pid_hash.table, prog_pid_hash.Entries()
    {
      events_heap.Valid() && prog_pid_hash.Valid()
    }

    ghost function HeapRepr(): set<object>
      reads events_heap.da
    {
      {events_heap.da, events_heap.da.elems}
    }

    ghost function HashRepr(): set<object>
      reads prog_pid_hash
    {
      {prog_pid_hash, prog_pid_hash.table} + set e | e in prog_pid_hash.Entries()
    }

    /** The state as a value. */
    ghost function X(): (x: Exec)
      requires Valid()
      reads this, events_heap, events_heap.da, events_heap.da.elems
      reads prog_pid_hash, prog_pid_hash.table, prog_pid_hash.Entries()
    {
      Exec(events_heap.Contents(), mem, pnew_l, pfinished_l, progs, prog_pid_hash.M, info, killed,
           waiting_nr, new_nr, running_nr, finished_nr, progs_nr, progs_left, times_target)
    }

    lemma XIs()
      requires Valid()
      ensures events_heap.Valid() && prog_pid_hash.Valid()
      ensures X() == Exec(events_heap.Contents(), mem, pnew_l, pfinished_l, progs, prog_pid_hash.M, info, killed,
                          waiting_nr, new_nr, running_nr, finished_nr, progs_nr, progs_left, times_target)
    {
    }

    lemma IsValid()
      requires events_heap.Valid() && prog_pid_hash.Valid()
      ensures Valid()
    {
    }

    /** `init_state`, before the configuration file is read. */
    constructor (qt: Timeval, times: seq<real>, left: int)
      ensures Valid() && fresh(HeapRepr()) && fresh(HashRepr()) && X() == Empty(qt, times, left) && this.qt == qt
    {
      events_heap := new Heaps.Heap<U64>.Init();
      prog_pid_hash := new Hashes.Hash.Init(MAX_PROGS);
      mem, info := map[QT := Event(QEXPIRED, qt, 0)], map[];
      pnew_l, pfinished_l, progs, killed := [], [], [], {};
      waiting_nr, new_nr, running_nr, finished_nr := 0, 0, 0, 0;
      progs_nr, progs_left, times_target := 0, left, times;
      this.qt := qt;
    }

    // ---------- events ----------

    /** WAITING -> NEW */
    method WaitingNewStep(evnt: U64)
      requires Valid() && evnt in mem
      modifies this
      ensures Valid() && X() == WaitingNew(old(X()), evnt) && qt == old(qt)
    {
      hide *;
      XIs();
      waiting_nr := waiting_nr - 1;
      pnew_l := pnew_l + [mem[evnt].prog];
      new_nr := new_nr + 1;
      mem := mem - {evnt};
      IsValid();
      XIs();
      WaitingNewIs(old(X()), evnt);
    }

    method Push(evnt: U64)
      requires Valid()
      modifies HeapRepr()
      ensures Valid() && X() == old(X()).(h := HeapOrder.Push(EventLeq(mem), old(X()).h, evnt))
      ensures mem == old(mem) && qt == old(qt)
      ensures forall o: object :: o in HeapRepr() && o !in old(HeapRepr()) ==> fresh(o)
      ensures HashRepr() == old(HashRepr())
    {
      events_heap.Push(EventLeq(mem), evnt);
    }

    /** `linux_qexpired`, with the programs it decides to kill. */
    method QExpired(now: Timeval, kills: set<U64>)
      requires Valid() && QT in mem
      modifies this, HeapRepr()
      ensures Valid() && X() == Expire(old(X()), qt, now, kills) && qt == old(qt)
      ensures forall o: object :: o in HeapRepr() && o !in old(HeapRepr()) ==> fresh(o)
      ensures HashRepr() == old(HashRepr())
    {
      hide Expire, Rescheduled, EventLeq, HeapOrder.Push, X, Valid, Hashes.Hash.Entries;
      XIs();
      killed := killed + kills;
      progs_left := progs_left - |kills|;
      RescheduledAt(mem, qt, now);
      mem := mem[QT := mem[QT].(tv := Plus(qt, now))];
      IsValid();
      XIs();
      Push(QT);
      XIs();
      ExpireIs(old(X()), qt, now, kills);
    }

    method HandleEvent(evnt: U64, now: Timeval, kills: set<U64>)
      requires Valid() && evnt in mem && QT in mem
      modifies this, HeapRepr()
      ensures Valid() && qt == old(qt)
      ensures
        var x := old(X());
        X() == match x.mem[evnt].kind
               case NEWPROG => WaitingNew(x, evnt)
               case QEXPIRED => Expire(x, qt, now, kills)
               case SAMPLING => x
      ensures forall o: object :: o in HeapRepr() && o !in old(HeapRepr()) ==> fresh(o)
      ensures HashRepr() == old(HashRepr())
    {
      match mem[evnt].kind
      case NEWPROG => WaitingNewStep(evnt);
      case SAMPLING =>
      case QEXPIRED => QExpired(now, kills);
    }

    method PopFirst() returns (evnt: U64)
      requires Valid() && X().h != []
      modifies HeapRepr()
      ensures Valid() && evnt == old(X()).h[0] && qt == old(qt)
      ensures X() == old(X()).(h := HeapOrder.PopAt(EventLeq(mem), old(X()).h, 0))
      ensures HeapRepr() == old(HeapRepr()) && HashRepr() == old(HashRepr())
    {
      var ok;
      ok, evnt := events_heap.Pop(EventLeq(mem));
    }

    method PeekFirst() returns (ok: bool, evnt: U64)
      requires Valid()
      ensures Valid() && X() == old(X()) && HeapRepr() == old(HeapRepr()) && HashRepr() == old(HashRepr())
      ensures ok == (X().h != []) && (ok ==> evnt == X().h[0])
    {
      ok, evnt := events_heap.Peek();
    }

    /** All events that are due are handled; `xs` are the states in between. */
    method SelectReadyEvents(now: Timeval, kills: set<U64>) returns (next_wakeup: Timeval, ghost xs: seq<Exec>)
      requires Valid() && Inv(X()) && Clocked(qt, now)
      modifies this, HeapRepr()
      ensures Valid() && qt == old(qt)
      ensures Drained(xs, qt, now, kills) && xs[0] == old(X()) && X() == xs[|xs| - 1]
      ensures Inv(X()) && X().h != [] && X().h[0] in X().mem && next_wakeup == Minus(X().mem[X().h[0]].tv, now)
      ensures forall o: object :: o in HeapRepr() && o !in old(HeapRepr()) ==> fresh(o)
      ensures HashRepr() == old(HashRepr())
    {
      hide Inv, X, Valid, Handled, Draining, Clocked, Expire, WaitingNew, HeapOrder.PopAt, EventLeq;
      hide Due, Later, Minus, Hashes.Hash.Entries;
      next_wakeup := Timeval(0, 0);
      xs := [X()];
      JustBegun(X(), qt, now, kills);
      while true
        invariant Valid() && qt == old(qt) && Inv(X()) && Clocked(qt, now)
        invariant xs != [] && X() == xs[|xs| - 1] && xs[0] == old(X()) && Draining(xs, qt, now, kills)
        invariant forall o: object :: o in HeapRepr() && o !in old(HeapRepr()) ==> fresh(o)
        invariant HashRepr() == old(HashRepr())
        decreases |Due(X(), now)|
      {
        ghost var x := X();
        XIs();
        HandledIs(x, qt, now, kills);
        var ok, evnt := PeekFirst();
        if !ok { break; }
        if Later(mem[evnt].tv, now) {
          next_wakeup := Minus(mem[evnt].tv, now);
          break;
        }
        ClockedTells(qt, now);
        HandledInv(x, qt, now, kills);
        HandledDue(x, qt, now, kills);
        evnt := PopFirst();
        XIs();
        HandleEvent(evnt, now, kills);
        DrainMore(xs, qt, now, kills, X());
        xs := xs + [X()];
      }
      XIs();
    }

    // ---------- programs ----------

    method Remember(pid: U64, p: U64)
      requires Valid()
      modifies HashRepr()
      ensures Valid() && X() == old(X()).(hash := old(X()).hash[pid := p]) && qt == old(qt)
      ensures forall o: object :: o in HashRepr() && o !in old(HashRepr()) ==> fresh(o)
      ensures HeapRepr() == old(HeapRepr())
    {
      prog_pid_hash.Insert(pid, p);
    }

    /** `linux_add_prog`, and the counters of `aff_prog_new_running`, for the first new program. */
    method ListNew() returns (p: U64)
      requires Valid() && pnew_l != []
      modifies this
      ensures Valid() && p == old(pnew_l[0]) && qt == old(qt)
      ensures
        var x := old(X());
        X() == x.(pnew := x.pnew[1..], listed := x.listed + [p], progs_nr := x.progs_nr + 1, killed := x.killed - {p},
                  new_nr := x.new_nr - 1, running_nr := x.running_nr + 1)
      ensures HeapRepr() == old(HeapRepr()) && HashRepr() == old(HashRepr())
    {
      hide *;
      XIs();
      p := pnew_l[0];
      pnew_l := pnew_l[1..];
      killed := killed - {p};
      progs := progs + [p];
      progs_nr := progs_nr + 1;
      new_nr := new_nr - 1;
      running_nr := running_nr + 1;
      IsValid();
      XIs();
    }

    /** NEW -> RUNNING: the first new program. */
    method NewRunningStep()
      requires Valid() && pnew_l != [] && pnew_l[0] in info
      modifies this, HashRepr()
      ensures Valid() && X() == NewRunning(old(X())) && qt == old(qt)
      ensures forall o: object :: o in HashRepr() && o !in old(HashRepr()) ==> fresh(o)
      ensures HeapRepr() == old(HeapRepr())
    {
      hide *;
      XIs();
      var p := ListNew();
      XIs();
      Remember(info[p].pid, p);
      NewRunningIs(old(X()));
    }

    method Forget(pid: U64) returns (p: U64)
      requires Valid() && pid in X().hash
      modifies HashRepr()
      ensures Valid() && p == old(X()).hash[pid] && X() == old(X()).(hash := old(X()).hash - {pid}) && qt == old(qt)
      ensures forall o: object :: o in HashRepr() && o !in old(HashRepr()) ==> fresh(o)
      ensures HeapRepr() == old(HeapRepr())
    {
      p := prog_pid_hash.Delete(pid);
    }

    method Unlist(p: U64)
      requires Valid()
      modifies this`progs
      ensures Valid() && X() == old(X()).(listed := Deleted(old(X()).listed, p))
      ensures HeapRepr() == old(HeapRepr()) && HashRepr() == old(HashRepr())
    {
      hide Deleted;
      progs := Unlinked(progs, p);
    }

    /** RUNNING -> FINISHED, for the process that `waitpid` has reported. */
    method RunningFinishedStep(pid: U64)
      requires Valid() && pid in X().hash && X().hash[pid] != Hashes.NOT_FOUND
      modifies this, HashRepr()
      ensures Valid() && X() == RunningFinished(old(X()), pid) && qt == old(qt)
      ensures forall o: object :: o in HashRepr() && o !in old(HashRepr()) ==> fresh(o)
      ensures HeapRepr() == old(HeapRepr())
    {
      hide *;
      var p := Forget(pid);
      XIs();
      Unlist(p);
      XIs();
      running_nr := running_nr - 1;
      pfinished_l := pfinished_l + [p];
      finished_nr := finished_nr + 1;
      IsValid();
      XIs();
      RunningFinishedIs(old(X()), pid);
    }

    /** `prog_respawn`, and the body of the loop of `parse_file`: a program is forked and its event pushed. */
    method ProgRespawn(id: int, f: Fork)
      requires Valid()
      modifies this, HeapRepr()
      ensures Valid() && X() == Respawn(old(X()), id, f) && qt == old(qt)
      ensures forall o: object :: o in HeapRepr() && o !in old(HeapRepr()) ==> fresh(o)
      ensures HashRepr() == old(HashRepr())
    {
      hide Respawn, X, Valid, EventLeq, HeapOrder.Push, Hashes.Hash.Entries;
      XIs();
      mem := mem[f.evnt := Event(NEWPROG, Timeval(f.now.sec, 0), f.prog)];
      info := info[f.prog := Info(id, f.pid)];
      IsValid();
      XIs();
      Push(f.evnt);
      XIs();
      waiting_nr := waiting_nr + 1;
      IsValid();
      XIs();
      RespawnIs(old(X()), id, f);
    }

    method TakeFinished() returns (p: U64)
      requires Valid() && pfinished_l != []
      modifies this
      ensures Valid() && p == old(pfinished_l[0]) && qt == old(qt)
      ensures X() == old(X()).(pfinished := old(X()).pfinished[1..], progs_nr := old(X()).progs_nr - 1)
      ensures HeapRepr() == old(HeapRepr()) && HashRepr() == old(HashRepr())
    {
      p := pfinished_l[0];
      pfinished_l := pfinished_l[1..];
      progs_nr := progs_nr - 1;
    }

    /** The program has run once more: its target is lowered, and it is started again unless it is reached. */
    method Settle(p: U64, f: Fork)
      requires Valid() && p in info && times_target != []
      modifies this, HeapRepr()
      ensures Valid() && X() == Settled(old(X()), p, f) && qt == old(qt)
      ensures forall o: object :: o in HeapRepr() && o !in old(HeapRepr()) ==> fresh(o)
      ensures HashRepr() == old(HashRepr())
    {
      hide Settled, Respawn, X, Valid, EventLeq, HeapOrder.Push, Hashes.Hash.Entries, Instances.Slot;
      ghost var x := X();
      XIs();
      SettledIs(x, p, f);
      if p !in killed {
        var i := Instances.Slot(info[p].id, |times_target|);
        times_target := times_target[i := times_target[i] - 1.0];
        if times_target[i] == 0.0 {
          progs_left := progs_left - 1;
          IsValid();
          XIs();
        } else {
          IsValid();
          XIs();
          ProgRespawn(|times_target| + info[p].id, f);
        }
      }
    }

    method Dealloc(p: U64)
      requires Valid()
      modifies this`info
      ensures Valid() && X() == old(X()).(info := old(X()).info - {p})
      ensures HeapRepr() == old(HeapRepr()) && HashRepr() == old(HashRepr())
    {
      info := info - {p};
    }

    /** The body of the second loop of `linux_rebalance`: the first program that has finished. */
    method BuryFirst(f: Fork)
      requires Valid() && pfinished_l != [] && pfinished_l[0] in info && times_target != []
      modifies this, HeapRepr()
      ensures Valid() && X() == Buried(old(X()), f) && qt == old(qt)
      ensures forall o: object :: o in HeapRepr() && o !in old(HeapRepr()) ==> fresh(o)
      ensures HashRepr() == old(HashRepr())
    {
      hide Buried, Settled, X, Valid, Hashes.Hash.Entries;
      ghost var x := X();
      XIs();
      var p := TakeFinished();
      XIs();
      Settle(p, f);
      Dealloc(p);
      BuriedSteps(x, f);
    }

    /** The first loop of `linux_rebalance`. */
    method StartNew()
      requires Valid() && Inv(X())
      modifies this, HashRepr()
      ensures Valid() && Inv(X()) && X() == StartAll(old(X())) && qt == old(qt)
      ensures forall o: object :: o in HashRepr() && o !in old(HashRepr()) ==> fresh(o)
      ensures HeapRepr() == old(HeapRepr())
    {
      hide Inv, X, Valid, StartAll, NewRunning, HashRepr, HeapRepr;
      ghost var x := X();
      XIs();
      while pnew_l != []
        invariant Valid() && Inv(X()) && StartAll(X()) == StartAll(x) && qt == old(qt) && pnew_l == X().pnew
        invariant forall o: object :: o in HashRepr() && o !in old(HashRepr()) ==> fresh(o)
        invariant HeapRepr() == old(HeapRepr())
        decreases |pnew_l|
      {
        XIs();
        StartStep(X());
        NewRunningStep();
        XIs();
      }
      StartStep(X());
    }

    /** The second loop of `linux_rebalance`, with what the system supplies for each respawn. */
    method BuryFinished(forks: seq<Fork>)
      requires Valid() && Inv(X()) && ForksOk(X(), forks)
      modifies this, HeapRepr()
      ensures Valid() && Inv(X()) && X() == BuryAll(old(X()), forks) && qt == old(qt)
      ensures forall o: object :: o in HeapRepr() && o !in old(HeapRepr()) ==> fresh(o)
      ensures HashRepr() == old(HashRepr())
    {
      hide Inv, X, Valid, BuryAll, ForksOk, Buried, HashRepr, HeapRepr;
      ghost var x := X();
      XIs();
      ghost var left := forks;
      var k := 0;
      BuryStep(x, left);
      while pfinished_l != []
        invariant Valid() && Inv(X()) && qt == old(qt) && pfinished_l == X().pfinished
        invariant k <= |forks| && left == forks[k..] && ForksOk(X(), left) && BuryAll(X(), left) == BuryAll(x, forks)
        invariant forall o: object :: o in HeapRepr() && o !in old(HeapRepr()) ==> fresh(o)
        invariant HashRepr() == old(HashRepr())
        decreases |pfinished_l|
      {
        XIs();
        BuryStep(X(), left);
        BuryFirst(forks[k]);
        XIs();
        left := left[1..];
        k := k + 1;
      }
      BuryStep(X(), left);
    }

    /** `linux_rebalance` */
    method LinuxRebalance(forks: seq<Fork>)
      requires Valid() && Inv(X()) && ForksOk(StartAll(X()), forks)
      modifies this, HeapRepr(), HashRepr()
      ensures Valid() && Inv(X()) && X() == Rebalanced(old(X()), forks) && qt == old(qt)
      ensures forall o: object :: o in HeapRepr() && o !in old(HeapRepr()) ==> fresh(o)
      ensures forall o: object :: o in HashRepr() && o !in old(HashRepr()) ==> fresh(o)
    {
      hide *;
      RebalancedIs(X(), forks);
      StartNew();
      BuryFinished(forks);
    }

    /** The loop of the handler: `dead` counts the programs that have ended. */
    method ReapAll(deaths: seq<Death>) returns (dead: nat)
      requires Valid() && Inv(X()) && DeathsOk(X(), deaths)
      modifies this, HashRepr()
      ensures Valid() && Inv(X()) && X() == Reaped(old(X()), deaths) && qt == old(qt) && (dead == 0 ==> X() == old(X()))
      ensures forall o: object :: o in HashRepr() && o !in old(HashRepr()) ==> fresh(o)
      ensures HeapRepr() == old(HeapRepr())
    {
      hide Inv, X, Valid, Reaped, DeathsOk, RunningFinished, HashRepr, HeapRepr;
      ghost var x := X();
      ghost var left := deaths;
      dead := 0;
      var k := 0;
      while k < |deaths|
        invariant Valid() && Inv(X()) && qt == old(qt) && k <= |deaths| && left == deaths[k..]
        invariant DeathsOk(X(), left) && Reaped(X(), left) == Reaped(x, deaths)
        invariant dead == 0 ==> X() == x
        invariant forall o: object :: o in HashRepr() && o !in old(HashRepr()) ==> fresh(o)
        invariant HeapRepr() == old(HeapRepr())
      {
        XIs();
        ReapStep(X(), left);
        if running_nr == 0 { break; }
        if !deaths[k].stopped {
          RunningFinishedStep(deaths[k].pid);
          dead := dead + 1;
        }
        left := left[1..];
        k := k + 1;
      }
      XIs();
      ReapStep(X(), left);
    }

    /** The handler of SIGCHLD; `deaths` is what `waitpid` reports, and the result whether the executor ends. */
    method SigchldHandler(deaths: seq<Death>, forks: seq<Fork>) returns (shutdown: bool)
      requires Valid() && Inv(X()) && DeathsOk(X(), deaths) && ForksOk(StartAll(Reaped(X(), deaths)), forks)
      requires X().pnew == [] && X().pfinished == []
      modifies this, HeapRepr(), HashRepr()
      ensures Valid() && Inv(X()) && X() == Rebalanced(Reaped(old(X()), deaths), forks) && qt == old(qt)
      ensures shutdown == ShutsDown(X())
      ensures forall o: object :: o in HeapRepr() && o !in old(HeapRepr()) ==> fresh(o)
      ensures forall o: object :: o in HashRepr() && o !in old(HashRepr()) ==> fresh(o)
    {
      hide *;
      var dead := ReapAll(deaths);
      if dead > 0 {
        LinuxRebalance(forks);
      } else {
        NothingToDo(X(), forks);
      }
      shutdown := CheckShutdown();
    }

    method CheckShutdown() returns (b: bool)
      requires Valid()
      ensures Valid() && X() == old(X()) && HeapRepr() == old(HeapRepr()) && HashRepr() == old(HashRepr())
      ensures b == ShutsDown(X())
    {
      b := running_nr == 0 && waiting_nr == 0 && new_nr == 0;
    }

    // ---------- the beginning, and one round of the main loop ----------

    /** `parse_file`, and the end of `linux_init`: the quantum's event is pushed last. */
    method Begin(forks: seq<Fork>)
      requires Valid() && Loading(X()) && LinesOk(X(), Instances.ID_USER_OFFSET, forks)
      requires X().mem[QT].tv == qt
      modifies this, HeapRepr()
      ensures Valid() && Inv(X()) && qt == old(qt) && InQuantum(X(), qt, Timeval(0, 0))
      ensures
        var x := Loaded(old(X()), Instances.ID_USER_OFFSET, forks);
        X() == x.(h := HeapOrder.Push(EventLeq(x.mem), x.h, QT))
      ensures forall o: object :: o in HeapRepr() && o !in old(HeapRepr()) ==> fresh(o)
      ensures HashRepr() == old(HashRepr())
    {
      hide Inv, Loading, X, Valid, Loaded, LinesOk, Respawn, InQuantum, HashRepr, HeapRepr;
      ghost var x := X();
      ghost var left := forks;
      var cnt, k := Instances.ID_USER_OFFSET, 0;
      QuantumLoaded(x);
      while k < |forks|
        invariant Valid() && Loading(X()) && qt == old(qt) && k <= |forks| && left == forks[k..]
        invariant LinesOk(X(), cnt, left) && Loaded(X(), cnt, left) == Loaded(x, Instances.ID_USER_OFFSET, forks)
        invariant QT in X().mem && X().mem[QT].tv == qt
        invariant forall o: object :: o in HeapRepr() && o !in old(HeapRepr()) ==> fresh(o)
        invariant HashRepr() == old(HashRepr())
      {
        LoadStep(X(), cnt, left);
        ProgRespawn(cnt, forks[k]);
        left := left[1..];
        cnt, k := cnt + 1, k + 1;
      }
      LoadStep(X(), cnt, left);
      LoadedInv(X());
      XIs();
      BeginsInQuantum(X(), HeapOrder.Push(EventLeq(mem), X().h, QT), qt);
      Push(QT);
    }

    /** One call of `handle_events`; `xs` are the states between the events. */
    method HandleEvents(now: Timeval, kills: set<U64>) returns (next_wakeup: Timeval, ghost xs: seq<Exec>)
      requires Valid() && Inv(X()) && Clocked(qt, now) && X().pfinished == []
      modifies this, HeapRepr(), HashRepr()
      ensures Valid() && Inv(X()) && qt == old(qt)
      ensures Drained(xs, qt, now, kills) && xs[0] == old(X())
      ensures
        var x := xs[|xs| - 1];
        && Inv(x) && x.pfinished == [] && X() == StartAll(x) && X().pnew == [] && X().pfinished == []
        && x.h != [] && x.h[0] in x.mem && next_wakeup == Minus(x.mem[x.h[0]].tv, now)
    {
      hide Inv, X, Valid, Drained, Rebalanced, StartAll, ForksOk, Clocked, Minus, HashRepr, HeapRepr;
      next_wakeup, xs := SelectReadyEvents(now, kills);
      ghost var x := X();
      XIs();
      DrainedFinished(xs, qt, now, kills, |xs| - 1) by { DrainedNonempty(xs, qt, now, kills); }
      OnlyNew(x);
      NewCounted(x);
      if new_nr > 0 {
        LinuxRebalance([]);
      }
    }

    /** The main loop gives the quantum a full length again. */
    method ResetQuantum(now: Timeval)
      requires Valid() && QT in mem && QT in X().h
      modifies this, HeapRepr()
      ensures Valid() && X() == Reset(old(X()), qt, now) && qt == old(qt)
    {
      hide Rescheduled, HeapOrder.PopAt, HeapOrder.Push, EventLeq, Reset, Hashes.Hash.Entries;
      ghost var x := X();
      RescheduledAt(mem, qt, now);
      mem := mem[QT := mem[QT].(tv := Plus(qt, now))];
      var ok, at := events_heap.PopElem(EventLeq(mem), QT);
      FoundFirst(x.h, at);
      events_heap.Push(EventLeq(mem), QT);
      ResetIs(x, qt, now);
    }
  }

  /** `cds_list_del`, on a list of addresses. */
  method Unlinked(s: seq<U64>, p: U64) returns (r: seq<U64>)
    ensures r == Deleted(s, p)
  {
    hide Deleted;
    var k := 0;
    while k < |s| && s[k] != p
      invariant k <= |s| && p !in s[..k]
    {
      assert s[..k + 1] == s[..k] + [s[k]];
      k := k + 1;
    }
    if k == |s| {
      assert s[..k] == s;
      DeletedPerm(s, p);
      return s;
    }
    DeletedAt(s, p, k);
    r := s[..k] + s[k + 1..];
  }

  // ---------- the steps, spelled out ----------

  lemma JustBegun(x: Exec, qt: Timeval, now: Timeval, kills: set<U64>)
    ensures Draining([x], qt, now, kills)
  {
  }

  lemma WaitingNewIs(x: Exec, a: U64)
    requires a in x.mem
    ensures WaitingNew(x, a) ==
            x.(waiting_nr := x.waiting_nr - 1, pnew := x.pnew + [x.mem[a].prog], new_nr := x.new_nr + 1,
               mem := x.mem - {a})
  {
  }

  lemma ExpireIs(x: Exec, qt: Timeval, now: Timeval, kills: set<U64>)
    requires QT in x.mem
    ensures Expire(x, qt, now, kills) ==
            var mem := Rescheduled(x.mem, qt, now);
            x.(mem := mem, h := HeapOrder.Push(EventLeq(mem), x.h, QT),
               killed := x.killed + kills, progs_left := x.progs_left - |kills|)
  {
  }

  lemma NewRunningIs(x: Exec)
    requires x.pnew != [] && x.pnew[0] in x.info
    ensures
      var p := x.pnew[0];
      NewRunning(x) ==
        x.(pnew := x.pnew[1..], listed := x.listed + [p], progs_nr := x.progs_nr + 1, killed := x.killed - {p},
           new_nr := x.new_nr - 1, running_nr := x.running_nr + 1, hash := x.hash[x.info[p].pid := p])
  {
  }

  lemma RunningFinishedIs(x: Exec, pid: U64)
    requires pid in x.hash
    ensures
      var p := x.hash[pid];
      RunningFinished(x, pid) ==
        x.(hash := x.hash - {pid}, running_nr := x.running_nr - 1, listed := Deleted(x.listed, p),
           pfinished := x.pfinished + [p], finished_nr := x.finished_nr + 1)
  {
  }

  lemma RespawnIs(x: Exec, id: int, f: Fork)
    ensures
      var mem := x.mem[f.evnt := Event(NEWPROG, Timeval(f.now.sec, 0), f.prog)];
      Respawn(x, id, f) ==
        x.(mem := mem, h := HeapOrder.Push(EventLeq(mem), x.h, f.evnt), info := x.info[f.prog := Info(id, f.pid)],
           waiting_nr := x.waiting_nr + 1)
  {
  }

  lemma NothingToDo(x: Exec, forks: seq<Fork>)
    requires Inv(x) && ForksOk(StartAll(x), forks) && x.pnew == [] && x.pfinished == []
    ensures Rebalanced(x, forks) == x
  {
    hide EventsOk, Counted, Census, HashOk, PidsOk;
  }

  function Settled(x: Exec, p: U64, f: Fork): Exec
    requires p in x.info && x.times != []
  {
    var i := Instances.Slot(x.info[p].id, |x.times|);
    var t := x.(times := x.times[i := x.times[i] - 1.0]);
    if p in x.killed then x
    else if t.times[i] == 0.0 then t.(progs_left := t.progs_left - 1)
    else Respawn(t, |x.times| + x.info[p].id, f)
  }

  lemma SettledIs(x: Exec, p: U64, f: Fork)
    requires p in x.info && x.times != []
    ensures
      var i := Instances.Slot(x.info[p].id, |x.times|);
      var t := x.(times := x.times[i := x.times[i] - 1.0]);
      Settled(x, p, f) ==
        if p in x.killed then x
        else if t.times[i] == 0.0 then t.(progs_left := t.progs_left - 1)
        else Respawn(t, |x.times| + x.info[p].id, f)
  {
    hide Respawn, Instances.Slot;
  }

  lemma BuriedSteps(x: Exec, f: Fork)
    requires x.pfinished != [] && x.pfinished[0] in x.info && x.times != []
    ensures
      var p := x.pfinished[0];
      var z := Settled(x.(pfinished := x.pfinished[1..], progs_nr := x.progs_nr - 1), p, f);
      Buried(x, f) == z.(info := z.info - {p})
  {
    hide Respawn, Instances.Slot;
  }

  lemma DrainedNonempty(xs: seq<Exec>, qt: Timeval, now: Timeval, kills: set<U64>)
    requires Drained(xs, qt, now, kills)
    ensures xs != []
  {
  }

  lemma OnlyNew(x: Exec)
    requires Inv(x) && x.pfinished == []
    ensures ForksOk(StartAll(x), []) && Rebalanced(x, []) == StartAll(x)
  {
    hide EventsOk, Counted, Census, HashOk, PidsOk;
  }

  lemma NewCounted(x: Exec)
    requires Inv(x)
    ensures x.new_nr == |x.pnew| && (x.pnew == [] ==> StartAll(x) == x)
  {
    hide EventsOk, Census, HashOk, PidsOk, Waiting;
  }

  lemma FoundFirst(h: seq<U64>, k: nat)
    requires QT in h && k < |h| && h[k] == QT && QT !in h[..k]
    ensures k == IndexOf(h, QT)
  {
    Before(h, IndexOf(h, QT), k);
    Before(h, k, IndexOf(h, QT));
  }

  lemma Before(h: seq<U64>, j: nat, k: nat)
    requires j < |h| && k <= |h|
    ensures j < k ==> h[j] in h[..k]
  {
    if j < k {
      assert h[..k][j] == h[j];
    }
  }

  lemma ResetIs(x: Exec, qt: Timeval, now: Timeval)
    requires QT in x.mem && QT in x.h
    ensures
      var mem := Rescheduled(x.mem, qt, now);
      Reset(x, qt, now) ==
        x.(mem := mem, h := HeapOrder.Push(EventLeq(mem), HeapOrder.PopAt(EventLeq(mem), x.h, IndexOf(x.h, QT)), QT))
  {
  }
}
