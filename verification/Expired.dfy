/** `qexpired` of the four policies: what happens to the program lists when a quantum ends. */
module Expired {
  import opened Machine
  import opened Programs
  import opened Rings
  import opened Scheds
  import opened Quanta
  import opened Freezing
  import opened Turns
  import opened Events
  import HeapOrder
  import Heaps
  import Lifecycle
  import Perf
  import PerfFair
  import Fair
  import FairBwCache

  /** The lists after `schedule`, when it has not monitored. */
  lemma IsChosen(policy: Policy, f: State, v: seq<Prog>, t: State, all: seq<Prog>, sch: seq<Prog>)
    requires Ordered(policy, f.all, v) && (policy == PERF_FAIR ==> f.nr <= |v|)
    requires (all, sch) == Selected(policy, v, f.nr) && t == f.(all := all, sch := sch)
    ensures Chosen(policy, f, v, t)
  {
  }

  lemma OrderedIs(policy: Policy, all: seq<Prog>, v: seq<Prog>)
    requires if policy == PERF then v == all else multiset(v) == multiset(all) && InOrder(v)
    ensures Ordered(policy, all, v)
  {
  }

  method PerfQuantum(sched: Sched, stop: Times, wait: Times, thaw: Times, rs: int -> Reading, unc: U64)
    requires sched.Valid() && Listed(Q(sched)) && Slotted(sched.S(), sched.target_instr.Length)
    requires Divides(PERF, Q(sched), stop, rs, unc)
    modifies sched`all, sched`sch, sched`monitor_wnd, sched`progs_nr, sched`collected, sched.target_instr
    modifies sched.Repr()`next, sched.Repr()`prev, sched.Repr()`pd
    modifies sched.Repr()`killed, sched.Repr()`core, sched.Repr()`fitness
    ensures sched.Valid() && sched.Repr() <= old(sched.Repr())
    ensures Quantum(PERF, old(Q(sched)), stop, wait, thaw, rs, unc, Q(sched))
  {
    hide *;
    ghost var q := Q(sched);
    QIs(sched);
    MonitorHasProgram(PERF, q, stop, wait, rs, unc);
    FreezeSched(sched, PERF, stop, wait, rs, unc);
    ghost var f := Q(sched);
    QIs(sched);
    sched.Sizes();
    sched.IsMonitoring();
    Perf.Schedule(sched);
    QIs(sched);
    if f.wnd <= f.nr {
      MonitorTurn(PERF, f, Q(sched));
    } else {
      OrderedIs(PERF, f.all, f.all);
      SelectedIs(PERF, f.all, f.nr);
      IsChosen(PERF, f, f.all, Q(sched), sched.A(), sched.S());
      SelectTurn(PERF, f, f.all, Q(sched));
    }
    IsQuantum(PERF, q, stop, wait, thaw, rs, unc, Q(sched));
    ThawSched(sched, thaw);
  }

  method PerfFairQuantum(sched: Sched, stop: Times, wait: Times, thaw: Times, rs: int -> Reading, unc: U64)
    requires sched.Valid() && Listed(Q(sched)) && Slotted(sched.S(), sched.target_instr.Length)
    requires Divides(PERF_FAIR, Q(sched), stop, rs, unc)
    modifies sched`all, sched`sch, sched`monitor_wnd, sched`progs_nr, sched`collected, sched.target_instr
    modifies sched.Repr()`next, sched.Repr()`prev, sched.Repr()`pd, sched.Repr()`killed, sched.Repr()`core
    ensures sched.Valid() && sched.Repr() <= old(sched.Repr())
    ensures Quantum(PERF_FAIR, old(Q(sched)), stop, wait, thaw, rs, unc, Q(sched))
  {
    hide *;
    ghost var q := Q(sched);
    QIs(sched);
    MonitorHasProgram(PERF_FAIR, q, stop, wait, rs, unc);
    FreezeSched(sched, PERF_FAIR, stop, wait, rs, unc);
    ghost var f := Q(sched);
    QIs(sched);
    sched.Sizes();
    sched.IsMonitoring();
    ghost var v := PerfFair.Schedule(sched);
    QIs(sched);
    if f.wnd <= f.nr {
      MonitorTurn(PERF_FAIR, f, Q(sched));
    } else {
      OrderedIs(PERF_FAIR, f.all, v);
      SelectedIs(PERF_FAIR, v, f.nr);
      IsChosen(PERF_FAIR, f, v, Q(sched), sched.A(), sched.S());
      SelectTurn(PERF_FAIR, f, v, Q(sched));
    }
    IsQuantum(PERF_FAIR, q, stop, wait, thaw, rs, unc, Q(sched));
    ThawSched(sched, thaw);
  }

  method FairQuantum(sched: Sched, stop: Times, wait: Times, thaw: Times, rs: int -> Reading, unc: U64)
    requires sched.Valid() && Listed(Q(sched)) && Slotted(sched.S(), sched.target_instr.Length)
    requires Divides(FAIR, Q(sched), stop, rs, unc)
    modifies sched`all, sched`sch, sched`monitor_wnd, sched`progs_nr, sched`collected, sched.target_instr
    modifies sched.Repr()`next, sched.Repr()`prev, sched.Repr()`pd, sched.Repr()`killed, sched.Repr()`core
    ensures sched.Valid() && sched.Repr() <= old(sched.Repr())
    ensures Quantum(FAIR, old(Q(sched)), stop, wait, thaw, rs, unc, Q(sched))
  {
    hide *;
    ghost var q := Q(sched);
    QIs(sched);
    MonitorHasProgram(FAIR, q, stop, wait, rs, unc);
    FreezeSched(sched, FAIR, stop, wait, rs, unc);
    ghost var f := Q(sched);
    QIs(sched);
    sched.Sizes();
    sched.IsMonitoring();
    ghost var v := Fair.Schedule(sched);
    QIs(sched);
    if f.wnd <= f.nr {
      MonitorTurn(FAIR, f, Q(sched));
    } else {
      OrderedIs(FAIR, f.all, v);
      SelectedIs(FAIR, v, f.nr);
      IsChosen(FAIR, f, v, Q(sched), sched.A(), sched.S());
      SelectTurn(FAIR, f, v, Q(sched));
    }
    IsQuantum(FAIR, q, stop, wait, thaw, rs, unc, Q(sched));
    ThawSched(sched, thaw);
  }

  method FairBwCacheQuantum(sched: Sched, stop: Times, wait: Times, thaw: Times, rs: int -> Reading, unc: U64)
    requires sched.Valid() && Listed(Q(sched)) && Slotted(sched.S(), sched.target_instr.Length)
    requires Divides(FAIR_BW_CACHE, Q(sched), stop, rs, unc)
    modifies sched`all, sched`sch, sched`monitor_wnd, sched`progs_nr, sched`collected, sched.target_instr
    modifies sched.Repr()`next, sched.Repr()`prev, sched.Repr()`pd, sched.Repr()`killed, sched.Repr()`core
    ensures sched.Valid() && sched.Repr() <= old(sched.Repr())
    ensures Quantum(FAIR_BW_CACHE, old(Q(sched)), stop, wait, thaw, rs, unc, Q(sched))
  {
    hide *;
    ghost var q := Q(sched);
    QIs(sched);
    MonitorHasProgram(FAIR_BW_CACHE, q, stop, wait, rs, unc);
    FreezeSched(sched, FAIR_BW_CACHE, stop, wait, rs, unc);
    ghost var f := Q(sched);
    QIs(sched);
    sched.Sizes();
    sched.IsMonitoring();
    ghost var v := FairBwCache.Schedule(sched);
    QIs(sched);
    if f.wnd <= f.nr {
      MonitorTurn(FAIR_BW_CACHE, f, Q(sched));
    } else {
      OrderedIs(FAIR_BW_CACHE, f.all, v);
      SelectedIs(FAIR_BW_CACHE, v, f.nr);
      IsChosen(FAIR_BW_CACHE, f, v, Q(sched), sched.A(), sched.S());
      SelectTurn(FAIR_BW_CACHE, f, v, Q(sched));
    }
    IsQuantum(FAIR_BW_CACHE, q, stop, wait, thaw, rs, unc, Q(sched));
    ThawSched(sched, thaw);
  }
  /** The quantum of the policy, then the next one: the event gets its time, and goes back into the heap. */
  method QExpired(sched: Sched, policy: Policy, events_heap: Heaps.Heap<U64>, mem: Memory, qt: Timeval, now: Timeval,
                  stop: Times, wait: Times, thaw: Times, rs: int -> Reading, unc: U64)
    returns (mem': Memory)
    requires sched.Valid() && Listed(Q(sched)) && Slotted(sched.S(), sched.target_instr.Length)
    requires Divides(policy, Q(sched), stop, rs, unc)
    requires events_heap.Valid() && Apart(sched, events_heap) && Lifecycle.QT in mem
    modifies sched`all, sched`sch, sched`monitor_wnd, sched`progs_nr, sched`collected, sched.target_instr
    modifies sched.Repr()`next, sched.Repr()`prev, sched.Repr()`pd, sched.Repr()`killed
    modifies sched.Repr()`core, sched.Repr()`fitness
    modifies events_heap.da, events_heap.da.elems
    ensures sched.Valid() && sched.Repr() <= old(sched.Repr())
    ensures Quantum(policy, old(Q(sched)), stop, wait, thaw, rs, unc, Q(sched))
    ensures mem' == Lifecycle.Rescheduled(mem, qt, now)
    ensures events_heap.Valid()
    ensures events_heap.Contents() == HeapOrder.Push(EventLeq(mem'), old(events_heap.Contents()), Lifecycle.QT)
  {
    hide *;
    Lifecycle.RescheduledAt(mem, qt, now);
    QuantumBeside(sched, policy, events_heap, stop, wait, thaw, rs, unc);
    mem' := mem[Lifecycle.QT := mem[Lifecycle.QT].(tv := Plus(qt, now))];
    PushBeside(sched, events_heap, mem');
  }

  /** The heap's buffer is not the array of the targets. */
  ghost predicate Apart(sched: Sched, events_heap: Heaps.Heap<U64>)
    reads events_heap.da
  {
    events_heap.da.elems as object != sched.target_instr as object
  }

  method QuantumBeside(sched: Sched, policy: Policy, ghost events_heap: Heaps.Heap<U64>,
                       stop: Times, wait: Times, thaw: Times, rs: int -> Reading, unc: U64)
    requires sched.Valid() && Listed(Q(sched)) && Slotted(sched.S(), sched.target_instr.Length)
    requires Divides(policy, Q(sched), stop, rs, unc)
    requires events_heap.Valid() && Apart(sched, events_heap)
    modifies sched`all, sched`sch, sched`monitor_wnd, sched`progs_nr, sched`collected, sched.target_instr
    modifies sched.Repr()`next, sched.Repr()`prev, sched.Repr()`pd, sched.Repr()`killed
    modifies sched.Repr()`core, sched.Repr()`fitness
    ensures sched.Valid() && sched.Repr() <= old(sched.Repr())
    ensures Quantum(policy, old(Q(sched)), stop, wait, thaw, rs, unc, Q(sched))
    ensures events_heap.Valid() && events_heap.Contents() == old(events_heap.Contents()) && Apart(sched, events_heap)
  {
    hide IsRing, View, Listed, Slotted, Divides, Quantum;
    match policy
    case PERF => PerfQuantum(sched, stop, wait, thaw, rs, unc);
    case PERF_FAIR => PerfFairQuantum(sched, stop, wait, thaw, rs, unc);
    case FAIR => FairQuantum(sched, stop, wait, thaw, rs, unc);
    case FAIR_BW_CACHE => FairBwCacheQuantum(sched, stop, wait, thaw, rs, unc);
  }

  method PushBeside(ghost sched: Sched, events_heap: Heaps.Heap<U64>, mem: Memory)
    requires sched.Valid() && events_heap.Valid() && Apart(sched, events_heap)
    modifies events_heap.da, events_heap.da.elems
    ensures sched.Valid() && Q(sched) == old(Q(sched)) && sched.Repr() == old(sched.Repr())
    ensures events_heap.Valid()
    ensures events_heap.Contents() == HeapOrder.Push(EventLeq(mem), old(events_heap.Contents()), Lifecycle.QT)
  {
    hide IsRing, View, EventLeq, HeapOrder.Push;
    events_heap.Push(EventLeq(mem), Lifecycle.QT);
  }
}
