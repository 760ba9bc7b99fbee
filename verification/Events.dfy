/** Timed events and their order: `struct timeval`, `aff_event_t` and `aff_event_leq_ul`. */
module Events {
  import opened Machine
  import HeapOrder

  const MILLION: int := 1_000_000

  datatype Timeval = Timeval(sec: int, usec: int)

  predicate Normal(t: Timeval) {
    0 <= t.usec < MILLION
  }

  function Micros(t: Timeval): int {
    t.sec * MILLION + t.usec
  }

  /** `timercmp(a, b, >)` */
  predicate Later(a: Timeval, b: Timeval) {
    if a.sec == b.sec then a.usec > b.usec else a.sec > b.sec
  }

  /** `timeradd` */
  function Plus(a: Timeval, b: Timeval): Timeval {
    var t := Timeval(a.sec + b.sec, a.usec + b.usec);
    if t.usec >= MILLION then Timeval(t.sec + 1, t.usec - MILLION) else t
  }

  /** `timersub` */
  function Minus(a: Timeval, b: Timeval): Timeval {
    var t := Timeval(a.sec - b.sec, a.usec - b.usec);
    if t.usec < 0 then Timeval(t.sec - 1, t.usec + MILLION) else t
  }

  /** On normalised values the three macros are comparison, addition and subtraction of microseconds. */
  lemma TimesAreNumbers(a: Timeval, b: Timeval)
    requires Normal(a) && Normal(b)
    ensures Later(a, b) <==> Micros(a) > Micros(b)
    ensures Normal(Plus(a, b)) && Micros(Plus(a, b)) == Micros(a) + Micros(b)
    ensures Normal(Minus(a, b)) && Micros(Minus(a, b)) == Micros(a) - Micros(b)
  {
  }

  datatype Kind = NEWPROG | QEXPIRED | SAMPLING

  datatype Event = Event(kind: Kind, tv: Timeval, prog: U64)

  /** The events in memory, by address. */
  type Memory = map<U64, Event>

  function TimeOf(mem: Memory, a: U64): Timeval {
    if a in mem then mem[a].tv else Timeval(0, 0)
  }

  /** `aff_event_leq_ul`, for the events as they are in memory now. */
  function EventLeq(mem: Memory): (U64, U64) -> bool {
    (a: U64, b: U64) => !Later(TimeOf(mem, a), TimeOf(mem, b))
  }

  lemma EventOrder(mem: Memory)
    ensures HeapOrder.TotalPreorder(EventLeq(mem))
  {
  }

  // ---------- the heap of events ----------

  /** The heap holds distinct addresses of events, in heap order. */
  ghost predicate Queue(mem: Memory, h: seq<U64>) {
    && HeapOrder.Ordered(EventLeq(mem), h)
    && Distinct(h)
    && forall a :: a in h ==> a in mem && Normal(mem[a].tv)
  }

  /** No event comes before the one at the root. */
  lemma RootFirst(mem: Memory, h: seq<U64>, a: U64)
    requires Queue(mem, h) && a in h
    ensures Micros(mem[h[0]].tv) <= Micros(mem[a].tv)
  {
    hide Later, Micros;
    var k :| 0 <= k < |h| && h[k] == a;
    EventOrder(mem);
    HeapOrder.RootLeast(EventLeq(mem), h, k);
    TimesAreNumbers(mem[h[0]].tv, mem[a].tv);
  }

  ghost predicate Distinct(h: seq<U64>) {
    forall i, j :: 0 <= i < j < |h| ==> h[i] != h[j]
  }

  lemma {:induction false} DistinctOnce(h: seq<U64>)
    ensures Distinct(h) <==> forall a :: multiset(h)[a] <= 1
  {
    if h != [] {
      var s, x := h[..|h| - 1], h[|h| - 1];
      DistinctOnce(s);
      assert h == s + [x];
      assert forall a :: multiset(h)[a] == multiset(s)[a] + if a == x then 1 else 0;
      if Distinct(h) {
        assert x !in s;
      }
      if x in s {
        assert multiset(h)[x] >= 2;
      }
    }
  }

  /** The order of the heap depends only on the times of the events in it. */
  lemma OrderedAlike(mem: Memory, mem': Memory, h: seq<U64>)
    requires HeapOrder.Ordered(EventLeq(mem), h)
    requires forall a :: a in h ==> TimeOf(mem', a) == TimeOf(mem, a)
    ensures HeapOrder.Ordered(EventLeq(mem'), h)
  {
    forall k | 1 <= k < |h|
      ensures EventLeq(mem')(h[HeapOrder.Up(k)], h[k])
    {
      assert EventLeq(mem)(h[HeapOrder.Up(k)], h[k]);
      assert h[HeapOrder.Up(k)] in h && h[k] in h;
    }
  }

  /** The root is taken; its event may be freed or changed afterwards. */
  lemma QueuePop(mem: Memory, h: seq<U64>, mem': Memory)
    requires Queue(mem, h) && h != []
    requires forall a :: a in h && a != h[0] ==> a in mem' && mem'[a] == mem[a]
    ensures
      var r := HeapOrder.PopAt(EventLeq(mem), h, 0);
      && Queue(mem', r) && multiset(r) + multiset{h[0]} == multiset(h) && h[0] !in r
      && forall a :: a in r <==> a in h && a != h[0]
  {
    hide Later, Distinct, EventLeq, HeapOrder.PopAt, HeapOrder.Ordered;
    hide HeapOrder.Poppable, HeapOrder.LostBelow, HeapOrder.TotalPreorder;
    var r := HeapOrder.PopAt(EventLeq(mem), h, 0);
    EventOrder(mem);
    RootPoppable(mem, h);
    HeapOrder.PopOrdered(EventLeq(mem), h, 0);
    HeapOrder.PopPerm(EventLeq(mem), h, 0);
    Taken(h, r, h[0]);
    OrderedAlike(mem, mem', r);
  }

  lemma RootPoppable(mem: Memory, h: seq<U64>)
    requires HeapOrder.Ordered(EventLeq(mem), h) && h != []
    ensures HeapOrder.Poppable(EventLeq(mem), h, 0) && !HeapOrder.LostBelow(EventLeq(mem), h, 0)
  {
  }

  lemma Taken(h: seq<U64>, r: seq<U64>, x: U64)
    requires Distinct(h) && multiset(r) + multiset{x} == multiset(h)
    ensures Distinct(r) && x !in r && forall a :: a in r <==> a in h && a != x
  {
    DistinctOnce(h);
    DistinctOnce(r);
    assert forall a :: multiset(h)[a] == multiset(r)[a] + if a == x then 1 else 0;
    forall a
      ensures a in r <==> a in h && a != x
    {
      assert a in r <==> a in multiset(r);
      assert a in h <==> a in multiset(h);
      assert multiset(h)[x] <= 1;
    }
  }

  /** An event that is not in the heap is pushed. */
  lemma QueuePush(mem: Memory, h: seq<U64>, x: U64)
    requires Queue(mem, h) && x in mem && Normal(mem[x].tv) && x !in h
    ensures
      var r := HeapOrder.Push(EventLeq(mem), h, x);
      && Queue(mem, r) && multiset(r) == multiset(h) + multiset{x} && x in r
      && forall a :: a in r <==> a in h || a == x
  {
    hide Distinct, HeapOrder.Push, HeapOrder.Ordered, HeapOrder.TotalPreorder, EventLeq;
    var r := HeapOrder.Push(EventLeq(mem), h, x);
    EventOrder(mem);
    HeapOrder.PushKeeps(EventLeq(mem), h, x);
    Added(h, r, x);
  }

  lemma Added(h: seq<U64>, r: seq<U64>, x: U64)
    requires Distinct(h) && multiset(r) == multiset(h) + multiset{x} && x !in h
    ensures Distinct(r) && x in r && forall a :: a in r <==> a in h || a == x
  {
    DistinctOnce(h);
    DistinctOnce(r);
    assert x !in multiset(h);
    assert forall a :: multiset(r)[a] == multiset(h)[a] + if a == x then 1 else 0;
    forall a
      ensures a in r <==> a in h || a == x
    {
      assert a in r <==> a in multiset(r);
      assert a in h <==> a in multiset(h);
    }
  }
}
