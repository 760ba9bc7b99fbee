/**
 * The life of a program under the `linux` policy, WAITING -> NEW -> RUNNING -> FINISHED, as steps of
 * the executor's state; src/aff-executor.c and src/scheds/linux.c.
 */
module Lifecycle {
  import opened Machine
  import opened Seqs
  import opened Events
  import HeapOrder
  import Instances
  import Hashes

  /** The address of the static `qt_event`. */
  const QT: U64 := 0

  datatype Info = Info(id: int, pid: U64)

  /** The executor's state; programs and events are known by their addresses. */
  datatype Exec = Exec(
    h: seq<U64>,                 // `events_heap`
    mem: Memory,                 // the events in memory
    pnew: seq<U64>,
    pfinished: seq<U64>,
    listed: seq<U64>,            // the list of the policy
    hash: map<U64, U64>,         // pid of the shell -> program
    info: map<U64, Info>,        // the programs in memory
    killed: set<U64>,
    waiting_nr: int,
    new_nr: int,
    running_nr: int,
    finished_nr: int,
    progs_nr: int,
    progs_left: int,
    times: seq<real>)            // `times_target`, by slot

  /** What the system supplies for a respawn: two fresh addresses, the new pid and the time. */
  datatype Fork = Fork(evnt: U64, prog: U64, pid: U64, now: Timeval)

  // ---------- steps ----------

  /** `aff_prog_waiting_new`, for the event `a` that has been popped; the event is freed. */
  function WaitingNew(x: Exec, a: U64): Exec
    requires a in x.mem
  {
    x.(waiting_nr := x.waiting_nr - 1, pnew := x.pnew + [x.mem[a].prog], new_nr := x.new_nr + 1, mem := x.mem - {a})
  }

  /** `qt_event.tv = qt + now` */
  function Rescheduled(mem: Memory, qt: Timeval, now: Timeval): Memory
    requires QT in mem
  {
    mem[QT := mem[QT].(tv := Plus(qt, now))]
  }

  lemma RescheduledAt(mem: Memory, qt: Timeval, now: Timeval)
    requires QT in mem
    ensures Rescheduled(mem, qt, now) == mem[QT := mem[QT].(tv := Plus(qt, now))]
  {
  }

  /** `linux_qexpired`; the policy kills the programs `kills`. */
  function Expire(x: Exec, qt: Timeval, now: Timeval, kills: set<U64>): Exec
    requires QT in x.mem
  {
    var mem := Rescheduled(x.mem, qt, now);
    x.(mem := mem, h := HeapOrder.Push(EventLeq(mem), x.h, QT),
       killed := x.killed + kills, progs_left := x.progs_left - |kills|)
  }

  /** The root of the heap is popped and handled. */
  function Handled(x: Exec, qt: Timeval, now: Timeval, kills: set<U64>): Exec
    requires x.h != [] && x.h[0] in x.mem
  {
    var a := x.h[0];
    var y := x.(h := HeapOrder.PopAt(EventLeq(x.mem), x.h, 0));
    match x.mem[a].kind
    case NEWPROG => WaitingNew(y, a)
    case QEXPIRED => if a == QT then Expire(y, qt, now, kills) else y
    case SAMPLING => y
  }

  /** The first loop of `linux_rebalance`: a new program runs. */
  function NewRunning(x: Exec): Exec
    requires x.pnew != [] && x.pnew[0] in x.info
  {
    var p := x.pnew[0];
    x.(pnew := x.pnew[1..], listed := x.listed + [p], progs_nr := x.progs_nr + 1, killed := x.killed - {p},
       new_nr := x.new_nr - 1, running_nr := x.running_nr + 1, hash := x.hash[x.info[p].pid := p])
  }

  /** `cds_list_del`, for a list of distinct addresses. */
  function Deleted(s: seq<U64>, p: U64): seq<U64> {
    if s == [] then [] else if s[0] == p then s[1..] else [s[0]] + Deleted(s[1..], p)
  }

  /** `aff_prog_running_finished` */
  function RunningFinished(x: Exec, pid: U64): Exec
    requires pid in x.hash
  {
    var p := x.hash[pid];
    x.(hash := x.hash - {pid}, running_nr := x.running_nr - 1, listed := Deleted(x.listed, p),
       pfinished := x.pfinished + [p], finished_nr := x.finished_nr + 1)
  }

  /** `prog_respawn` */
  function Respawn(x: Exec, id: int, f: Fork): Exec
  {
    var mem := x.mem[f.evnt := Event(NEWPROG, Timeval(f.now.sec, 0), f.prog)];
    x.(mem := mem, h := HeapOrder.Push(EventLeq(mem), x.h, f.evnt), info := x.info[f.prog := Info(id, f.pid)],
       waiting_nr := x.waiting_nr + 1)
  }

  /** The second loop of `linux_rebalance`: a program that has finished is started again or not, and freed. */
  function Buried(x: Exec, f: Fork): Exec
    requires x.pfinished != [] && x.pfinished[0] in x.info && x.times != []
  {
    var p := x.pfinished[0];
    var y := x.(pfinished := x.pfinished[1..], progs_nr := x.progs_nr - 1);
    var z :=
      if p in x.killed then y
      else
        var i := Instances.Slot(x.info[p].id, |x.times|);
        var t := y.(times := x.times[i := x.times[i] - 1.0]);
        if t.times[i] == 0.0 then t.(progs_left := t.progs_left - 1)
        else Respawn(t, |x.times| + x.info[p].id, f);
    z.(info := z.info - {p})
  }

  // ---------- the invariant ----------

  /** The programs that wait for their event. */
  ghost function Waiting(mem: Memory, h: seq<U64>): multiset<U64> {
    if h == [] then multiset{} else Waiting(mem, h[..|h| - 1]) + WaitingFor(mem, h[|h| - 1])
  }

  ghost function WaitingFor(mem: Memory, a: U64): multiset<U64> {
    if a in mem && mem[a].kind == NEWPROG then multiset{mem[a].prog} else multiset{}
  }

  /** The heap holds the quantum's event once, and otherwise only new programs. */
  ghost predicate EventsOk(x: Exec) {
    && Queue(x.mem, x.h)
    && (QT in x.mem && x.mem[QT].kind == QEXPIRED && QT in x.h)
    && forall a :: a in x.h && a != QT ==> x.mem[a].kind == NEWPROG
  }

  ghost predicate Counted(x: Exec) {
    && x.waiting_nr == |Waiting(x.mem, x.h)|
    && x.new_nr == |x.pnew|
    && x.running_nr == |x.hash| == |x.listed|
    && x.progs_nr == |x.listed| + |x.pfinished|
  }

  /** Every program in memory is in exactly one of the four states. */
  ghost predicate Census(x: Exec) {
    Waiting(x.mem, x.h) + multiset(x.pnew) + multiset(x.listed) + multiset(x.pfinished) == multiset(x.info.Keys)
  }

  /** The hash leads from the pids to the running programs. */
  ghost predicate HashOk(x: Exec) {
    && (forall p :: p in x.listed ==> p in x.info && x.info[p].pid in x.hash && x.hash[x.info[p].pid] == p)
    && (forall k :: k in x.hash ==> x.hash[k] in x.listed && x.info[x.hash[k]].pid == k)
  }

  /** A process that has not been waited for. */
  ghost predicate Alive(x: Exec, p: U64) {
    p in x.info && p !in x.pfinished
  }

  /** The system gives different pids to processes that exist together. */
  ghost predicate PidsOk(x: Exec) {
    && (forall p, q :: Alive(x, p) && Alive(x, q) && p != q ==> x.info[p].pid != x.info[q].pid)
    && Hashes.NOT_FOUND !in x.info
  }

  ghost predicate Inv(x: Exec) {
    EventsOk(x) && Counted(x) && Census(x) && HashOk(x) && PidsOk(x) && x.times != []
  }

  // ---------- the programs that wait ----------

  lemma WaitingGrows(mem: Memory, h: seq<U64>, a: U64)
    ensures Waiting(mem, h + [a]) == Waiting(mem, h) + WaitingFor(mem, a)
  {
    assert (h + [a])[..|h|] == h;
  }

  lemma Exchange<T>(a: multiset<T>, b: multiset<T>, c: multiset<T>)
    ensures a + b + c == a + c + b
  {
  }

  lemma {:induction false} WaitingWithout(mem: Memory, h: seq<U64>, k: nat)
    requires k < |h|
    ensures Waiting(mem, h) == Waiting(mem, Without(h, k)) + WaitingFor(mem, h[k])
    decreases |h|
  {
    hide Waiting, WaitingFor;
    var n := |h| - 1;
    assert h == h[..n] + [h[n]];
    WaitingGrows(mem, h[..n], h[n]);
    if k == n {
      assert Without(h, k) == h[..n];
    } else {
      WaitingWithout(mem, h[..n], k);
      assert Without(h, k) == Without(h[..n], k) + [h[n]];
      WaitingGrows(mem, Without(h[..n], k), h[n]);
      Exchange(Waiting(mem, Without(h[..n], k)), WaitingFor(mem, h[k]), WaitingFor(mem, h[n]));
    }
  }

  lemma {:induction false} WaitingPerm(mem: Memory, h: seq<U64>, r: seq<U64>)
    requires multiset(h) == multiset(r)
    ensures Waiting(mem, h) == Waiting(mem, r)
    decreases |h|
  {
    hide Waiting, WaitingFor;
    if h == [] {
      assert |multiset(r)| == 0;
    } else {
      assert h[0] in multiset(r);
      var k :| 0 <= k < |r| && r[k] == h[0];
      TakeFrom(h, 0);
      TakeFrom(r, k);
      Cancel(multiset(Without(h, 0)), multiset(Without(r, k)), multiset{h[0]});
      WaitingPerm(mem, Without(h, 0), Without(r, k));
      WaitingWithout(mem, h, 0);
      WaitingWithout(mem, r, k);
    }
  }

  lemma WaitingTaken(mem: Memory, h: seq<U64>, r: seq<U64>, a: U64)
    requires multiset(r) + multiset{a} == multiset(h)
    ensures Waiting(mem, h) == Waiting(mem, r) + WaitingFor(mem, a)
  {
    assert multiset(r + [a]) == multiset(h);
    WaitingPerm(mem, h, r + [a]);
    WaitingGrows(mem, r, a);
  }

  lemma {:induction false} WaitingAlike(mem: Memory, mem': Memory, h: seq<U64>)
    requires forall a :: a in h ==> WaitingFor(mem, a) == WaitingFor(mem', a)
    ensures Waiting(mem, h) == Waiting(mem', h)
  {
    hide WaitingFor;
    if h != [] {
      WaitingAlike(mem, mem', h[..|h| - 1]);
      assert h[|h| - 1] in h;
    }
  }

  // ---------- an event is handled ----------

  lemma NewEvents(x: Exec, y: Exec)
    requires EventsOk(x) && x.h != [] && x.h[0] != QT
    requires y.h == HeapOrder.PopAt(EventLeq(x.mem), x.h, 0) && y.mem == x.mem - {x.h[0]}
    ensures x.h[0] in x.mem && EventsOk(y)
    ensures Waiting(x.mem, x.h) == Waiting(y.mem, y.h) + multiset{x.mem[x.h[0]].prog}
  {
    hide Queue, HeapOrder.PopAt;
    var a := x.h[0];
    QueueIn(x.mem, x.h);
    QueuePop(x.mem, x.h, y.mem);
    WaitingTaken(x.mem, x.h, y.h, a);
    WaitingAlike(x.mem, y.mem, y.h);
  }

  lemma QueueIn(mem: Memory, h: seq<U64>)
    requires Queue(mem, h)
    ensures forall a :: a in h ==> a in mem
    ensures h != [] ==> h[0] in h
  {
  }

  lemma RescheduledIs(mem: Memory, qt: Timeval, now: Timeval)
    requires QT in mem && Normal(qt) && Normal(now)
    ensures
      var mem' := Rescheduled(mem, qt, now);
      && QT in mem' && mem'[QT].kind == mem[QT].kind && Normal(mem'[QT].tv)
      && Micros(mem'[QT].tv) == Micros(qt) + Micros(now)
      && (forall a :: a in mem <==> a in mem') && (forall a :: a in mem && a != QT ==> mem'[a] == mem[a])
  {
    hide Micros;
    TimesAreNumbers(qt, now);
  }

  /** The quantum's event goes back into the heap with its new time. */
  lemma QuantumEvents(x: Exec, y: Exec, qt: Timeval, now: Timeval)
    requires EventsOk(x) && x.h[0] == QT && Normal(qt) && Normal(now)
    requires y.mem == Rescheduled(x.mem, qt, now)
    requires y.h == HeapOrder.Push(EventLeq(y.mem), HeapOrder.PopAt(EventLeq(x.mem), x.h, 0), QT)
    ensures EventsOk(y) && Waiting(y.mem, y.h) == Waiting(x.mem, x.h) && multiset(y.h) == multiset(x.h)
  {
    hide Queue, HeapOrder.PopAt, HeapOrder.Push, Rescheduled, Normal;
    var r := HeapOrder.PopAt(EventLeq(x.mem), x.h, 0);
    RescheduledIs(x.mem, qt, now);
    QueueIn(x.mem, x.h);
    QueuePop(x.mem, x.h, y.mem);
    QueuePush(y.mem, r, QT);
    WaitingPerm(x.mem, x.h, y.h);
    WaitingAlike(x.mem, y.mem, y.h);
  }

  lemma QueueHead(x: Exec)
    requires EventsOk(x)
    ensures x.h != [] && x.h[0] in x.mem && (x.h[0] != QT ==> x.mem[x.h[0]].kind == NEWPROG)
  {
    assert x.h[0] in x.h;
  }

  lemma NewProgInv(x: Exec, y: Exec)
    requires EventsOk(x) && Counted(x) && Census(x) && x.h[0] != QT && x.h[0] in x.mem
    requires y == WaitingNew(x, x.h[0]).(h := HeapOrder.PopAt(EventLeq(x.mem), x.h, 0))
    ensures EventsOk(y) && Counted(y) && Census(y)
  {
    hide Queue, HeapOrder.PopAt, Waiting, EventsOk, Census;
    QueueHead(x);
    NewEvents(x, y);
    CensusIs(x);
    CensusIs(y);
    var p := x.mem[x.h[0]].prog;
    Append(x.pnew, p);
    Across(Waiting(y.mem, y.h), multiset(x.pnew), multiset{p}, multiset{});
    Pass(Waiting(y.mem, y.h), multiset(x.pnew), multiset{p});
  }

  /** An element passes from one part of a sum to the next. */
  lemma Pass<T>(a: multiset<T>, b: multiset<T>, x: multiset<T>)
    ensures a + x + b == a + (b + x)
  {
  }

  lemma QuantumInv(x: Exec, y: Exec, qt: Timeval, now: Timeval, kills: set<U64>)
    requires EventsOk(x) && Counted(x) && Census(x) && x.h[0] == QT && QT in x.mem && Normal(qt) && Normal(now)
    requires y == Expire(x.(h := HeapOrder.PopAt(EventLeq(x.mem), x.h, 0)), qt, now, kills)
    ensures EventsOk(y) && Counted(y) && Census(y)
  {
    hide Queue, HeapOrder.PopAt, HeapOrder.Push, Rescheduled, Normal, Waiting, EventsOk, Census;
    QuantumEvents(x, y, qt, now);
    CensusIs(x);
    CensusIs(y);
  }

  lemma HandledInv(x: Exec, qt: Timeval, now: Timeval, kills: set<U64>)
    requires Inv(x) && Normal(qt) && Normal(now)
    ensures x.h != [] && x.h[0] in x.mem && Inv(Handled(x, qt, now, kills))
  {
    hide Queue, HeapOrder.PopAt, HeapOrder.Push, Rescheduled, Normal, HashOk, EventsOk, Census, Counted, PidsOk;
    QueueHead(x);
    var y := Handled(x, qt, now, kills);
    SameProcesses(x, y);
    if x.h[0] == QT {
      IsQuantum(x);
      QuantumInv(x, y, qt, now, kills);
    } else {
      NewProgInv(x, y);
    }
  }

  lemma IsQuantum(x: Exec)
    requires EventsOk(x)
    ensures QT in x.mem && x.mem[QT].kind == QEXPIRED
  {
  }

  lemma SameProcesses(x: Exec, y: Exec)
    requires y.info == x.info && y.pfinished == x.pfinished && y.listed == x.listed && y.hash == x.hash
    ensures HashOk(x) ==> HashOk(y)
    ensures PidsOk(x) ==> PidsOk(y)
  {
  }

  lemma CensusIs(x: Exec)
    ensures Census(x) <==>
            Waiting(x.mem, x.h) + multiset(x.pnew) + multiset(x.listed) + multiset(x.pfinished) == multiset(x.info.Keys)
  {
  }

  // ---------- a new program runs ----------

  /** Each program is in one list, once. */
  lemma CensusOnce(x: Exec, p: U64)
    requires Census(x)
    ensures Waiting(x.mem, x.h)[p] + multiset(x.pnew)[p] + multiset(x.listed)[p] + multiset(x.pfinished)[p]
            == if p in x.info then 1 else 0
  {
    hide Waiting;
    assert multiset(x.info.Keys)[p] == if p in x.info then 1 else 0;
  }

  lemma InList(s: seq<U64>, p: U64)
    ensures p in s <==> multiset(s)[p] >= 1
  {
    assert p in s <==> p in multiset(s);
  }

  lemma MapGrows(m: map<U64, U64>, k: U64, v: U64)
    requires k !in m
    ensures |m[k := v]| == |m| + 1
  {
    assert m[k := v].Keys == m.Keys + {k};
  }

  lemma MapShrinks(m: map<U64, U64>, k: U64)
    requires k in m
    ensures |m - {k}| == |m| - 1
  {
    assert (m - {k}).Keys == m.Keys - {k};
  }

  lemma FirstNew(x: Exec)
    requires Census(x) && x.pnew != []
    ensures x.pnew[0] in x.info && x.pnew[0] !in x.listed && Alive(x, x.pnew[0])
    ensures forall p :: p in x.listed ==> Alive(x, p)
  {
    hide Census, Waiting;
    var p := x.pnew[0];
    CensusOnce(x, p);
    InList(x.pnew, p);
    InList(x.listed, p);
    InList(x.pfinished, p);
    ListedAlive(x);
  }

  lemma ListedAlive(x: Exec)
    requires Census(x)
    ensures forall p :: p in x.listed ==> Alive(x, p) && p !in x.pnew && multiset(x.listed)[p] == 1
  {
    hide Census, Waiting;
    forall p | p in x.listed
      ensures Alive(x, p) && p !in x.pnew && multiset(x.listed)[p] == 1
    {
      CensusOnce(x, p);
      InList(x.pnew, p);
      InList(x.listed, p);
      InList(x.pfinished, p);
    }
  }

  lemma NewRunningHash(x: Exec)
    requires Census(x) && HashOk(x) && PidsOk(x) && x.pnew != []
    ensures x.pnew[0] in x.info && x.info[x.pnew[0]].pid !in x.hash && HashOk(NewRunning(x)) && PidsOk(NewRunning(x))
  {
    hide Census;
    FirstNew(x);
    var p := x.pnew[0];
    var k := x.info[p].pid;
    var y := NewRunning(x);
    assert k !in x.hash;
    assert forall q :: q in y.listed <==> q in x.listed || q == p;
    assert forall q :: Alive(y, q) <==> Alive(x, q);
    forall q | q in y.listed
      ensures q in y.info && y.info[q].pid in y.hash && y.hash[y.info[q].pid] == q
    {
    }
  }

  lemma NewRunningInv(x: Exec)
    requires Inv(x) && x.pnew != []
    ensures x.pnew[0] in x.info && Inv(NewRunning(x))
  {
    hide Census, HashOk, PidsOk, Waiting, Queue;
    NewRunningHash(x);
    var p := x.pnew[0];
    var y := NewRunning(x);
    MapGrows(x.hash, x.info[p].pid, p);
    CensusIs(x);
    CensusIs(y);
    assert x.pnew == [p] + x.pnew[1..];
    assert multiset(x.pnew) == multiset{p} + multiset(x.pnew[1..]);
  }

  // ---------- a program ends ----------

  lemma {:induction false} DeletedPerm(s: seq<U64>, p: U64)
    ensures p in s ==> multiset(Deleted(s, p)) + multiset{p} == multiset(s) && |Deleted(s, p)| == |s| - 1
    ensures p !in s ==> Deleted(s, p) == s
    decreases |s|
  {
    if s != [] && s[0] != p {
      DeletedPerm(s[1..], p);
      assert s == [s[0]] + s[1..];
      assert multiset(s) == multiset{s[0]} + multiset(s[1..]);
    } else if s != [] {
      assert s == [s[0]] + s[1..];
    }
  }

  lemma {:induction false} DeletedAt(s: seq<U64>, p: U64, k: nat)
    requires k < |s| && s[k] == p && p !in s[..k]
    ensures Deleted(s, p) == s[..k] + s[k + 1..]
    decreases k
  {
    if k > 0 {
      assert s[0] == s[..k][0];
      assert s[1..][..k - 1] == s[..k][1..];
      DeletedAt(s[1..], p, k - 1);
      assert s[..k] + s[k + 1..] == [s[0]] + (s[1..][..k - 1] + s[1..][k..]);
    }
  }

  lemma DeletedIn(s: seq<U64>, p: U64)
    requires p in s && multiset(s)[p] == 1
    ensures forall q :: q in Deleted(s, p) <==> q in s && q != p
  {
    hide Deleted;
    DeletedPerm(s, p);
    var r := Deleted(s, p);
    forall q
      ensures q in r <==> q in s && q != p
    {
      InList(r, q);
      InList(s, q);
      assert multiset(s)[q] == multiset(r)[q] + if q == p then 1 else 0;
    }
  }

  lemma RunningFinishedHash(x: Exec, pid: U64)
    requires Census(x) && HashOk(x) && PidsOk(x) && pid in x.hash
    ensures HashOk(RunningFinished(x, pid)) && PidsOk(RunningFinished(x, pid))
    ensures x.hash[pid] in x.listed
  {
    hide Census, Deleted;
    var p := x.hash[pid];
    var y := RunningFinished(x, pid);
    ListedAlive(x);
    DeletedIn(x.listed, p);
    assert forall q :: Alive(y, q) ==> Alive(x, q);
    forall q | q in y.listed
      ensures q in y.info && y.info[q].pid in y.hash && y.hash[y.info[q].pid] == q
    {
      assert Alive(x, q) && Alive(x, p);
    }
  }

  lemma RunningFinishedInv(x: Exec, pid: U64)
    requires Inv(x) && pid in x.hash
    ensures Inv(RunningFinished(x, pid))
  {
    hide Census, HashOk, PidsOk, Waiting, Queue, Deleted;
    RunningFinishedHash(x, pid);
    var p := x.hash[pid];
    var y := RunningFinished(x, pid);
    MapShrinks(x.hash, pid);
    DeletedPerm(x.listed, p);
    CensusIs(x);
    CensusIs(y);
    Append(x.pfinished, p);
    Pass(Waiting(x.mem, x.h) + multiset(x.pnew) + multiset(y.listed), multiset(x.pfinished), multiset{p});
    Joined(Waiting(x.mem, x.h) + multiset(x.pnew), multiset(y.listed), multiset{p});
  }

  lemma Joined<T>(a: multiset<T>, b: multiset<T>, x: multiset<T>)
    ensures a + (b + x) == a + b + x
  {
  }

  // ---------- a finished program is started again, and freed ----------

  ghost predicate ForkOk(x: Exec, f: Fork) {
    && f.evnt !in x.mem && f.prog !in x.info && f.prog != Hashes.NOT_FOUND
    && forall p :: Alive(x, p) ==> x.info[p].pid != f.pid
  }

  lemma RespawnEvents(x: Exec, id: int, f: Fork)
    requires EventsOk(x) && ForkOk(x, f)
    ensures
      var y := Respawn(x, id, f);
      EventsOk(y) && Waiting(y.mem, y.h) == Waiting(x.mem, x.h) + multiset{f.prog}
  {
    hide Queue, HeapOrder.Push, Normal, Waiting, WaitingFor;
    var y := Respawn(x, id, f);
    QueueIn(x.mem, x.h);
    IsNormal(f.now.sec);
    QueueMore(x.mem, x.h, f.evnt, y.mem[f.evnt]);
    QueuePush(y.mem, x.h, f.evnt);
    ForNew(y.mem, f.evnt);
    AlikeBut(x.mem, y.mem, x.h, f.evnt);
    WaitingTaken(y.mem, y.h, x.h, f.evnt);
  }

  lemma IsNormal(sec: int)
    ensures Normal(Timeval(sec, 0))
  {
  }

  lemma QueueMore(mem: Memory, h: seq<U64>, a: U64, e: Event)
    requires Queue(mem, h) && a !in mem
    ensures Queue(mem[a := e], h)
  {
    hide HeapOrder.Ordered, EventLeq, Distinct;
    OrderedAlike(mem, mem[a := e], h);
  }

  lemma KeysGrow(m: map<U64, Info>, k: U64, v: Info)
    requires k !in m
    ensures multiset(m[k := v].Keys) == multiset(m.Keys) + multiset{k}
  {
    assert m[k := v].Keys == m.Keys + {k};
  }

  lemma KeysShrink(m: map<U64, Info>, k: U64)
    requires k in m
    ensures multiset(m.Keys) == multiset((m - {k}).Keys) + multiset{k}
  {
    assert (m - {k}).Keys == m.Keys - {k};
  }

  lemma FirstFinished(x: Exec)
    requires Census(x) && x.pfinished != []
    ensures x.pfinished[0] in x.info && x.pfinished[0] !in x.listed && x.pfinished[0] !in x.pfinished[1..]
    ensures forall p :: p in x.listed ==> p in x.info
  {
    hide Census, Waiting;
    var p := x.pfinished[0];
    CensusOnce(x, p);
    InList(x.listed, p);
    InList(x.pfinished, p);
    assert x.pfinished == [p] + x.pfinished[1..];
    assert multiset(x.pfinished)[p] == 1 + multiset(x.pfinished[1..])[p];
    InList(x.pfinished[1..], p);
    ListedAlive(x);
  }

  /** The finished program is freed. */
  lemma FreedOk(x: Exec, y: Exec)
    requires Census(x) && HashOk(x) && PidsOk(x) && x.pfinished != [] && x.pfinished[0] in x.info
    requires y.pfinished == x.pfinished[1..] && y.info == x.info - {x.pfinished[0]}
    requires y.listed == x.listed && y.hash == x.hash
    ensures HashOk(y) && PidsOk(y)
  {
    hide Census;
    FirstFinished(x);
    assert forall q :: Alive(y, q) ==> Alive(x, q);
  }

  lemma ForkedOk(x: Exec, y: Exec, id: int, f: Fork)
    requires Census(x) && HashOk(x) && PidsOk(x) && ForkOk(x, f)
    requires y.info == x.info[f.prog := Info(id, f.pid)]
    requires y.listed == x.listed && y.hash == x.hash && y.pfinished == x.pfinished
    ensures HashOk(y) && PidsOk(y)
  {
    hide Census;
    ListedAlive(x);
    assert forall q :: Alive(y, q) ==> Alive(x, q) || q == f.prog;
  }

  lemma RespawnInv(x: Exec, id: int, f: Fork)
    requires Inv(x) && ForkOk(x, f)
    ensures Inv(Respawn(x, id, f))
  {
    hide Census, HashOk, PidsOk, Waiting, EventsOk, ForkOk, HeapOrder.Push;
    var y := Respawn(x, id, f);
    RespawnEvents(x, id, f);
    ForkedOk(x, y, id, f);
    NotYet(x, f);
    KeysGrow(x.info, f.prog, Info(id, f.pid));
    CensusIs(x);
    CensusIs(y);
    Pulled(Waiting(x.mem, x.h), multiset{f.prog}, multiset(x.pnew), multiset(x.listed), multiset(x.pfinished));
  }

  lemma NotYet(x: Exec, f: Fork)
    requires ForkOk(x, f)
    ensures f.prog !in x.info && (forall p :: p in x.info ==> f.prog != p)
  {
  }

  lemma Pulled<T>(a: multiset<T>, x: multiset<T>, b: multiset<T>, c: multiset<T>, d: multiset<T>)
    ensures a + x + b + c + d == a + b + c + d + x
  {
  }

  /** The first finished program is taken from its list and freed. */
  function Freed(x: Exec): Exec
    requires x.pfinished != []
  {
    x.(pfinished := x.pfinished[1..], progs_nr := x.progs_nr - 1, info := x.info - {x.pfinished[0]})
  }

  lemma FreedInv(x: Exec)
    requires Inv(x) && x.pfinished != []
    ensures Inv(Freed(x))
  {
    hide Census, HashOk, PidsOk, Waiting, EventsOk;
    var y := Freed(x);
    FirstFinished(x);
    SameEvents(x, y);
    FreedOk(x, y);
    var p := x.pfinished[0];
    KeysShrink(x.info, p);
    CensusIs(x);
    CensusIs(y);
    assert x.pfinished == [p] + x.pfinished[1..];
    assert multiset(x.pfinished) == multiset{p} + multiset(y.pfinished);
    var rest := Waiting(x.mem, x.h) + multiset(x.pnew) + multiset(x.listed);
    Pass(rest, multiset(y.pfinished), multiset{p});
    Exchange(rest, multiset{p}, multiset(y.pfinished));
    Cancel(rest + multiset(y.pfinished), multiset(y.info.Keys), multiset{p});
  }

  lemma SameEvents(x: Exec, y: Exec)
    requires y.mem == x.mem && y.h == x.h
    ensures EventsOk(x) ==> EventsOk(y)
  {
  }

  /** The targets and the number of programs left play no part in the invariant. */
  lemma Targets(x: Exec, times: seq<real>, left: int)
    requires Inv(x) && times != []
    ensures Inv(x.(times := times, progs_left := left))
  {
    hide Waiting;
  }

  lemma BuriedInv(x: Exec, f: Fork)
    requires Inv(x) && x.pfinished != [] && ForkOk(x, f)
    ensures x.pfinished[0] in x.info && Inv(Buried(x, f))
  {
    hide Census, HashOk, PidsOk, Waiting, EventsOk, Counted, ForkOk, HeapOrder.Push;
    var p := x.pfinished[0];
    FirstFinished(x);
    var y := Buried(x, f);
    if p in x.killed {
      FreedInv(x);
    } else {
      NotYet(x, f);
      Targets(x, y.times, y.progs_left);
      var t := x.(times := y.times, progs_left := y.progs_left);
      BuriedIs(x, f);
      FreedInv(t);
      Fits(x, t, f);
      RespawnInv(t, |x.times| + x.info[p].id, f);
      FreedInv(Respawn(t, |x.times| + x.info[p].id, f));
    }
  }

  lemma Fits(x: Exec, t: Exec, f: Fork)
    requires ForkOk(x, f) && t.mem == x.mem && t.info == x.info && t.pfinished == x.pfinished
    ensures ForkOk(t, f)
  {
    assert forall q :: Alive(t, q) ==> Alive(x, q);
  }

  lemma BuriedIs(x: Exec, f: Fork)
    requires x.pfinished != [] && x.pfinished[0] in x.info && x.times != [] && x.pfinished[0] !in x.killed
    requires f.prog != x.pfinished[0]
    ensures
      var y := Buried(x, f);
      var t := x.(times := y.times, progs_left := y.progs_left);
      y.times != [] && (y == Freed(t) || y == Freed(Respawn(t, |x.times| + x.info[x.pfinished[0]].id, f)))
  {
    hide Instances.Slot, HeapOrder.Push;
  }

  // ---------- the quantum is reset while its event is in the heap ----------

  /** The index of `qt_event`, the first one if there were several. */
  function IndexOf(h: seq<U64>, a: U64): (k: nat)
    requires a in h
    ensures k < |h| && h[k] == a && a !in h[..k]
  {
    if h[0] == a then 0 else 1 + IndexOf(h[1..], a)
  }

  /** The main loop gives the quantum a new start: the key changes first, then the event is moved. */
  function Reset(x: Exec, qt: Timeval, now: Timeval): Exec
    requires QT in x.mem && QT in x.h
  {
    var mem := Rescheduled(x.mem, qt, now);
    x.(mem := mem, h := HeapOrder.Push(EventLeq(mem), HeapOrder.PopAt(EventLeq(mem), x.h, IndexOf(x.h, QT)), QT))
  }

  /** The quantum does not end later than a quantum from `clock` on. */
  ghost predicate InQuantum(x: Exec, qt: Timeval, clock: Timeval) {
    QT in x.mem && Micros(x.mem[QT].tv) <= Micros(clock) + Micros(qt)
  }

  lemma RaisedTime(mem: Memory, mem': Memory, a: U64)
    requires QT in mem && QT in mem' && !Later(mem[QT].tv, mem'[QT].tv) && TimeOf(mem', a) == TimeOf(mem, a)
    requires EventLeq(mem)(a, QT)
    ensures EventLeq(mem')(a, QT)
  {
  }

  lemma ResetOrder(mem: Memory, mem': Memory, h: seq<U64>, k: nat)
    requires QT in mem && QT in mem' && !Later(mem[QT].tv, mem'[QT].tv)
    requires forall a :: a != QT ==> TimeOf(mem', a) == TimeOf(mem, a)
    requires Queue(mem, h) && k < |h| && h[k] == QT
    ensures
      var r := HeapOrder.Push(EventLeq(mem'), HeapOrder.PopAt(EventLeq(mem'), h, k), QT);
      HeapOrder.Ordered(EventLeq(mem'), r) && multiset(r) == multiset(h)
  {
    hide Later, HeapOrder.Push, HeapOrder.PopAt, HeapOrder.Ordered, HeapOrder.LostBelow;
    forall a | EventLeq(mem)(a, QT)
      ensures EventLeq(mem')(a, QT)
    {
      if a == QT {
        EventOrder(mem');
      } else {
        RaisedTime(mem, mem', a);
      }
    }
    EventOrder(mem);
    EventOrder(mem');
    HeapOrder.RaisedKey(QT, EventLeq(mem), EventLeq(mem'), h, k);
    HeapOrder.ResetKey(QT, EventLeq(mem), EventLeq(mem'), h, k);
  }

  lemma SameMembers(h: seq<U64>, r: seq<U64>)
    requires multiset(h) == multiset(r)
    ensures Distinct(h) <==> Distinct(r)
    ensures forall a :: a in h <==> a in r
  {
    DistinctOnce(h);
    DistinctOnce(r);
    forall a
      ensures a in h <==> a in r
    {
      InList(h, a);
      InList(r, a);
    }
  }

  /** Resetting the quantum keeps the heap a heap and loses no event: time does not go back, so the key is raised. */
  lemma ResetInv(x: Exec, qt: Timeval, clock: Timeval, now: Timeval)
    requires Inv(x) && InQuantum(x, qt, clock) && Normal(qt) && Normal(now) && Micros(clock) <= Micros(now)
    ensures QT in x.h && QT in x.mem
    ensures
      var y := Reset(x, qt, now);
      Inv(y) && InQuantum(y, qt, now) && multiset(y.h) == multiset(x.h)
  {
    hide Micros, Later, Rescheduled, Waiting, Normal, Census, Distinct, HashOk, PidsOk;
    hide HeapOrder.Push, HeapOrder.PopAt, HeapOrder.Ordered;
    var y := Reset(x, qt, now);
    RescheduledIs(x.mem, qt, now);
    TimesAreNumbers(x.mem[QT].tv, y.mem[QT].tv);
    ResetOrder(x.mem, y.mem, x.h, IndexOf(x.h, QT));
    SameMembers(x.h, y.h);
    WaitingPerm(x.mem, x.h, y.h);
    WaitingAlike(x.mem, y.mem, y.h);
    CensusIs(x);
    CensusIs(y);
    SameProcesses(x, y);
  }

  // ---------- the beginning ----------

  /** The invariant while the configuration file is read: the quantum's event is not in the heap yet. */
  ghost predicate Loading(x: Exec) {
    && Queue(x.mem, x.h) && QT in x.mem && x.mem[QT].kind == QEXPIRED && Normal(x.mem[QT].tv) && QT !in x.h
    && (forall a :: a in x.h ==> x.mem[a].kind == NEWPROG)
    && Counted(x) && Census(x) && HashOk(x) && PidsOk(x) && x.times != []
  }

  function Empty(qt: Timeval, times: seq<real>, left: int): Exec {
    Exec([], map[QT := Event(QEXPIRED, qt, 0)], [], [], [], map[], map[], {}, 0, 0, 0, 0, 0, left, times)
  }

  lemma EmptyLoading(qt: Timeval, times: seq<real>, left: int)
    requires Normal(qt) && times != []
    ensures Loading(Empty(qt, times, left))
  {
  }

  /** A line of the configuration file is read and its program forked: `parse_file`. */
  lemma LoadMore(x: Exec, id: int, f: Fork)
    requires Loading(x) && ForkOk(x, f)
    ensures Loading(Respawn(x, id, f))
  {
    hide Census, HashOk, PidsOk, Waiting, Queue, HeapOrder.Push, Normal, WaitingFor;
    var y := Respawn(x, id, f);
    QueueIn(x.mem, x.h);
    IsNormal(f.now.sec);
    QueueMore(x.mem, x.h, f.evnt, y.mem[f.evnt]);
    QueuePush(y.mem, x.h, f.evnt);
    assert WaitingFor(y.mem, f.evnt) == multiset{f.prog} by { ForNew(y.mem, f.evnt); }
    AlikeBut(x.mem, y.mem, x.h, f.evnt);
    WaitingTaken(y.mem, y.h, x.h, f.evnt);
    ForkedOk(x, y, id, f);
    KeysGrow(x.info, f.prog, Info(id, f.pid));
    CensusIs(x);
    CensusIs(y);
    Pulled(Waiting(x.mem, x.h), multiset{f.prog}, multiset(x.pnew), multiset(x.listed), multiset(x.pfinished));
  }

  lemma ForNew(mem: Memory, a: U64)
    requires a in mem && mem[a].kind == NEWPROG
    ensures WaitingFor(mem, a) == multiset{mem[a].prog}
  {
  }

  lemma AlikeBut(mem: Memory, mem': Memory, h: seq<U64>, a: U64)
    requires a !in h && forall b :: b in h ==> b in mem && b in mem' && mem[b] == mem'[b]
    ensures Waiting(mem, h) == Waiting(mem', h)
  {
    WaitingAlike(mem, mem', h);
  }

  /** `linux_init` pushes the quantum's event: from then on the invariant holds. */
  lemma LoadedInv(x: Exec)
    requires Loading(x)
    ensures Inv(x.(h := HeapOrder.Push(EventLeq(x.mem), x.h, QT)))
  {
    hide Census, HashOk, PidsOk, Waiting, Queue, HeapOrder.Push, Normal;
    var y := x.(h := HeapOrder.Push(EventLeq(x.mem), x.h, QT));
    QueuePush(x.mem, x.h, QT);
    WaitingTaken(x.mem, y.h, x.h, QT);
    SameProcesses(x, y);
    CensusIs(x);
    CensusIs(y);
  }
}
