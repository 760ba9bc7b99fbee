/**
 * Programs that finish before their target is reached are started again: a run of the scheduler as a
 * sequence of events, and what the instances of one program share.
 */
module Instances {
  import opened Machine
  import opened Programs
  import opened Seqs
  import opened Clocks
  import opened Quanta
  import opened Turns

  const ID_USER_OFFSET: int := 1000
  const RESPAWN_ABOVE: int := 1_000_000_000

  /** The fields of an `aff_prog_t` that `sched_prog_alloc` reads; the others it reads are zero in every instance. */
  datatype App = App(
    mem_needed: Class, thr_real: int, instr_retd_sum: U64, ideal_instr: U64, sum_mem_reads: U64, llc_alone: I32)

  /** An instance that has been forked and waits to be handed to the scheduler. */
  datatype Spawn = Spawn(id: int, app: App)

  /** The scheduler's state, the waiting instances, and the ids of all instances there have ever been. */
  datatype World = World(q: State, waiting: seq<Spawn>, created: seq<int>)

  // ---------- the steps ----------

  /** `(prog->id - ID_USER_OFFSET) % sched->progs_init` */
  function Slot(id: int, init: nat): (k: nat)
    requires init > 0
    ensures k < init
  {
    (if id >= ID_USER_OFFSET then id - ID_USER_OFFSET else 0) % init
  }

  /** `sched_add_prog`; `junk` is what the fresh memory holds. */
  function Added(x: Spawn, junk: ProgData, init: nat, now: int): Prog
    requires init > 0
  {
    Prog(x.id, Initial(Loaded(junk, x.app, Slot(x.id, init)), now))
  }

  function Loaded(junk: ProgData, app: App, slot: nat): ProgData {
    junk.(category := app.mem_needed, init_id := slot, ipc_alone := ToInt(app.thr_real), llc_alone := app.llc_alone,
          instr_retd_sum := app.instr_retd_sum, ideal_instr := app.ideal_instr, sum_mem_reads := app.sum_mem_reads,
          ratio := 0, mem_reads := 0)
  }

  /** The last accounting of a program that has finished. */
  function Ended(policy: Policy, pd: ProgData, r: Reading, now: int): ProgData {
    var a := Accounted(Measured(Updated(pd, now), r));
    if policy == PERF then a else Progressed(a, a.unh_cycles)
  }

  /** What a finished program hands to its successor. */
  function HandedOn(policy: Policy, pd: ProgData): App {
    App(pd.category, pd.ipc_alone, pd.instr_retd_sum, pd.ideal_instr,
        if policy == FAIR then 0 else pd.sum_mem_reads, if policy == FAIR then 0 else pd.llc_alone)
  }

  datatype Event =
    | Expiry(t: Tick)                                              // a quantum ends
    | Start(k: nat, junk: ProgData, now: int)                      // the k-th waiting instance is handed over
    | Finish(scheduled: bool, k: nat, r: Reading, now: int)        // the k-th program of a list has ended
    | Reaped                                                       // a killed program has ended

  function Deducted(target: seq<int>, slot: nat, r: Reading): (t: seq<int>)
    requires slot < |target|
    ensures |t| == |target|
  {
    target[slot := target[slot] - ToLong(r.instr_retd)]
  }

  /** The list that a finished program is taken from. */
  function List(q: State, scheduled: bool): seq<Prog> {
    if scheduled then q.sch else q.all
  }

  function Unlisted(q: State, scheduled: bool, k: nat): State
    requires k < |List(q, scheduled)|
  {
    if scheduled then q.(sch := Without(q.sch, k)) else q.(all := Without(q.all, k))
  }

  function Finished(policy: Policy, w: World, scheduled: bool, k: nat, r: Reading, now: int): World
    requires k < |List(w.q, scheduled)| && List(w.q, scheduled)[k].pd.init_id < |w.q.target|
  {
    var x := List(w.q, scheduled)[k];
    var target := Deducted(w.q.target, x.pd.init_id, r);
    var q := Unlisted(w.q, scheduled, k).(target := target, nr := w.q.nr - 1);
    if target[x.pd.init_id] > RESPAWN_ABOVE then
      var id := |target| + x.id;
      World(q, w.waiting + [Spawn(id, HandedOn(policy, Ended(policy, x.pd, r, now)))], w.created + [id])
    else w.(q := q)
  }

  function Launched(w: World, k: nat, junk: ProgData, now: int): World
    requires k < |w.waiting| && w.q.target != []
  {
    var q := w.q.(all := w.q.all + [Added(w.waiting[k], junk, |w.q.target|, now)], nr := w.q.nr + 1);
    w.(q := q, waiting := Without(w.waiting, k))
  }

  ghost predicate Step(policy: Policy, w: World, e: Event, w': World)
  {
    match e
    case Expiry(t) => Expires(policy, w.q, t, w'.q) && w' == w.(q := w'.q)
    case Start(k, junk, now) => k < |w.waiting| && w.q.target != [] && w' == Launched(w, k, junk, now)
    case Finish(scheduled, k, r, now) =>
      && k < |List(w.q, scheduled)| && List(w.q, scheduled)[k].pd.init_id < |w.q.target|
      && w' == Finished(policy, w, scheduled, k, r, now)
    case Reaped => w' == w.(q := w.q.(nr := w.q.nr - 1))
  }

  // ---------- instances ----------

  /** An instance that has not finished, whether it waits or is listed. */
  datatype Inst = Inst(id: int, slot: nat, sum: int)

  function Of(x: Prog): Inst {
    Inst(x.id, x.pd.init_id, x.pd.instr_retd_sum)
  }

  function OfSpawn(x: Spawn, init: nat): Inst
    requires init > 0
  {
    Inst(x.id, Slot(x.id, init), x.app.instr_retd_sum)
  }

  function Insts(s: seq<Prog>): (r: seq<Inst>)
    ensures |r| == |s| && forall i :: 0 <= i < |s| ==> r[i] == Of(s[i])
  {
    seq(|s|, i requires 0 <= i < |s| => Of(s[i]))
  }

  function Waits(s: seq<Spawn>, init: nat): (r: seq<Inst>)
    requires init > 0
    ensures |r| == |s| && forall i :: 0 <= i < |s| ==> r[i] == OfSpawn(s[i], init)
  {
    seq(|s|, i requires 0 <= i < |s| => OfSpawn(s[i], init))
  }

  ghost function Unfinished(w: World): multiset<Inst>
    requires w.q.target != []
  {
    multiset(Insts(w.q.all)) + multiset(Insts(w.q.sch)) + multiset(Waits(w.waiting, |w.q.target|))
  }

  /** No program has two unfinished instances. */
  ghost predicate OneEach(m: multiset<Inst>) {
    && (forall x, y :: x in m && y in m && x.slot == y.slot ==> x == y)
    && (forall x :: x in m ==> m[x] == 1)
  }

  /** What is left of the target and what the unfinished instance carries are together what there was. */
  ghost predicate Balanced(m: multiset<Inst>, target: seq<int>, start: seq<int>)
  {
    && |target| == |start|
    && forall x :: x in m ==> x.slot < |start| && AsU64(target[x.slot] + x.sum) == AsU64(start[x.slot])
  }

  /** The unfinished instance is the newest one of its program, and the program can be told from its id. */
  ghost predicate Newest(m: multiset<Inst>, created: seq<int>, init: nat)
    requires init > 0
  {
    && (forall x :: x in m ==> x.slot == Slot(x.id, init) && x.id in created)
    && (forall x, c :: x in m && c in created && Slot(c, init) == x.slot ==> c <= x.id)
    && (forall c :: c in created ==> c >= ID_USER_OFFSET)
    && (forall i, j :: 0 <= i < j < |created| ==> created[i] != created[j])
  }

  ghost predicate Fair(m: multiset<Inst>, target: seq<int>, start: seq<int>, created: seq<int>)
    requires start != []
  {
    OneEach(m) && Balanced(m, target, start) && Newest(m, created, |start|)
  }

  ghost predicate Sound(w: World, start: seq<int>) {
    start != [] && |w.q.target| == |start| && Fair(Unfinished(w), w.q.target, start, w.created)
  }

  // ---------- how the steps change the instances ----------

  lemma InstsAppend(s: seq<Prog>, t: seq<Prog>)
    ensures Insts(s + t) == Insts(s) + Insts(t)
  {
  }

  lemma InstsGrow(s: seq<Prog>, y: Prog)
    ensures multiset(Insts(s + [y])) == multiset(Insts(s)) + multiset{Of(y)}
  {
    assert Insts(s + [y]) == Insts(s) + [Of(y)];
  }

  lemma Regrouped<T>(a: multiset<T>, b: multiset<T>, c: multiset<T>)
    ensures a + (b + c) == a + b + c
  {
  }

  lemma InstsWithout(s: seq<Prog>, k: nat)
    requires k < |s|
    ensures multiset(Insts(s)) == multiset(Insts(Without(s, k))) + multiset{Of(s[k])}
  {
    assert Insts(Without(s, k)) == Without(Insts(s), k);
    TakeFrom(Insts(s), k);
  }

  lemma {:induction false} InstsPerm(s: seq<Prog>, t: seq<Prog>)
    requires multiset(s) == multiset(t)
    ensures multiset(Insts(s)) == multiset(Insts(t))
    decreases |s|
  {
    hide Insts;
    if s == [] {
      assert |multiset(t)| == 0;
    } else {
      assert s[0] in multiset(t);
      var k :| 0 <= k < |t| && t[k] == s[0];
      TakeFrom(s, 0);
      TakeFrom(t, k);
      Cancel(multiset(Without(s, 0)), multiset(Without(t, k)), multiset{s[0]});
      InstsPerm(Without(s, 0), Without(t, k));
      InstsWithout(s, 0);
      InstsWithout(t, k);
    }
  }

  lemma Alone(rest: multiset<Inst>, x: Inst)
    ensures OneEach(rest + multiset{x}) <==> OneEach(rest) && forall z :: z in rest ==> z.slot != x.slot
  {
    var m := rest + multiset{x};
    assert forall z :: m[z] == rest[z] + if z == x then 1 else 0;
    assert x in m && forall z :: z in rest ==> z in m;
    if OneEach(m) {
      forall z | z in rest
        ensures z.slot != x.slot && rest[z] == 1
      {
        assert z in m && x in m;
      }
    }
  }

  lemma BalancedBut(rest: multiset<Inst>, x: Inst, target: seq<int>, start: seq<int>)
    ensures Balanced(rest + multiset{x}, target, start) <==>
            && Balanced(rest, target, start) && |target| == |start| && x.slot < |start|
            && AsU64(target[x.slot] + x.sum) == AsU64(start[x.slot])
  {
    var m := rest + multiset{x};
    assert x in m && forall z :: z in m <==> z in rest || z == x;
  }

  lemma BalancedApart(rest: multiset<Inst>, k: nat, left: int, target: seq<int>, start: seq<int>)
    requires Balanced(rest, target, start) && k < |target| && forall z :: z in rest ==> z.slot != k
    ensures Balanced(rest, target[k := left], start)
  {
  }

  /** The program of one instance is charged. */
  lemma ChargeOne(rest: multiset<Inst>, x: Inst, target: seq<int>, start: seq<int>, r: Reading)
    requires OneEach(rest + multiset{x}) && Balanced(rest + multiset{x}, target, start)
    ensures x.slot < |target|
    ensures
      var y := x.(sum := AsU64(x.sum + r.instr_retd));
      var t := Deducted(target, x.slot, r);
      && OneEach(rest + multiset{y}) && Balanced(rest + multiset{y}, t, start)
      && OneEach(rest) && Balanced(rest, t, start)
  {
    hide AsU64, OneEach, ToLong, Balanced;
    var y := x.(sum := AsU64(x.sum + r.instr_retd));
    Alone(rest, x);
    Alone(rest, y);
    BalancedBut(rest, x, target, start);
    var t := Deducted(target, x.slot, r);
    BalancedApart(rest, x.slot, t[x.slot], target, start);
    BalancedBut(rest, y, t, start);
    Shifted(target[x.slot], x.sum, r.instr_retd);
  }

  lemma NewestBut(rest: multiset<Inst>, x: Inst, created: seq<int>, init: nat)
    requires init > 0
    ensures Newest(rest + multiset{x}, created, init) <==>
            && Newest(rest, created, init) && x.slot == Slot(x.id, init) && x.id in created
            && forall c :: c in created && Slot(c, init) == x.slot ==> c <= x.id
  {
    hide Slot;
    var m := rest + multiset{x};
    assert x in m && forall z :: z in m <==> z in rest || z == x;
  }

  lemma Shifted(t: int, s: int, i: U64)
    ensures AsU64((t - ToLong(i)) + AsU64(s + i)) == AsU64(t + s)
  {
    var c := if ToLong(i) == i then 0 else 1;
    var d := (s + i) / TWO_64;
    Whole(t + s, c - d);
  }

  lemma Whole(a: int, e: int)
    ensures AsU64(a + e * TWO_64) == AsU64(a)
  {
    assert a + e * TWO_64 == (a / TWO_64 + e) * TWO_64 + a % TWO_64;
  }

  // ---------- freezing ----------

  lemma SameInst(pd: ProgData, r: Reading, policy: Policy, unc: U64, stop: int, monitoring: bool, unh: U64)
    ensures Of(Prog(0, Frozen(pd, stop))) == Of(Prog(0, Thawed(pd, stop))) == Of(Prog(0, pd))
    ensures Of(Prog(0, Assessed(policy, monitoring, pd, stop, unh))) == Of(Prog(0, pd))
    ensures Of(Prog(0, Collected(policy, Measured(pd, r), unc))) == Of(Prog(0, pd))
  {
  }

  lemma InstsMapped(s: seq<Prog>, policy: Policy, now: Times, monitoring: bool, unh: U64)
    ensures Insts(FrozenAll(s, now)) == Insts(ThawedAll(s, now)) == Insts(s)
    ensures Insts(AssessedAll(policy, monitoring, s, now, unh)) == Insts(s)
  {
    hide Frozen, Thawed, Assessed, Collected, Measured;
    forall i | 0 <= i < |s|
      ensures Of(Prog(s[i].id, Frozen(s[i].pd, now(s[i].id)))) == Of(Prog(s[i].id, Thawed(s[i].pd, now(s[i].id))))
              == Of(s[i])
      ensures Of(Prog(s[i].id, Assessed(policy, monitoring, s[i].pd, now(s[i].id), unh))) == Of(s[i])
    {
      SameInst(s[i].pd, Reading(0, 0, 0, 0), policy, 0, now(s[i].id), monitoring, unh);
    }
  }


  lemma MeasureSound(policy: Policy, wnd: int, r: Reading, unc: U64, x: Prog, s: Sweep,
                     rest: multiset<Inst>, start: seq<int>, created: seq<int>)
    requires start != [] && Fair(rest + multiset(Insts(s.kept)) + multiset{Of(x)}, s.target, start, created)
    ensures x.pd.init_id < |s.target|
    ensures
      var s' := Measure(policy, wnd, r, unc, x, s);
      Fair(rest + multiset(Insts(s'.kept)), s'.target, start, created)
  {
    hide OneEach, Balanced, Newest, Insts, AsU64, ToLong;
    var m := rest + multiset(Insts(s.kept));
    ChargeOne(m, Of(x), s.target, start, r);
    NewestBut(m, Of(x), created, |start|);
    NewestBut(m, Of(x).(sum := AsU64(Of(x).sum + r.instr_retd)), created, |start|);
    var s' := Measure(policy, wnd, r, unc, x, s);
    if wnd <= s.nr {
      SameInst(x.pd, r, policy, unc, 0, false, 0);
      var y := Prog(x.id, Collected(policy, Measured(x.pd, r), unc));
      InstsGrow(s.kept, y);
      Regrouped(rest, multiset(Insts(s.kept)), multiset{Of(y)});
    } else {
      var y := Prog(x.id, Accounted(Measured(x.pd, r)));
      InstsGrow(s.kept, y);
      Regrouped(rest, multiset(Insts(s.kept)), multiset{Of(y)});
    }
  }

  lemma {:induction false} MeasureAllSound(
    policy: Policy, wnd: int, rs: int -> Reading, unc: U64, todo: seq<Prog>, s: Sweep,
    rest: multiset<Inst>, start: seq<int>, created: seq<int>)
    requires Slotted(todo, |s.target|)
    requires start != [] && Fair(rest + multiset(Insts(s.kept)) + multiset(Insts(todo)), s.target, start, created)
    ensures
      var s' := MeasureAll(policy, wnd, rs, unc, todo, s);
      Fair(rest + multiset(Insts(s'.kept)), s'.target, start, created)
    decreases |todo|
  {
    hide Fair, Insts, Measure;
    if todo == [] {
      NoInsts(rest + multiset(Insts(s.kept)));
    } else {
      var x := todo[0];
      var more := rest + multiset(Insts(todo[1..]));
      var s' := Measure(policy, wnd, rs(x.id), unc, x, s);
      FirstInst(todo);
      Shuffle(rest, multiset(Insts(s.kept)), multiset{Of(x)}, multiset(Insts(todo[1..])));
      MeasureSound(policy, wnd, rs(x.id), unc, x, s, more, start, created);
      Shuffle(rest, multiset(Insts(s'.kept)), multiset{}, multiset(Insts(todo[1..])));
      MeasureAllSound(policy, wnd, rs, unc, todo[1..], s', rest, start, created);
    }
  }

  lemma NoInsts(m: multiset<Inst>)
    ensures m + multiset(Insts([])) == m
  {
  }

  lemma FirstInst(s: seq<Prog>)
    requires s != []
    ensures multiset(Insts(s)) == multiset{Of(s[0])} + multiset(Insts(s[1..]))
  {
    assert Insts(s) == [Of(s[0])] + Insts(s[1..]);
  }

  lemma Shuffle<T>(a: multiset<T>, b: multiset<T>, c: multiset<T>, d: multiset<T>)
    ensures a + b + (c + d) == a + d + b + c
    ensures a + b + d == a + d + b
    ensures a + b + c + d == b + (a + d) + c
  {
  }

  /** Freezing charges the instructions that it takes from the target; a killed program's instance is finished. */
  lemma FreezeSound(policy: Policy, q: State, stop: Times, wait: Times, rs: int -> Reading, unc: U64,
                    waits: multiset<Inst>, start: seq<int>, created: seq<int>)
    requires Slotted(q.sch, |q.target|)
    requires start != [] && Fair(multiset(Insts(q.all)) + multiset(Insts(q.sch)) + waits, q.target, start, created)
    ensures
      var f := Freeze(policy, q, stop, wait, rs, unc);
      Fair(multiset(Insts(f.all)) + multiset(Insts(f.sch)) + waits, f.target, start, created)
  {
    hide Fair, Insts, MeasureAll, Assessed;
    var todo := FrozenAll(q.sch, stop);
    var s := Sweep([], q.target, q.nr, 0, q.collected);
    var s' := MeasureAll(policy, q.wnd, rs, unc, todo, s);
    var f := Freeze(policy, q, stop, wait, rs, unc);
    var rest := multiset(Insts(q.all)) + waits;
    InstsMapped(q.sch, policy, stop, false, 0);
    InstsMapped(q.all + s'.kept, policy, wait, q.wnd <= s'.nr, s'.unh);
    InstsAppend(q.all, s'.kept);
    NoInsts(rest);
    Shuffle(multiset(Insts(q.all)), multiset(Insts(q.sch)), multiset(Insts([])), waits);
    NoInsts(multiset(Insts(q.all)) + multiset(Insts(q.sch)) + waits);
    NoInsts(multiset(Insts(f.all)));
    Shuffle(multiset(Insts(q.all)), multiset(Insts(s'.kept)), multiset{}, waits);
    MeasureAllSound(policy, q.wnd, rs, unc, todo, s, rest, start, created);
  }

  // ---------- every step ----------

  lemma ExpirySound(policy: Policy, w: World, t: Tick, q': State, start: seq<int>)
    requires Sound(w, start) && Expires(policy, w.q, t, q')
    ensures Sound(w.(q := q'), start)
  {
    hide Fair, Insts, Freeze, Turn;
    var waits := multiset(Waits(w.waiting, |start|));
    var f := Freeze(policy, w.q, t.stop, t.wait, t.rs, t.unc);
    FreezeSound(policy, w.q, t.stop, t.wait, t.rs, t.unc, waits, start, w.created);
    FreezeTargets(policy, w.q, t.stop, t.wait, t.rs, t.unc);
    var m :| Turn(policy, f, m) && q' == Thaw(m, t.thaw);
    FreezeCounts(policy, w.q, t.stop, t.wait, t.rs, t.unc);
    TurnConserves(policy, f, m);
    InstsPerm(m.all + m.sch, f.all);
    InstsAppend(m.all, m.sch);
    InstsMapped(m.sch, policy, t.thaw, false, 0);
    NoInsts(multiset(Insts(f.all)));
  }

  lemma FreezeTargets(policy: Policy, q: State, stop: Times, wait: Times, rs: int -> Reading, unc: U64)
    requires Slotted(q.sch, |q.target|)
    ensures |Freeze(policy, q, stop, wait, rs, unc).target| == |q.target|
  {
  }

  lemma WaitsWithout(s: seq<Spawn>, k: nat, init: nat)
    requires k < |s| && init > 0
    ensures multiset(Waits(s, init)) == multiset(Waits(Without(s, k), init)) + multiset{OfSpawn(s[k], init)}
  {
    assert Waits(Without(s, k), init) == Without(Waits(s, init), k);
    TakeFrom(Waits(s, init), k);
  }

  lemma WaitsGrow(s: seq<Spawn>, x: Spawn, init: nat)
    requires init > 0
    ensures multiset(Waits(s + [x], init)) == multiset(Waits(s, init)) + multiset{OfSpawn(x, init)}
  {
    assert Waits(s + [x], init) == Waits(s, init) + [OfSpawn(x, init)];
  }

  lemma StartSound(w: World, k: nat, junk: ProgData, now: int, start: seq<int>)
    requires Sound(w, start) && k < |w.waiting|
    ensures Sound(Launched(w, k, junk, now), start)
  {
    hide Fair, Insts, Waits, Slot;
    var x := w.waiting[k];
    var y := Added(x, junk, |start|, now);
    InstsGrow(w.q.all, y);
    WaitsWithout(w.waiting, k, |start|);
    assert Of(y) == OfSpawn(x, |start|);
    Shift(multiset(Insts(w.q.all)), multiset(Insts(w.q.sch)), multiset{Of(y)},
          multiset(Waits(Without(w.waiting, k), |start|)));
  }

  lemma Shift<T>(a: multiset<T>, b: multiset<T>, c: multiset<T>, d: multiset<T>)
    ensures a + b + (d + c) == (a + c) + b + d
  {
  }

  /** The successor of an instance has the same slot, and an id that no instance has had. */
  lemma Respawned(rest: multiset<Inst>, x: Inst, sum: int, created: seq<int>, init: nat)
    requires init > 0 && Newest(rest + multiset{x}, created, init) && forall z :: z in rest ==> z.slot != x.slot
    ensures
      var y := Inst(init + x.id, x.slot, sum);
      Newest(rest + multiset{y}, created + [y.id], init) && y.id !in created && Slot(y.id, init) == x.slot
  {
    hide Newest;
    var y := Inst(init + x.id, x.slot, sum);
    NewestBut(rest, x, created, init);
    FromUser(rest, created, init, x.id);
    SlotKept(x.id, init);
    CreatedMore(rest, created, init, y.id);
    NewestBut(rest, y, created + [y.id], init);
  }

  lemma FromUser(rest: multiset<Inst>, created: seq<int>, init: nat, id: int)
    requires init > 0 && Newest(rest, created, init) && id in created
    ensures id >= ID_USER_OFFSET
  {
  }

  lemma SlotKept(id: int, init: nat)
    requires init > 0 && id >= ID_USER_OFFSET
    ensures Slot(init + id, init) == Slot(id, init)
  {
    AddModulus(id - ID_USER_OFFSET, init);
  }

  lemma AddModulus(a: nat, n: nat)
    requires n > 0
    ensures (n + a) % n == a % n
  {
    var q := a / n;
    assert a == n * q + a % n && n + a == n * (q + 1) + a % n;
    UniqueRemainder(n + a, n, q + 1, a % n);
  }

  lemma UniqueRemainder(a: nat, n: nat, q: nat, r: nat)
    requires n > 0 && a == n * q + r && r < n
    ensures a % n == r
  {
    var d := a / n - q;
    assert n * d == r - a % n;
    Multiple(n, d);
  }

  lemma Multiple(n: int, d: int)
    requires n >= 0
    ensures d == 0 || n * d >= n || n * d + n <= 0
  {
    if d >= 1 {
      Signs(n, d - 1);
      assert n * (d - 1) == n * d - n;
    } else if d <= -1 {
      Signs(n, -d - 1);
      assert n * (-d - 1) == -(n * d) - n;
    }
  }

  lemma Signs(a: int, b: int)
    requires a >= 0 && b >= 0
    ensures a * b >= 0
  {
  }

  lemma CreatedMore(rest: multiset<Inst>, created: seq<int>, init: nat, id: int)
    requires init > 0 && Newest(rest, created, init) && id !in created && id >= ID_USER_OFFSET
    requires forall z :: z in rest ==> z.slot != Slot(id, init)
    ensures Newest(rest, created + [id], init)
  {
    hide Slot;
  }

  lemma EndedSum(policy: Policy, pd: ProgData, r: Reading, now: int)
    ensures HandedOn(policy, Ended(policy, pd, r, now)).instr_retd_sum == AsU64(pd.instr_retd_sum + r.instr_retd)
  {
  }

  /** The instances beside the finished one. */
  ghost function Others(w: World, scheduled: bool, k: nat): multiset<Inst>
    requires w.q.target != [] && k < |List(w.q, scheduled)|
  {
    var q := Unlisted(w.q, scheduled, k);
    multiset(Insts(q.all)) + multiset(Insts(q.sch)) + multiset(Waits(w.waiting, |w.q.target|))
  }

  lemma OthersAndOne(w: World, scheduled: bool, k: nat)
    requires w.q.target != [] && k < |List(w.q, scheduled)|
    ensures Unfinished(w) == Others(w, scheduled, k) + multiset{Of(List(w.q, scheduled)[k])}
  {
    hide Insts, Waits;
    InstsWithout(List(w.q, scheduled), k);
    var q := Unlisted(w.q, scheduled, k);
    var x := multiset{Of(List(w.q, scheduled)[k])};
    var waits := multiset(Waits(w.waiting, |w.q.target|));
    Last(multiset(Insts(q.all)), multiset(Insts(q.sch)), waits, x);
  }

  lemma Last<T>(a: multiset<T>, b: multiset<T>, c: multiset<T>, x: multiset<T>)
    ensures a + (b + x) + c == a + b + c + x == (a + x) + b + c
    ensures a + b + (c + x) == a + b + c + x
  {
  }

  /** The charge of the last quantum, and the successor if there is one. */
  lemma FinishFair(rest: multiset<Inst>, x: Inst, target: seq<int>, start: seq<int>, created: seq<int>, r: Reading)
    requires start != [] && Fair(rest + multiset{x}, target, start, created)
    ensures x.slot < |target| == |start| && x.slot == Slot(x.id, |start|)
    ensures
      var t := Deducted(target, x.slot, r);
      var y := Inst(|start| + x.id, x.slot, AsU64(x.sum + r.instr_retd));
      && Fair(rest, t, start, created)
      && Fair(rest + multiset{y}, t, start, created + [y.id])
      && y.id !in created && Slot(y.id, |start|) == x.slot
  {
    hide OneEach, Newest, Deducted, AsU64, Slot, Balanced;
    ChargeOne(rest, x, target, start, r);
    BalancedBut(rest, x, target, start);
    NewestBut(rest, x, created, |start|);
    Alone(rest, x);
    var t := Deducted(target, x.slot, r);
    var z := x.(sum := AsU64(x.sum + r.instr_retd));
    var y := Inst(|start| + x.id, x.slot, z.sum);
    Alone(rest, y);
    BalancedBut(rest, z, t, start);
    BalancedBut(rest, y, t, start);
    Respawned(rest, x, y.sum, created, |start|);
  }

  lemma FinishSound(policy: Policy, w: World, scheduled: bool, k: nat, r: Reading, now: int, start: seq<int>)
    requires Sound(w, start) && k < |List(w.q, scheduled)| && List(w.q, scheduled)[k].pd.init_id < |w.q.target|
    ensures Sound(Finished(policy, w, scheduled, k, r, now), start)
  {
    hide Fair, Insts, Waits, Slot, AsU64, Ended, HandedOn;
    var x := List(w.q, scheduled)[k];
    OthersAndOne(w, scheduled, k);
    FinishFair(Others(w, scheduled, k), Of(x), w.q.target, start, w.created, r);
    EndedSum(policy, x.pd, r, now);
    var next := Spawn(|start| + x.id, HandedOn(policy, Ended(policy, x.pd, r, now)));
    WaitsGrow(w.waiting, next, |start|);
    var q := Unlisted(w.q, scheduled, k);
    Last(multiset(Insts(q.all)), multiset(Insts(q.sch)), multiset(Waits(w.waiting, |start|)),
         multiset{OfSpawn(next, |start|)});
  }

  lemma StepSound(policy: Policy, w: World, e: Event, w': World, start: seq<int>)
    requires Sound(w, start) && Step(policy, w, e, w')
    ensures Sound(w', start)
  {
    hide Fair, Insts, Waits, Quantum, Finished, Launched;
    match e
    case Expiry(t) => ExpirySound(policy, w, t, w'.q, start);
    case Start(k, junk, now) => StartSound(w, k, junk, now, start);
    case Finish(scheduled, k, r, now) => FinishSound(policy, w, scheduled, k, r, now, start);
    case Reaped =>
  }

  // ---------- whole runs ----------

  ghost predicate History(policy: Policy, ws: seq<World>, es: seq<Event>) {
    |ws| == |es| + 1 && forall i :: 0 <= i < |es| ==> Step(policy, ws[i], es[i], ws[i + 1])
  }

  /** The programs of the configuration file have been forked; none has been started. */
  ghost predicate Begin(w: World, start: seq<int>) {
    && start != [] && w.q.target == start && w.q.all == w.q.sch == []
    && |w.waiting| == |w.created| == |start|
    && forall i :: 0 <= i < |start| ==>
         w.created[i] == w.waiting[i].id == ID_USER_OFFSET + i && w.waiting[i].app.instr_retd_sum == 0
  }

  lemma BeginSlot(i: nat, init: nat)
    requires i < init
    ensures Slot(ID_USER_OFFSET + i, init) == i
  {
  }

  lemma BeginSound(w: World, start: seq<int>)
    requires Begin(w, start)
    ensures Sound(w, start)
  {
    hide Slot, OneEach, Balanced, Newest, Waits;
    var n := |start|;
    var m := Waits(w.waiting, n);
    assert multiset(Insts(w.q.all)) + multiset(Insts(w.q.sch)) + multiset(m) == multiset(m);
    forall i | 0 <= i < n
      ensures m[i] == Inst(ID_USER_OFFSET + i, i, 0)
    {
      BeginSlot(i, n);
    }
    BeginOnce(m);
    BeginBalanced(m, start);
    BeginNewest(m, w.created, n);
  }

  lemma BeginBalanced(m: seq<Inst>, start: seq<int>)
    requires |m| == |start| && forall i :: 0 <= i < |m| ==> m[i] == Inst(ID_USER_OFFSET + i, i, 0)
    ensures Balanced(multiset(m), start, start)
  {
  }

  lemma BeginNewest(m: seq<Inst>, created: seq<int>, n: nat)
    requires |m| == |created| == n > 0
    requires forall i :: 0 <= i < n ==> m[i] == Inst(ID_USER_OFFSET + i, i, 0) && created[i] == ID_USER_OFFSET + i
    ensures Newest(multiset(m), created, n)
  {
    hide Slot;
    forall i | 0 <= i < n
      ensures Slot(created[i], n) == i
    {
      BeginSlot(i, n);
    }
    forall x | x in multiset(m)
      ensures x.slot == Slot(x.id, n) && x.id in created
      ensures forall c :: c in created && Slot(c, n) == x.slot ==> c <= x.id
    {
      var i :| 0 <= i < n && m[i] == x;
      assert created[i] == x.id;
    }
  }

  lemma {:induction false} BeginOnce(m: seq<Inst>)
    requires forall i :: 0 <= i < |m| ==> m[i].slot == i
    ensures OneEach(multiset(m))
  {
    if m != [] {
      var s := m[..|m| - 1];
      BeginOnce(s);
      assert m == s + [m[|m| - 1]];
      Alone(multiset(s), m[|m| - 1]);
    } else {
      assert multiset(m) == multiset{};
    }
  }

  /** What holds of every state of every run. */
  lemma {:induction false} RunSound(policy: Policy, ws: seq<World>, es: seq<Event>, start: seq<int>, k: nat)
    requires History(policy, ws, es) && Begin(ws[0], start) && k <= |es|
    ensures Sound(ws[k], start)
  {
    hide Sound, Step, Begin;
    if k == 0 {
      BeginSound(ws[0], start);
    } else {
      RunSound(policy, ws, es, start, k - 1);
      StepSound(policy, ws[k - 1], es[k - 1], ws[k], start);
    }
  }

  /**
   * Instructions are conserved: what is left of the target of a program and what its live instance has done
   * make up the target it started with, modulo 2^64; and exactly so as long as no more than that has been done.
   */
  lemma InstructionsConserved(policy: Policy, ws: seq<World>, es: seq<Event>, start: seq<int>, k: nat, x: Prog)
    requires History(policy, ws, es) && Begin(ws[0], start) && k <= |es|
    requires x in ws[k].q.all + ws[k].q.sch
    ensures
      var target := ws[k].q.target;
      var i := x.pd.init_id;
      && i < |target| == |start| && i == Slot(x.id, |start|)
      && AsU64(target[i] + x.pd.instr_retd_sum) == AsU64(start[i])
      && (target[i] + x.pd.instr_retd_sum == start[i] <==> 0 <= start[i] - target[i] < TWO_64)
  {
    hide Step, Sound, Begin, AsU64, Slot;
    RunSound(policy, ws, es, start, k);
    Conserved(ws[k], start, x);
  }

  lemma Conserved(w: World, start: seq<int>, x: Prog)
    requires Sound(w, start) && x in w.q.all + w.q.sch
    ensures
      var target := w.q.target;
      var i := x.pd.init_id;
      && i < |target| == |start| && i == Slot(x.id, |start|)
      && AsU64(target[i] + x.pd.instr_retd_sum) == AsU64(start[i])
      && (target[i] + x.pd.instr_retd_sum == start[i] <==> 0 <= start[i] - target[i] < TWO_64)
  {
    hide OneEach, Unfinished, AsU64, Slot;
    IsUnfinished(w, x);
    SumIs(w.q.target[x.pd.init_id], x.pd.instr_retd_sum, start[x.pd.init_id]);
  }

  lemma SumIs(t: int, s: U64, a: int)
    requires AsU64(t + s) == AsU64(a)
    ensures t + s == a <==> 0 <= a - t < TWO_64
  {
  }

  lemma IsUnfinished(w: World, x: Prog)
    requires w.q.target != [] && x in w.q.all + w.q.sch
    ensures Of(x) in Unfinished(w)
  {
    if x in w.q.all {
      var i :| 0 <= i < |w.q.all| && w.q.all[i] == x;
      assert Insts(w.q.all)[i] == Of(x);
    } else {
      var i :| 0 <= i < |w.q.sch| && w.q.sch[i] == x;
      assert Insts(w.q.sch)[i] == Of(x);
    }
  }

  /** The same for an instance that waits to be started. */
  lemma WaitingConserved(policy: Policy, ws: seq<World>, es: seq<Event>, start: seq<int>, k: nat, x: Spawn)
    requires History(policy, ws, es) && Begin(ws[0], start) && k <= |es| && x in ws[k].waiting
    ensures
      var i := Slot(x.id, |start|);
      |ws[k].q.target| == |start| && AsU64(ws[k].q.target[i] + x.app.instr_retd_sum) == AsU64(start[i])
  {
    hide Step, Sound, Begin, AsU64, Slot;
    RunSound(policy, ws, es, start, k);
    ConservedWaiting(ws[k], start, x);
  }

  lemma ConservedWaiting(w: World, start: seq<int>, x: Spawn)
    requires Sound(w, start) && x in w.waiting
    ensures
      var i := Slot(x.id, |start|);
      |w.q.target| == |start| && AsU64(w.q.target[i] + x.app.instr_retd_sum) == AsU64(start[i])
  {
    hide OneEach, Newest, AsU64, Slot;
    var j :| 0 <= j < |w.waiting| && w.waiting[j] == x;
    assert Waits(w.waiting, |start|)[j] in Unfinished(w);
  }

  /** No two instances ever have the same id, and a program never has two instances at a time. */
  lemma IdsAreFresh(policy: Policy, ws: seq<World>, es: seq<Event>, start: seq<int>, k: nat)
    requires History(policy, ws, es) && Begin(ws[0], start) && k <= |es|
    ensures forall i, j :: 0 <= i < j < |ws[k].created| ==> ws[k].created[i] != ws[k].created[j]
    ensures var s := ws[k].q.all + ws[k].q.sch;
            && (forall i :: 0 <= i < |s| ==> s[i].id in ws[k].created)
            && (forall i, j :: 0 <= i < j < |s| ==> s[i].pd.init_id != s[j].pd.init_id && s[i].id != s[j].id)
  {
    hide Slot;
    RunSound(policy, ws, es, start, k);
    var w := ws[k];
    var s := w.q.all + w.q.sch;
    InstsAppend(w.q.all, w.q.sch);
    var rest := multiset(Waits(w.waiting, |start|));
    assert Unfinished(w) == multiset(Insts(s)) + rest;
    forall i | 0 <= i < |s|
      ensures s[i].id in w.created && s[i].pd.init_id == Slot(s[i].id, |start|)
    {
      IsUnfinished(w, s[i]);
    }
    forall i, j | 0 <= i < j < |s|
      ensures s[i].pd.init_id != s[j].pd.init_id
    {
      TwoOf(Insts(s), i, j, rest);
    }
  }

  lemma TwoOf(s: seq<Inst>, i: nat, j: nat, rest: multiset<Inst>)
    requires i < j < |s| && OneEach(multiset(s) + rest)
    ensures s[i].slot != s[j].slot
  {
    var m := multiset(s) + rest;
    assert s[i] in m && s[j] in m;
    Twice(s, i, j);
  }

  lemma Twice<T>(s: seq<T>, i: nat, j: nat)
    requires i < j < |s|
    ensures s[i] == s[j] ==> multiset(s)[s[i]] >= 2
  {
    assert s == s[..i] + [s[i]] + s[i + 1..j] + [s[j]] + s[j + 1..];
  }

  /** Every id that has been given out stays known, so that the next one differs from all of them. */
  lemma {:induction false} CreatedGrows(policy: Policy, ws: seq<World>, es: seq<Event>, i: nat, j: nat)
    requires History(policy, ws, es) && i <= j <= |es|
    ensures ws[i].created <= ws[j].created
    decreases j - i
  {
    hide Step;
    if i < j {
      CreatedGrows(policy, ws, es, i, j - 1);
      StepCreates(policy, ws[j - 1], es[j - 1], ws[j]);
    }
  }

  lemma StepCreates(policy: Policy, w: World, e: Event, w': World)
    requires Step(policy, w, e, w')
    ensures w.created <= w'.created
  {
    hide Quantum, Added, Ended, HandedOn, Deducted, Unlisted;
  }
}
