/** The clocks of the programs over a run of the scheduler: no time is lost or counted twice. */
module Elapsed {
  import opened Machine
  import opened Programs
  import opened Clocks
  import opened Quanta
  import opened Turns
  import opened Instances
  import opened Progress
  import opened Figures

  /** Running and waiting time are together the time from `t0` to the last reading of the clock, modulo 2^32. */
  ghost predicate Ticks(pd: ProgData, runs: bool, t0: int) {
    && pd.run_status == (if runs then RS_RUNNING else RS_STOPED)
    && (pd.tm_running + pd.tm_waiting) % TWO_32 == ((if runs then pd.tm_rstart else pd.tm_wstart) - t0) % TWO_32
  }

  ghost predicate SameClocks(pd: ProgData, pd': ProgData) {
    && pd'.run_status == pd.run_status && pd'.tm_running == pd.tm_running && pd'.tm_waiting == pd.tm_waiting
    && pd'.tm_rstart == pd.tm_rstart && pd'.tm_wstart == pd.tm_wstart
  }

  lemma SameTicks(pd: ProgData, pd': ProgData, runs: bool, t0: int)
    requires SameClocks(pd, pd') && Ticks(pd, runs, t0)
    ensures Ticks(pd', runs, t0)
  {
  }

  lemma LastAdded(a: int, b: int, from: int, now: int, t0: int)
    requires (a + b) % TWO_32 == (from - t0) % TWO_32
    ensures (AsU32(a + AsU32(AsU32(now) - from)) + b) % TWO_32 == (AsU32(now) - t0) % TWO_32
  {
    hide AsU32;
    var d := AsU32(now) - from;
    AsModulo(a + AsU32(d));
    AsModulo(a + b);
    AsModulo(from - t0);
    AsModulo(AsU32(now) - t0);
    AsModulo(AsU32(a + AsU32(d)) + b);
    PlusModulo(a + AsU32(d), b);
    PlusModulo(d, a + b);
    PlusModulo(a + b, d);
    PlusModulo(from - t0, d);
  }

  lemma AsModulo(a: int)
    ensures AsU32(a) == a % TWO_32
  {
  }

  lemma FrozenTicks(pd: ProgData, now: int, t0: int)
    requires Ticks(pd, true, t0)
    ensures Ticks(Frozen(pd, now), false, t0)
  {
    hide AsU32;
    LastAdded(pd.tm_running, pd.tm_waiting, pd.tm_rstart, now, t0);
  }

  lemma ThawedTicks(pd: ProgData, now: int, t0: int)
    requires Ticks(pd, false, t0)
    ensures Ticks(Thawed(pd, now), true, t0)
  {
    hide AsU32;
    LastAdded(pd.tm_waiting, pd.tm_running, pd.tm_wstart, now, t0);
  }

  lemma ChargeClocks(policy: Policy, monitoring: bool, pd: ProgData, r: Reading, unc: U64)
    ensures SameClocks(pd, Charge(policy, Measured(pd, r), unc, monitoring))
  {
    hide AsU64, ToInt, Quot;
  }

  lemma AssessedClocks(policy: Policy, monitoring: bool, pd: ProgData, now: int, u: U64)
    ensures SameClocks(pd, Assessed(policy, monitoring, pd, now, u))
  {
    hide AsU64, ToInt, AsU32, Quot, Ideal;
  }

  lemma FreezeTicks(policy: Policy, q: State, stop: Times, wait: Times, rs: int -> Reading, unc: U64, y: Prog)
    returns (x: Prog, ran: bool)
    requires Slotted(q.sch, |q.target|) && y in Freeze(policy, q, stop, wait, rs, unc).all
    ensures (if ran then x in q.sch else x in q.all) && x.id == y.id
    ensures forall t0 :: Ticks(x.pd, ran, t0) ==> Ticks(y.pd, false, t0)
  {
    hide Assessed, MeasureAll, Charge, Measured, Frozen, Ticks, SameClocks;
    var todo, s0 := FrozenAll(q.sch, stop), Sweep([], q.target, q.nr, 0, q.collected);
    FrozenSlotted(q.sch, |q.target|, stop);
    var s := Swept(policy, q, stop, rs, unc);
    var f := Freeze(policy, q, stop, wait, rs, unc);
    var i :| 0 <= i < |f.all| && f.all[i] == y;
    if i < |q.all| {
      x, ran := q.all[i], false;
      AssessedClocks(policy, q.wnd <= s.nr, x.pd, wait(x.id), s.unh);
      forall t0 | Ticks(x.pd, ran, t0)
        ensures Ticks(y.pd, false, t0)
      {
        SameTicks(x.pd, y.pd, false, t0);
      }
    } else {
      var z := s.kept[i - |q.all|];
      var j := KeptFrom(policy, q.wnd, rs, unc, todo, s0, z);
      x, ran := q.sch[j], true;
      var p := Frozen(x.pd, stop(x.id));
      assert todo[j] == Prog(x.id, p);
      ChargeClocks(policy, q.wnd <= q.nr, p, rs(x.id), unc);
      AssessedClocks(policy, q.wnd <= s.nr, z.pd, wait(x.id), s.unh);
      forall t0 | Ticks(x.pd, ran, t0)
        ensures Ticks(y.pd, false, t0)
      {
        FrozenTicks(x.pd, stop(x.id), t0);
        SameTicks(p, z.pd, false, t0);
        SameTicks(z.pd, y.pd, false, t0);
      }
    }
  }

  ghost predicate IsOn(q: State, runs: bool, x: Prog) {
    if runs then x in q.sch else x in q.all
  }

  lemma ExpiryTicks(policy: Policy, q: State, t: Tick, q': State, runs: bool, y: Prog) returns (x: Prog, ran: bool)
    requires Expires(policy, q, t, q') && IsOn(q', runs, y)
    ensures IsOn(q, ran, x) && x.id == y.id
    ensures forall t0 :: Ticks(x.pd, ran, t0) ==> Ticks(y.pd, runs, t0)
  {
    hide Freeze, Turn, Thawed, Ticks;
    var f := Freeze(policy, q, t.stop, t.wait, t.rs, t.unc);
    var m :| Turn(policy, f, m) && q' == Thaw(m, t.thaw);
    TurnConserves(policy, f, m);
    if runs {
      var j :| 0 <= j < |q'.sch| && q'.sch[j] == y;
      var z := m.sch[j];
      assert z in multiset(m.all) + multiset(m.sch);
      assert z in multiset(f.all);
      x, ran := FreezeTicks(policy, q, t.stop, t.wait, t.rs, t.unc, z);
      forall t0 | Ticks(x.pd, ran, t0)
        ensures Ticks(y.pd, runs, t0)
      {
        ThawedTicks(z.pd, t.thaw(z.id), t0);
      }
    } else {
      assert y in multiset(m.all) + multiset(m.sch);
      assert y in multiset(f.all);
      x, ran := FreezeTicks(policy, q, t.stop, t.wait, t.rs, t.unc, y);
    }
  }

  // ---------- whole runs ----------

  ghost predicate IsListed(q: State, id: int) {
    exists x :: x in q.all + q.sch && x.id == id
  }

  lemma AddedTicks(s: Spawn, junk: ProgData, init: nat, now: int)
    requires init > 0
    ensures Ticks(Added(s, junk, init, now).pd, false, now)
  {
    hide Slot, ToInt, Loaded;
    AsModulo(now);
    PlusModulo(now, -now);
    AsModulo(AsU32(now) - now);
  }

  /** An instance that is listed does not wait to be started as well. */
  lemma NotWaiting(w: World, start: seq<int>, x: Prog, s: Spawn)
    requires Sound(w, start) && x in w.q.all + w.q.sch && s in w.waiting
    ensures x.id != s.id
  {
    hide InstsOf, Sound, Slot;
    SoundTarget(w, start);
    var i :| 0 <= i < |w.q.all + w.q.sch| && (w.q.all + w.q.sch)[i] == x;
    var j :| 0 <= j < |w.waiting| && w.waiting[j] == s;
    AtList(w, i);
    AtWaiting(w, j);
    ListedSlot(w, start, x);
    OnePerSlot(w, start, i, |w.q.all| + |w.q.sch| + j);
  }

  lemma ListedSlot(w: World, start: seq<int>, x: Prog)
    requires Sound(w, start) && x in w.q.all + w.q.sch
    ensures |w.q.target| == |start| > 0 && x.pd.init_id == Slot(x.id, |start|)
  {
    hide OneEach, Balanced, Slot, Unfinished;
    IsUnfinished(w, x);
  }

  lemma AtList(w: World, i: nat)
    requires w.q.target != [] && i < |w.q.all| + |w.q.sch|
    ensures i < |InstsOf(w)| && InstsOf(w)[i] == Of((w.q.all + w.q.sch)[i])
  {
  }

  lemma AtWaiting(w: World, j: nat)
    requires w.q.target != [] && j < |w.waiting|
    ensures |w.q.all| + |w.q.sch| + j < |InstsOf(w)|
    ensures InstsOf(w)[|w.q.all| + |w.q.sch| + j] == OfSpawn(w.waiting[j], |w.q.target|)
  {
  }

  /** Which program a listed one was before a step that is not the end of a quantum. */
  lemma StepTicks(policy: Policy, w: World, e: Event, w': World, start: seq<int>, runs: bool, y: Prog)
    returns (x: Prog, ran: bool)
    requires Sound(w, start) && Step(policy, w, e, w') && IsOn(w'.q, runs, y) && IsListed(w.q, y.id)
    ensures IsOn(w.q, ran, x) && x.id == y.id
    ensures forall t0 :: Ticks(x.pd, ran, t0) ==> Ticks(y.pd, runs, t0)
  {
    hide Expires, Ticks, Sound, Added, Ended, HandedOn, Deducted;
    match e
    case Expiry(t) => x, ran := ExpiryTicks(policy, w.q, t, w'.q, runs, y);
    case Start(k, junk, now) =>
      x, ran := y, runs;
      var z :| z in w.q.all + w.q.sch && z.id == y.id;
      NotWaiting(w, start, z, w.waiting[k]);
      AddedId(w.waiting[k], junk, |w.q.target|, now);
    case Finish(scheduled, k, r, now) => x, ran := y, runs;
    case Reaped => x, ran := y, runs;
  }

  lemma AddedId(s: Spawn, junk: ProgData, init: nat, now: int)
    requires init > 0
    ensures Added(s, junk, init, now).id == s.id
  {
    hide Loaded, Initial;
  }

  /**
   * In every run, as long as an instance is listed: it has run and waited exactly as long as it has been listed, up to
   * the last reading of its clock, modulo 2^32.
   */
  lemma {:induction false} TimeAddsUp(policy: Policy, ws: seq<World>, es: seq<Event>, start: seq<int>, k: nat, m: nat,
                                      runs: bool, y: Prog)
    requires History(policy, ws, es) && Begin(ws[0], start) && k < m <= |es|
    requires es[k].Start? && es[k].k < |ws[k].waiting| && y.id == ws[k].waiting[es[k].k].id
    requires forall j :: k < j < m ==> IsListed(ws[j].q, y.id)
    requires IsOn(ws[m].q, runs, y)
    ensures Ticks(y.pd, runs, es[k].now)
    decreases m - k
  {
    hide Step, Sound, Begin, Ticks, IsOn, IsListed;
    RunTarget(policy, ws, es, start, m - 1);
    if m == k + 1 {
      FirstTicks(policy, ws, es, start, k, runs, y);
    } else {
      var x, ran := StepTicks(policy, ws[m - 1], es[m - 1], ws[m], start, runs, y);
      TimeAddsUp(policy, ws, es, start, k, m - 1, ran, x);
    }
  }

  lemma FirstTicks(policy: Policy, ws: seq<World>, es: seq<Event>, start: seq<int>, k: nat, runs: bool, y: Prog)
    requires History(policy, ws, es) && Begin(ws[0], start) && k < |es|
    requires es[k].Start? && es[k].k < |ws[k].waiting| && y.id == ws[k].waiting[es[k].k].id
    requires IsOn(ws[k + 1].q, runs, y)
    ensures Ticks(y.pd, runs, es[k].now)
  {
    hide Sound, Begin, Ticks, Added;
    RunTarget(policy, ws, es, start, k);
    assert Step(policy, ws[k], es[k], ws[k + 1]);
    var w, s := ws[k], ws[k].waiting[es[k].k];
    if y in w.q.all + w.q.sch {
      NotWaiting(w, start, y, s);
    } else {
      AddedTicks(s, es[k].junk, |w.q.target|, es[k].now);
    }
  }
}
