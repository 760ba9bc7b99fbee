/** The figures of a program over a run: they pass from each instance to the next, and progress adds up. */
module Figures {
  import opened Machine
  import opened Programs
  import opened Seqs
  import opened Clocks
  import opened Quanta
  import opened Turns
  import opened Instances
  import opened Progress

  // ---------- what a successor inherits ----------

  /** A program that has finished is started again exactly if more than 10^9 instructions of its target are left. */
  lemma RespawnsWhen(policy: Policy, w: World, scheduled: bool, k: nat, r: Reading, now: int)
    requires k < |List(w.q, scheduled)| && List(w.q, scheduled)[k].pd.init_id < |w.q.target|
    ensures
      var x := List(w.q, scheduled)[k];
      var w' := Finished(policy, w, scheduled, k, r, now);
      var left := w'.q.target[x.pd.init_id];
      && left == w.q.target[x.pd.init_id] - ToLong(r.instr_retd)
      && |w'.waiting| == |w.waiting| + (if left > 1_000_000_000 then 1 else 0)
      && w'.waiting[..|w.waiting|] == w.waiting
  {
    hide Ended, HandedOn, ToLong;
  }

  lemma EndedMeans(policy: Policy, pd: ProgData, r: Reading, now: int)
    ensures
      var p := Ended(policy, pd, r, now);
      && Shows(p, r) && SameFigures(pd, p) && p.category == pd.category && p.init_id == pd.init_id
      && p.instr_retd_sum == (pd.instr_retd_sum + r.instr_retd) % TWO_64
      && if policy == PERF then p.ideal_instr == pd.ideal_instr else Moved(pd, p, r.unh_cycles)
  {
    hide Moved, Progressed, Updated;
    var a := Accounted(Measured(Updated(pd, now), r));
    UpdatedSame(pd, now);
    if policy != PERF {
      MovedBy(a, r.unh_cycles);
      MovedSame(a, pd, Progressed(a, r.unh_cycles), r.unh_cycles);
    }
  }

  lemma UpdatedSame(pd: ProgData, now: int)
    ensures
      var p := Updated(pd, now);
      && SameFigures(pd, p) && p.category == pd.category && p.init_id == pd.init_id
      && p.instr_retd_sum == pd.instr_retd_sum && p.ideal_instr == pd.ideal_instr && p.ratio == pd.ratio
  {
  }

  /** The progress that the last quantum of a program has been worth. */
  ghost predicate LastMove(policy: Policy, pd: ProgData, ideal: U64, r: Reading) {
    var share := pd.ipc_alone * r.unh_cycles;
    if policy == PERF || r.unh_cycles == 0 then ideal == pd.ideal_instr
    else
      && ideal == (pd.ideal_instr + share % TWO_64 / 1000) % TWO_64
      && (ideal == pd.ideal_instr + share / 1000 <==> Fits(pd.ideal_instr, share))
  }

  /** A program that has finished and the instance that takes its place, field by field. */
  lemma Inherits(policy: Policy, w: World, scheduled: bool, k: nat, r: Reading, now: int, junk: ProgData, later: int)
    requires k < |List(w.q, scheduled)| && List(w.q, scheduled)[k].pd.init_id < |w.q.target|
    requires |Finished(policy, w, scheduled, k, r, now).waiting| == |w.waiting| + 1
    ensures
      var x := List(w.q, scheduled)[k];
      var w' := Launched(Finished(policy, w, scheduled, k, r, now), |w.waiting|, junk, later);
      && w'.waiting == w.waiting && w'.q.all != []
      && var y := w'.q.all[|w'.q.all| - 1];
      && y.id == |w.q.target| + x.id && y.pd.init_id == Slot(y.id, |w.q.target|)
      && y.pd.category == x.pd.category && y.pd.ipc_alone == x.pd.ipc_alone
      && (policy != FAIR ==> y.pd.llc_alone == x.pd.llc_alone && y.pd.sum_mem_reads == x.pd.sum_mem_reads)
      && (policy == FAIR ==> y.pd.llc_alone == 0 && y.pd.sum_mem_reads == 0)
      && LastMove(policy, x.pd, y.pd.ideal_instr, r)
      && y.pd.instr_retd_sum == (x.pd.instr_retd_sum + r.instr_retd) % TWO_64
      && y.pd.ratio == 0 && y.pd.mem_reads == 0
  {
    hide Ended, Deducted, Moved, Slot, ToLong, Fits;
    var x := List(w.q, scheduled)[k];
    EndedMeans(policy, x.pd, r, now);
    MoveIsLast(policy, x.pd, Ended(policy, x.pd, r, now), r);
    var w1 := Finished(policy, w, scheduled, k, r, now);
    assert w1.waiting[|w.waiting|] == Spawn(|w.q.target| + x.id, HandedOn(policy, Ended(policy, x.pd, r, now)));
    assert Without(w1.waiting, |w.waiting|) == w.waiting;
  }

  lemma MoveIsLast(policy: Policy, pd: ProgData, p: ProgData, r: Reading)
    requires if policy == PERF then p.ideal_instr == pd.ideal_instr else Moved(pd, p, r.unh_cycles)
    ensures LastMove(policy, pd, p.ideal_instr, r)
  {
    hide Fits;
  }

  // ---------- the instances of a world ----------

  datatype Card = Card(category: Class, ipc: int, llc: int, memReads: int, ideal: int)

  /** An unfinished instance: its slot, whether it is listed and whether it runs, and its figures. */
  datatype Holder = Holder(slot: nat, listed: bool, runs: bool, card: Card)

  function Held(x: Prog, runs: bool): Holder {
    Holder(x.pd.init_id, true, runs,
           Card(x.pd.category, x.pd.ipc_alone, x.pd.llc_alone, x.pd.sum_mem_reads, x.pd.ideal_instr))
  }

  function HeldOver(s: Spawn, init: nat): Holder
    requires init > 0
  {
    Holder(Slot(s.id, init), false, false,
           Card(s.app.mem_needed, ToInt(s.app.thr_real), s.app.llc_alone, s.app.sum_mem_reads, s.app.ideal_instr))
  }

  ghost predicate Holds(w: World, h: Holder)
    requires w.q.target != []
  {
    || (exists x :: x in w.q.all && h == Held(x, false))
    || (exists x :: x in w.q.sch && h == Held(x, true))
    || (exists s :: s in w.waiting && h == HeldOver(s, |w.q.target|))
  }

  /** The instances in one sequence. */
  function InstsOf(w: World): seq<Inst>
    requires w.q.target != []
  {
    Insts(w.q.all) + Insts(w.q.sch) + Waits(w.waiting, |w.q.target|)
  }

  ghost function HolderAt(w: World, i: nat): (h: Holder)
    requires w.q.target != [] && i < |InstsOf(w)|
    ensures h.slot == InstsOf(w)[i].slot
  {
    var a, b := |w.q.all|, |w.q.sch|;
    if i < a then Held(w.q.all[i], false)
    else if i < a + b then Held(w.q.sch[i - a], true)
    else HeldOver(w.waiting[i - a - b], |w.q.target|)
  }

  lemma AtIndex(w: World, h: Holder) returns (i: nat)
    requires w.q.target != [] && Holds(w, h)
    ensures i < |InstsOf(w)| && h == HolderAt(w, i)
  {
    hide Slot, ToInt, Held, HeldOver;
    var a, b := |w.q.all|, |w.q.sch|;
    if j :| 0 <= j < a && h == Held(w.q.all[j], false) {
      i := j;
    } else if j :| 0 <= j < b && h == Held(w.q.sch[j], true) {
      i := a + j;
    } else {
      var j :| 0 <= j < |w.waiting| && h == HeldOver(w.waiting[j], |w.q.target|);
      i := a + b + j;
    }
  }

  /** No slot has two instances at a time. */
  lemma OneHolder(w: World, start: seq<int>, h: Holder, h': Holder)
    requires Sound(w, start) && Holds(w, h) && Holds(w, h') && h.slot == h'.slot
    ensures h == h'
  {
    hide Holds, InstsOf, HolderAt, Sound;
    SoundTarget(w, start);
    var i := AtIndex(w, h);
    var j := AtIndex(w, h');
    if i != j {
      OnePerSlot(w, start, if i < j then i else j, if i < j then j else i);
    }
  }

  lemma OnePerSlot(w: World, start: seq<int>, i: nat, j: nat)
    requires Sound(w, start) && i < j < |InstsOf(w)|
    ensures InstsOf(w)[i].slot != InstsOf(w)[j].slot
  {
    hide Insts, Waits, Balanced, Newest, OneEach;
    assert multiset(InstsOf(w)) + multiset{} == Unfinished(w);
    TwoOf(InstsOf(w), i, j, multiset{});
  }

  // ---------- one step ----------

  ghost predicate SameCard(policy: Policy, c: Card, c': Card) {
    && c'.category == c.category && c'.ipc == c.ipc
    && (policy != FAIR ==> c'.llc == c.llc && c'.memReads == c.memReads)
  }

  function Share(ipc: int, u: U64): int {
    ipc * u % TWO_64 / 1000
  }

  /** What one step does to the figures of a slot: only a quantum of the phase in which it runs changes them. */
  ghost predicate Next(policy: Policy, w: World, e: Event, h: Holder, h': Holder) {
    && h'.slot == h.slot && h'.card.category == h.card.category
    && match e
       case Expiry(t) =>
         && (w.q.wnd > w.q.nr || !h.runs ==> SameCard(policy, h.card, h'.card))
         && h'.card.ideal == (if policy != PERF && w.q.wnd > w.q.nr && h.listed
                              then (h.card.ideal + Share(h.card.ipc, FirstCycles(w.q.sch, t.rs))) % TWO_64
                              else h.card.ideal)
       case Finish(scheduled, k, r, _) =>
         && SameCard(policy, h.card, h'.card)
         && h'.card.ideal == (if policy != PERF && k < |List(w.q, scheduled)|
                                 && List(w.q, scheduled)[k].pd.init_id == h.slot
                              then (h.card.ideal + Share(h.card.ipc, r.unh_cycles)) % TWO_64
                              else h.card.ideal)
       case _ => h'.card == h.card
  }

  lemma ExpiryHolds(policy: Policy, w: World, t: Tick, w': World, h': Holder) returns (h: Holder)
    requires w.q.target != [] && Step(policy, w, Expiry(t), w') && |w'.q.target| == |w.q.target| && Holds(w', h')
    ensures Holds(w, h) && Next(policy, w, Expiry(t), h, h')
  {
    hide Expires, Slot, Passes, Held, ToInt;
    if s :| s in w'.waiting && h' == HeldOver(s, |w'.q.target|) {
      h := h';
    } else {
      var y :| y in w'.q.all + w'.q.sch && h' in {Held(y, false), Held(y, true)};
      var x, ran := ExpiryPasses(policy, w.q, t, w'.q, y);
      h := Held(x, ran);
      PassesNext(policy, w, t, x, ran, y, h');
    }
  }

  lemma PassesNext(policy: Policy, w: World, t: Tick, x: Prog, ran: bool, y: Prog, h': Holder)
    requires Passes(policy, w.q, t.rs, t.unc, x, ran, y) && h' in {Held(y, false), Held(y, true)}
    ensures Next(policy, w, Expiry(t), Held(x, ran), h')
  {
    hide Moved, Measures, FirstCycles, Share;
    if w.q.wnd > w.q.nr && policy != PERF {
      MovedShare(x.pd, y.pd, FirstCycles(w.q.sch, t.rs));
    }
  }

  lemma MovedShare(pd: ProgData, pd': ProgData, u: U64)
    requires Moved(pd, pd', u)
    ensures pd'.ideal_instr == (pd.ideal_instr + Share(pd.ipc_alone, u)) % TWO_64
  {
    hide Fits;
  }

  lemma StartHolds(policy: Policy, w: World, k: nat, junk: ProgData, now: int, w': World, h': Holder)
    returns (h: Holder)
    requires Step(policy, w, Start(k, junk, now), w') && Holds(w', h')
    ensures Holds(w, h) && Next(policy, w, Start(k, junk, now), h, h')
  {
    hide Slot, ToInt, Initial;
    var x := w.waiting[k];
    var y := Added(x, junk, |w.q.target|, now);
    StartedCard(x, junk, |w.q.target|, now);
    if h' == Held(y, false) {
      h := HeldOver(x, |w.q.target|);
    } else {
      h := h';
      if z :| z in w'.q.all && h' == Held(z, false) {
        assert z in w.q.all + [y];
      }
    }
  }

  lemma StartedCard(x: Spawn, junk: ProgData, init: nat, now: int)
    requires init > 0
    ensures Held(Added(x, junk, init, now), false).card == HeldOver(x, init).card
    ensures Added(x, junk, init, now).pd.init_id == Slot(x.id, init)
  {
    hide Slot, ToInt;
  }

  /** The other instances, when the k-th program of a list has finished. */
  lemma LeftHolds(w: World, scheduled: bool, k: nat, w': World, h': Holder, start: seq<int>)
    requires Sound(w, start) && k < |List(w.q, scheduled)|
    requires w'.waiting == w.waiting && |w'.q.target| == |w.q.target|
    requires w'.q.all == Unlisted(w.q, scheduled, k).all && w'.q.sch == Unlisted(w.q, scheduled, k).sch && Holds(w', h')
    ensures Holds(w, h') && h'.slot != List(w.q, scheduled)[k].pd.init_id
  {
    hide Held, HeldOver, Sound;
    if z :| z in w'.q.all && h' == Held(z, false) {
      assert z in w.q.all;
    } else if z :| z in w'.q.sch && h' == Held(z, true) {
      assert z in w.q.sch;
    }
    NotLeft(w, scheduled, k, w', h', start);
  }

  lemma NotLeft(w: World, scheduled: bool, k: nat, w': World, h': Holder, start: seq<int>)
    requires Sound(w, start) && k < |List(w.q, scheduled)| && |w'.q.target| == |w.q.target|
    requires w'.waiting == w.waiting
    requires w'.q.all == Unlisted(w.q, scheduled, k).all && w'.q.sch == Unlisted(w.q, scheduled, k).sch && Holds(w', h')
    ensures h'.slot != List(w.q, scheduled)[k].pd.init_id
  {
    hide Held, HeldOver, Holds, Sound;
    SoundTarget(w, start);
    var i := AtIndex(w', h');
    var a := |w.q.all|;
    var x := if scheduled then a + k else k;
    var j := if i < x then i else i + 1;
    SameAfter(w, scheduled, k, w', i);
    OnePerSlot(w, start, if j < x then j else x, if j < x then x else j);
  }

  lemma SoundTarget(w: World, start: seq<int>)
    requires Sound(w, start)
    ensures w.q.target != [] && |w.q.target| == |start|
  {
  }

  lemma SameAfter(w: World, scheduled: bool, k: nat, w': World, i: nat)
    requires w.q.target != [] && |w'.q.target| == |w.q.target| && k < |List(w.q, scheduled)| && w'.waiting == w.waiting
    requires w'.q.all == Unlisted(w.q, scheduled, k).all && w'.q.sch == Unlisted(w.q, scheduled, k).sch
    requires i < |InstsOf(w')|
    ensures
      var x := if scheduled then |w.q.all| + k else k;
      var j := if i < x then i else i + 1;
      && x < |InstsOf(w)| && j < |InstsOf(w)| && j != x && InstsOf(w')[i] == InstsOf(w)[j]
      && InstsOf(w)[x].slot == List(w.q, scheduled)[k].pd.init_id
  {
    hide Slot;
  }

  lemma FinishHolds(policy: Policy, w: World, scheduled: bool, k: nat, r: Reading, now: int, w': World, h': Holder,
                    start: seq<int>)
    returns (h: Holder)
    requires Sound(w, start) && Step(policy, w, Finish(scheduled, k, r, now), w') && Holds(w', h')
    ensures Holds(w, h) && Next(policy, w, Finish(scheduled, k, r, now), h, h')
  {
    hide Slot, ToInt, Sound, Ended, HandedOn, Deducted, Held, HeldOver;
    SoundTarget(w, start);
    var x := List(w.q, scheduled)[k];
    var s := Spawn(|w.q.target| + x.id, HandedOn(policy, Ended(policy, x.pd, r, now)));
    SuccessorCard(policy, w, scheduled, k, r, now, start);
    if |w'.waiting| > |w.waiting| && h' == HeldOver(s, |w.q.target|) {
      h := Held(x, scheduled);
    } else {
      h := h';
      OtherHolds(w, w.(q := w'.q), w', s, h');
      LeftHolds(w, scheduled, k, w.(q := w'.q), h', start);
    }
  }

  lemma OtherHolds(w: World, v: World, w': World, s: Spawn, h': Holder)
    requires w'.q.target != [] && v.q == w'.q && v.waiting == w.waiting && w'.waiting in {w.waiting, w.waiting + [s]}
    requires Holds(w', h') && (|w'.waiting| > |w.waiting| ==> h' != HeldOver(s, |w'.q.target|))
    ensures Holds(v, h')
  {
    hide Held, HeldOver;
  }

  lemma SuccessorCard(policy: Policy, w: World, scheduled: bool, k: nat, r: Reading, now: int, start: seq<int>)
    requires Sound(w, start) && k < |List(w.q, scheduled)| && w.q.target != []
    ensures
      var x := List(w.q, scheduled)[k];
      var s := Spawn(|w.q.target| + x.id, HandedOn(policy, Ended(policy, x.pd, r, now)));
      Next(policy, w, Finish(scheduled, k, r, now), Held(x, scheduled), HeldOver(s, |w.q.target|))
  {
    hide Slot, Sound, Ended, Moved;
    var x := List(w.q, scheduled)[k];
    EndedMeans(policy, x.pd, r, now);
    SlotInherited(w, scheduled, k, start);
    if policy != PERF {
      MovedShare(x.pd, Ended(policy, x.pd, r, now), r.unh_cycles);
    }
  }

  lemma SlotInherited(w: World, scheduled: bool, k: nat, start: seq<int>)
    requires Sound(w, start) && k < |List(w.q, scheduled)| && w.q.target != []
    ensures Slot(|w.q.target| + List(w.q, scheduled)[k].id, |w.q.target|) == List(w.q, scheduled)[k].pd.init_id
  {
    hide Slot, OneEach, Balanced, Unfinished;
    var x := List(w.q, scheduled)[k];
    assert x in w.q.all + w.q.sch;
    IsUnfinished(w, x);
    SlotKept(x.id, |w.q.target|);
  }

  lemma StepHolds(policy: Policy, w: World, e: Event, w': World, start: seq<int>, h': Holder) returns (h: Holder)
    requires Sound(w, start) && Sound(w', start) && Step(policy, w, e, w') && Holds(w', h')
    ensures Holds(w, h) && Next(policy, w, e, h, h')
  {
    hide Sound, Holds, Expires, Finished, Launched;
    SoundTarget(w, start);
    SoundTarget(w', start);
    match e
    case Expiry(t) => h := ExpiryHolds(policy, w, t, w', h');
    case Start(k, junk, now) => h := StartHolds(policy, w, k, junk, now, w', h');
    case Finish(scheduled, k, r, now) => h := FinishHolds(policy, w, scheduled, k, r, now, w', h', start);
    case Reaped =>
      h := h';
      SameHolds(w, w', h);
  }

  lemma SameHolds(w: World, w': World, h: Holder)
    requires w.q.target != [] && w'.q.target != [] && Holds(w', h) && |w'.q.target| == |w.q.target|
    requires w'.q.all == w.q.all && w'.q.sch == w.q.sch && w'.waiting == w.waiting
    ensures Holds(w, h)
  {
    hide Held, HeldOver;
  }

  // ---------- whole runs ----------

  lemma RunTarget(policy: Policy, ws: seq<World>, es: seq<Event>, start: seq<int>, k: nat)
    requires History(policy, ws, es) && Begin(ws[0], start) && k <= |es|
    ensures Sound(ws[k], start) && ws[k].q.target != []
  {
    hide Step, Sound, Begin;
    RunSound(policy, ws, es, start, k);
    SoundTarget(ws[k], start);
  }

  /** The slot is not measured in the steps from `k` to `m`. */
  ghost predicate Unmeasured(ws: seq<World>, es: seq<Event>, slot: nat, k: nat, m: nat)
    requires k <= m <= |es| < |ws|
  {
    forall j :: k <= j < m && es[j].Expiry? && ws[j].q.wnd <= ws[j].q.nr ==> Idle(ws[j].q.sch, slot)
  }

  ghost predicate Idle(sch: seq<Prog>, slot: nat) {
    forall x :: x in sch ==> x.pd.init_id != slot
  }

  lemma NotRunning(w: World, h: Holder)
    requires w.q.target != [] && Holds(w, h) && Idle(w.q.sch, h.slot)
    ensures !h.runs
  {
    hide Slot, ToInt;
  }

  /**
   * Over every run, with any number of instances in between: a program keeps its class and its stand-alone figures
   * until it is measured again.
   */
  lemma {:induction false} FiguresKept(policy: Policy, ws: seq<World>, es: seq<Event>, start: seq<int>,
                                       k: nat, m: nat, h: Holder, h': Holder)
    requires History(policy, ws, es) && Begin(ws[0], start) && k <= m <= |es|
    requires ws[k].q.target != [] && ws[m].q.target != [] && Holds(ws[k], h) && Holds(ws[m], h') && h'.slot == h.slot
    requires Unmeasured(ws, es, h.slot, k, m)
    ensures SameCard(policy, h.card, h'.card)
    decreases m - k
  {
    hide Step, Sound, Begin, Holds, Idle;
    RunTarget(policy, ws, es, start, m);
    if k == m {
      OneHolder(ws[k], start, h, h');
    } else {
      RunTarget(policy, ws, es, start, m - 1);
      var g := StepHolds(policy, ws[m - 1], es[m - 1], ws[m], start, h');
      FiguresKept(policy, ws, es, start, k, m - 1, h, g);
      if es[m - 1].Expiry? && ws[m - 1].q.wnd <= ws[m - 1].q.nr {
        NotRunning(ws[m - 1], g);
      }
      NextKeeps(policy, ws[m - 1], es[m - 1], g, h');
    }
  }

  lemma NextKeeps(policy: Policy, w: World, e: Event, h: Holder, h': Holder)
    requires Next(policy, w, e, h, h') && (e.Expiry? && w.q.wnd <= w.q.nr ==> !h.runs)
    ensures SameCard(policy, h.card, h'.card)
  {
    hide FirstCycles, Share;
  }

  /** What a program has been measured to be holds of every later instance, until its slot is measured again. */
  lemma MeasuredForEver(policy: Policy, ws: seq<World>, es: seq<Event>, start: seq<int>, k: nat, m: nat,
                        x: Prog, y: Prog)
    requires History(policy, ws, es) && Begin(ws[0], start) && k < m <= |es|
    requires es[k].Expiry? && ws[k].q.wnd <= ws[k].q.nr && x in ws[k + 1].q.all + ws[k + 1].q.sch
    requires exists z :: z in ws[k].q.sch && z.id == x.id
    requires y in ws[m].q.all + ws[m].q.sch && y.pd.init_id == x.pd.init_id
    requires Unmeasured(ws, es, x.pd.init_id, k + 1, m)
    ensures Measures(policy, y.pd, es[k].t.rs(x.id), es[k].t.unc)
  {
    hide Step, Sound, Begin, Idle, Measures, Passes;
    RunTarget(policy, ws, es, start, k + 1);
    RunTarget(policy, ws, es, start, m);
    MeasuredOnce(policy, ws, es, start, k, x);
    FiguresKept(policy, ws, es, start, k + 1, m, HolderOf(ws[k + 1], x), HolderOf(ws[m], y));
    MeasuresSame(policy, x.pd, y.pd, es[k].t.rs(x.id), es[k].t.unc);
  }

  ghost function HolderOf(w: World, x: Prog): (h: Holder)
    requires w.q.target != [] && x in w.q.all + w.q.sch
    ensures Holds(w, h) && h.slot == x.pd.init_id
    ensures h.card == Held(x, true).card
  {
    if x in w.q.all then Held(x, false) else Held(x, true)
  }

  lemma MeasuresSame(policy: Policy, pd: ProgData, pd': ProgData, r: Reading, unc: U64)
    requires Measures(policy, pd, r, unc) && pd'.category == pd.category && pd'.ipc_alone == pd.ipc_alone
    requires policy != FAIR ==> pd'.llc_alone == pd.llc_alone && pd'.sum_mem_reads == pd.sum_mem_reads
    ensures Measures(policy, pd', r, unc)
  {
  }

  lemma MeasuredOnce(policy: Policy, ws: seq<World>, es: seq<Event>, start: seq<int>, k: nat, x: Prog)
    requires History(policy, ws, es) && Begin(ws[0], start) && k < |es|
    requires es[k].Expiry? && ws[k].q.wnd <= ws[k].q.nr && x in ws[k + 1].q.all + ws[k + 1].q.sch
    requires exists z :: z in ws[k].q.sch && z.id == x.id
    ensures Measures(policy, x.pd, es[k].t.rs(x.id), es[k].t.unc)
  {
    hide Begin, Moved, Measures, FirstCycles, Expires;
    var q := ws[k].q;
    assert Step(policy, ws[k], es[k], ws[k + 1]);
    var x0, ran := ExpiryPasses(policy, q, es[k].t, ws[k + 1].q, x);
    IdsAreFresh(policy, ws, es, start, k);
    if !ran {
      var z :| z in q.sch && z.id == x.id;
      InEach(q.all, q.sch, x0, z);
    }
  }

  lemma InEach(all: seq<Prog>, sch: seq<Prog>, x: Prog, z: Prog)
    requires var s := all + sch; forall i, j :: 0 <= i < j < |s| ==> s[i].id != s[j].id
    requires x in all && z in sch
    ensures x.id != z.id
  {
    var i :| 0 <= i < |all| && all[i] == x;
    var j :| 0 <= j < |sch| && sch[j] == z;
    assert (all + sch)[i] == x && (all + sch)[|all| + j] == z;
  }

  /** After every quantum outside the phase the ratio of every program is its progress in thousandths. */
  lemma RatiosHold(policy: Policy, ws: seq<World>, es: seq<Event>, k: nat, y: Prog)
    requires History(policy, ws, es) && k < |es| && es[k].Expiry? && policy != PERF && ws[k].q.wnd > ws[k].q.nr
    requires FirstCycles(ws[k].q.sch, es[k].t.rs) != 0
    requires y in ws[k + 1].q.all + ws[k + 1].q.sch && y.pd.ideal_instr > 0
    ensures y.pd.ratio * y.pd.ideal_instr <= y.pd.instr_retd_sum * 1000 < (y.pd.ratio + 1) * y.pd.ideal_instr
            <==> y.pd.instr_retd_sum * 1000 < TWO_64
  {
    hide Expires, FirstCycles, Fits;
    assert Step(policy, ws[k], es[k], ws[k + 1]);
    var x, ran := ExpiryPasses(policy, ws[k].q, es[k].t, ws[k + 1].q, y);
  }

  /** What a step adds to the ideal instructions of a slot. */
  ghost function Gain(w: World, e: Event, slot: nat): int
    requires w.q.target != []
  {
    match e
    case Expiry(t) =>
      if w.q.wnd > w.q.nr && exists h :: Holds(w, h) && h.slot == slot && h.listed then
        var h :| Holds(w, h) && h.slot == slot && h.listed;
        Share(h.card.ipc, FirstCycles(w.q.sch, t.rs))
      else 0
    case Finish(scheduled, k, r, _) =>
      if k < |List(w.q, scheduled)| && List(w.q, scheduled)[k].pd.init_id == slot then
        Share(List(w.q, scheduled)[k].pd.ipc_alone, r.unh_cycles)
      else 0
    case _ => 0
  }

  ghost function Gains(ws: seq<World>, es: seq<Event>, slot: nat, k: nat, m: nat): int
    requires k <= m <= |es| < |ws| && forall j :: k <= j < m ==> ws[j].q.target != []
    decreases m - k
  {
    if k == m then 0 else Gains(ws, es, slot, k, m - 1) + Gain(ws[m - 1], es[m - 1], slot)
  }

  lemma ShareNatural(ipc: int, u: U64)
    ensures 0 <= Share(ipc, u)
  {
  }

  lemma NextGains(policy: Policy, w: World, e: Event, start: seq<int>, h: Holder, h': Holder)
    requires Sound(w, start) && policy != PERF && Next(policy, w, e, h, h') && w.q.target != [] && Holds(w, h)
    requires 0 <= h.card.ideal < TWO_64
    ensures 0 <= Gain(w, e, h.slot) && h'.card.ideal == (h.card.ideal + Gain(w, e, h.slot)) % TWO_64
  {
    hide Sound, Holds, Share, FirstCycles;
    if e.Expiry? && w.q.wnd > w.q.nr && exists g :: Holds(w, g) && g.slot == h.slot && g.listed {
      var g :| Holds(w, g) && g.slot == h.slot && g.listed
        && Gain(w, e, h.slot) == Share(g.card.ipc, FirstCycles(w.q.sch, e.t.rs));
      OneHolder(w, start, g, h);
      ShareNatural(g.card.ipc, FirstCycles(w.q.sch, e.t.rs));
    } else if e.Finish? && e.k < |List(w.q, e.scheduled)| && List(w.q, e.scheduled)[e.k].pd.init_id == h.slot {
      var x := List(w.q, e.scheduled)[e.k];
      IsHolder(w, x, e.scheduled);
      OneHolder(w, start, Held(x, e.scheduled), h);
      ShareNatural(x.pd.ipc_alone, e.r.unh_cycles);
    }
  }

  lemma IsHolder(w: World, x: Prog, scheduled: bool)
    requires w.q.target != [] && x in List(w.q, scheduled)
    ensures Holds(w, Held(x, scheduled))
  {
  }

  /**
   * Over every run the ideal instructions of a program are what they were plus the shares of all quanta in between,
   * its own instances' last ones included; modulo 2^64, and exactly so as long as the sum fits.
   */
  lemma {:induction false} ProgressAddsUp(policy: Policy, ws: seq<World>, es: seq<Event>, start: seq<int>,
                                          k: nat, m: nat, h: Holder, h': Holder)
    requires History(policy, ws, es) && Begin(ws[0], start) && k <= m <= |es| && policy != PERF
    requires forall j :: k <= j <= m ==> ws[j].q.target != []
    requires Holds(ws[k], h) && Holds(ws[m], h') && h'.slot == h.slot
    ensures 0 <= h.card.ideal && 0 <= Gains(ws, es, h.slot, k, m)
    ensures h'.card.ideal == (h.card.ideal + Gains(ws, es, h.slot, k, m)) % TWO_64
    ensures h'.card.ideal == h.card.ideal + Gains(ws, es, h.slot, k, m) <==>
            h.card.ideal + Gains(ws, es, h.slot, k, m) < TWO_64
    decreases m - k
  {
    hide Step, Sound, Begin, Holds, Gain;
    RunTarget(policy, ws, es, start, m);
    IdealBounds(ws[k], h);
    IdealBounds(ws[m], h');
    if k == m {
      OneHolder(ws[k], start, h, h');
    } else {
      RunTarget(policy, ws, es, start, m - 1);
      var g := StepHolds(policy, ws[m - 1], es[m - 1], ws[m], start, h');
      IdealBounds(ws[m - 1], g);
      NextSlot(policy, ws[m - 1], es[m - 1], g, h');
      ProgressAddsUp(policy, ws, es, start, k, m - 1, h, g);
      NextGains(policy, ws[m - 1], es[m - 1], start, g, h');
      SumModulo(h.card.ideal + Gains(ws, es, h.slot, k, m - 1), Gain(ws[m - 1], es[m - 1], h.slot));
    }
  }

  lemma NextSlot(policy: Policy, w: World, e: Event, h: Holder, h': Holder)
    requires Next(policy, w, e, h, h')
    ensures h'.slot == h.slot
  {
    hide FirstCycles, Share;
  }

  lemma IdealBounds(w: World, h: Holder)
    requires w.q.target != [] && Holds(w, h)
    ensures 0 <= h.card.ideal < TWO_64
  {
    hide Slot, ToInt;
  }

  lemma SumModulo(a: int, b: int)
    ensures (a % TWO_64 + b) % TWO_64 == (a + b) % TWO_64
  {
    Whole(a + b, -(a / TWO_64));
  }
}
