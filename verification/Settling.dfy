/** One call of `rebalance` as a part of a run: every program it deals with is one step. */
module Settling {
  import opened Programs
  import opened Seqs
  import opened Quanta
  import opened Instances
  import opened Rebalancing

  /** How a program came to be on `pfinished`: killed at the end of a quantum, or as the k-th of one of the lists. */
  datatype Departure = Dead(x: Prog) | Ends(scheduled: bool, k: nat)

  ghost predicate Leaves(q: State, e: Departure) {
    match e
    case Dead(x) => x.pd.init_id < |q.target|
    case Ends(scheduled, k) => k < |List(q, scheduled)| && List(q, scheduled)[k].pd.init_id < |q.target|
  }

  /** The program that leaves, and the lists without it. */
  ghost function Which(q: State, e: Departure): (x: Prog)
    requires Leaves(q, e)
    ensures x.pd.init_id < |q.target|
  {
    match e
    case Dead(x) => x
    case Ends(scheduled, k) => List(q, scheduled)[k]
  }

  ghost function Taken(q: State, e: Departure): (p: State)
    requires Leaves(q, e)
    ensures p.target == q.target && p.nr == q.nr
  {
    match e
    case Dead(_) => q
    case Ends(scheduled, k) => Unlisted(q, scheduled, k)
  }

  /** Each program is on the list it is taken from, when those before it have been taken. */
  ghost predicate Leave(q: State, exits: seq<Departure>)
    decreases |exits|
  {
    exits != [] ==> Leaves(q, exits[0]) && Leave(Taken(q, exits[0]), exits[1..])
  }

  /** The lists when all have been taken, as `rebalance` finds them. */
  ghost function Remaining(q: State, exits: seq<Departure>): (p: State)
    requires Leave(q, exits)
    ensures p.target == q.target && p.nr == q.nr
    decreases |exits|
  {
    if exits == [] then q else Remaining(Taken(q, exits[0]), exits[1..])
  }

  /** The programs on `pfinished`, in order. */
  ghost function Gone(q: State, exits: seq<Departure>): (r: seq<Prog>)
    requires Leave(q, exits)
    ensures |r| == |exits| && Slotted(r, |q.target|)
    decreases |exits|
  {
    if exits == [] then [] else [Which(q, exits[0])] + Gone(Taken(q, exits[0]), exits[1..])
  }

  ghost function Dying(exits: seq<Departure>): (r: seq<bool>)
    ensures |r| == |exits|
  {
    seq(|exits|, i requires 0 <= i < |exits| => exits[i].Dead?)
  }

  /** The step of the run that each program is. */
  ghost function ExitOf(x: Prog, e: Departure, rs: int -> Reading, now: Times): Event {
    match e
    case Dead(_) => Reaped
    case Ends(scheduled, k) => Finish(scheduled, k, rs(x.id), now(x.id))
  }

  ghost function Exits(gone: seq<Prog>, exits: seq<Departure>, rs: int -> Reading, now: Times): (r: seq<Event>)
    requires |gone| == |exits|
    ensures |r| == |exits|
  {
    seq(|exits|, i requires 0 <= i < |exits| => ExitOf(gone[i], exits[i], rs, now))
  }

  /**
   * Taking the programs from the lists does not touch what the first loop keeps up to date, and the other way round.
   */
  lemma {:induction false} LeaveApart(q: State, exits: seq<Departure>, target: seq<int>, nr: int)
    requires Leave(q, exits) && |target| == |q.target|
    ensures
      var p := q.(target := target, nr := nr);
      && Leave(p, exits) && Gone(p, exits) == Gone(q, exits)
      && Remaining(p, exits) == Remaining(q, exits).(target := target, nr := nr)
    decreases |exits|
  {
    hide Leaves, Taken, Which;
    if exits != [] {
      TakenApart(q, exits[0], target, nr);
      LeaveApart(Taken(q, exits[0]), exits[1..], target, nr);
    }
  }

  lemma TakenApart(q: State, e: Departure, target: seq<int>, nr: int)
    requires Leaves(q, e) && |target| == |q.target|
    ensures
      var p := q.(target := target, nr := nr);
      Leaves(p, e) && Which(p, e) == Which(q, e) && Taken(p, e) == Taken(q, e).(target := target, nr := nr)
  {
  }

  /** The step in which a program ends is its removal from its list and one turn of the first loop. */
  lemma FinishedSettles(policy: Policy, w: World, scheduled: bool, k: nat, r: Reading, now: int)
    requires k < |List(w.q, scheduled)| && List(w.q, scheduled)[k].pd.init_id < |w.q.target|
    ensures
      var w' := Finished(policy, w, scheduled, k, r, now);
      var b := Settled(policy, List(w.q, scheduled)[k], false, r, now, Books(w.q.target, w.q.nr, w.waiting));
      w'.q == Unlisted(w.q, scheduled, k).(target := b.target, nr := b.nr) && w'.waiting == b.next
  {
    hide Ended, HandedOn, Deducted;
  }

  /** The world after one program of the first loop. */
  ghost function AfterExit(policy: Policy, w: World, e: Departure, rs: int -> Reading, now: Times): World
    requires Leaves(w.q, e)
  {
    match e
    case Dead(_) => w.(q := w.q.(nr := w.q.nr - 1))
    case Ends(scheduled, k) =>
      var x := Which(w.q, e);
      Finished(policy, w, scheduled, k, rs(x.id), now(x.id))
  }

  lemma OneSettles(policy: Policy, w: World, e: Departure, rs: int -> Reading, now: Times)
    requires Leaves(w.q, e)
    ensures
      var x := Which(w.q, e);
      var w' := AfterExit(policy, w, e, rs, now);
      var b := Settled(policy, x, e.Dead?, rs(x.id), now(x.id), Books(w.q.target, w.q.nr, w.waiting));
      && Step(policy, w, ExitOf(x, e, rs, now), w')
      && w'.q == Taken(w.q, e).(target := b.target, nr := b.nr) && w'.waiting == b.next
  {
    hide Finished, Settled;
    var x := Which(w.q, e);
    match e
    case Dead(_) => DeadSettles(policy, x, rs(x.id), now(x.id), Books(w.q.target, w.q.nr, w.waiting));
    case Ends(scheduled, k) => FinishedSettles(policy, w, scheduled, k, rs(x.id), now(x.id));
  }

  lemma ExitStep(policy: Policy, w: World, exits: seq<Departure>, rs: int -> Reading, now: Times)
    requires Leave(w.q, exits) && exits != []
    ensures Leaves(w.q, exits[0]) && Gone(w.q, exits) != []
    ensures
      var x := Gone(w.q, exits)[0];
      var w' := AfterExit(policy, w, exits[0], rs, now);
      var b := Settled(policy, x, exits[0].Dead?, rs(x.id), now(x.id), Books(w.q.target, w.q.nr, w.waiting));
      && Step(policy, w, ExitOf(x, exits[0], rs, now), w')
      && Books(w'.q.target, w'.q.nr, w'.waiting) == b
      && Leave(w'.q, exits[1..]) && Gone(w'.q, exits[1..]) == Gone(w.q, exits)[1..]
      && Remaining(w'.q, exits[1..]) == Remaining(w.q, exits).(target := b.target, nr := b.nr)
  {
    hide Leaves, Taken, Which, AfterExit, Settled, Step, ExitOf;
    OneSettles(policy, w, exits[0], rs, now);
    var w' := AfterExit(policy, w, exits[0], rs, now);
    LeaveApart(Taken(w.q, exits[0]), exits[1..], w'.q.target, w'.q.nr);
  }

  lemma DeadSettles(policy: Policy, x: Prog, r: Reading, now: int, b: Books)
    requires x.pd.init_id < |b.target|
    ensures Settled(policy, x, true, r, now, b) == b.(nr := b.nr - 1)
  {
  }

  /** The first loop is a sequence of steps of a run. */
  lemma {:induction false} SettledSteps(policy: Policy, w: World, exits: seq<Departure>, rs: int -> Reading, now: Times)
    returns (ws: seq<World>)
    requires Leave(w.q, exits)
    ensures History(policy, ws, Exits(Gone(w.q, exits), exits, rs, now)) && ws[0] == w
    ensures
      var b := SettledAll(policy, Gone(w.q, exits), Dying(exits), rs, now, Books(w.q.target, w.q.nr, w.waiting));
      && ws[|exits|].q == Remaining(w.q, exits).(target := b.target, nr := b.nr)
      && ws[|exits|].waiting == b.next
    decreases |exits|
  {
    hide Settled, Step, Gone, Remaining, Leave, AfterExit, ExitOf;
    if exits == [] {
      ws := [w];
      AllLeft(w.q);
    } else {
      ExitStep(policy, w, exits, rs, now);
      var gone, es := Gone(w.q, exits), Exits(Gone(w.q, exits), exits, rs, now);
      var w' := AfterExit(policy, w, exits[0], rs, now);
      var rest := SettledSteps(policy, w', exits[1..], rs, now);
      ws := [w] + rest;
      assert Exits(gone[1..], exits[1..], rs, now) == es[1..];
      assert Dying(exits)[1..] == Dying(exits[1..]);
      HistoryFrom(policy, w, es, rest);
    }
  }

  lemma AllLeft(q: State)
    ensures Leave(q, []) && Gone(q, []) == [] && Remaining(q, []) == q
  {
  }

  lemma HistoryFrom(policy: Policy, w: World, es: seq<Event>, rest: seq<World>)
    requires es != [] && rest != [] && Step(policy, w, es[0], rest[0]) && History(policy, rest, es[1..])
    ensures History(policy, [w] + rest, es)
  {
    hide Step;
    var ws := [w] + rest;
    forall i | 0 <= i < |es|
      ensures Step(policy, ws[i], es[i], ws[i + 1])
    {
      if i > 0 {
        assert es[1..][i - 1] == es[i];
      }
    }
  }

  // ---------- the second loop ----------

  /** The new programs are waiting instances, each at position `ks[i]` when those before it have been handed over. */
  ghost predicate AreWaiting(waiting: seq<Spawn>, v: seq<Prog>, ks: seq<nat>, apps: int -> App)
    decreases |v|
  {
    if v == [] then ks == []
    else
      && |ks| == |v| && ks[0] < |waiting| && waiting[ks[0]] == Spawn(v[0].id, apps(v[0].id))
      && AreWaiting(Without(waiting, ks[0]), v[1..], ks[1..], apps)
  }

  ghost function StillWaiting(waiting: seq<Spawn>, v: seq<Prog>, ks: seq<nat>, apps: int -> App): seq<Spawn>
    requires AreWaiting(waiting, v, ks, apps)
    decreases |v|
  {
    if v == [] then waiting else StillWaiting(Without(waiting, ks[0]), v[1..], ks[1..], apps)
  }

  ghost function Starts(v: seq<Prog>, ks: seq<nat>, now: Times): (r: seq<Event>)
    requires |ks| == |v|
    ensures |r| == |v|
  {
    seq(|v|, i requires 0 <= i < |v| => Start(ks[i], v[i].pd, now(v[i].id)))
  }

  /** The second loop is a sequence of steps of a run. */
  lemma {:induction false} AddedSteps(policy: Policy, w: World, v: seq<Prog>, ks: seq<nat>, apps: int -> App,
                                      now: Times)
    returns (ws: seq<World>)
    requires AreWaiting(w.waiting, v, ks, apps) && w.q.target != []
    ensures |ks| == |v| && History(policy, ws, Starts(v, ks, now)) && ws[0] == w
    ensures ws[|v|].q == w.q.(all := w.q.all + AddedAll(v, apps, |w.q.target|, now), nr := w.q.nr + |v|)
    ensures ws[|v|].waiting == StillWaiting(w.waiting, v, ks, apps)
    decreases |v|
  {
    hide Added, Step, AddedAt;
    var init := |w.q.target|;
    if v == [] {
      ws := [w];
      assert w.q.all + AddedAll(v, apps, init, now) == w.q.all;
    } else {
      var es, x := Starts(v, ks, now), v[0];
      var w' := Launched(w, ks[0], x.pd, now(x.id));
      LaunchStep(policy, w, ks[0], x, apps, now);
      var rest := AddedSteps(policy, w', v[1..], ks[1..], apps, now);
      ws := [w] + rest;
      assert Starts(v[1..], ks[1..], now) == es[1..];
      HistoryFrom(policy, w, es, rest);
      assert w.q.all + AddedAll(v, apps, init, now)
          == w.q.all + [AddedAt(x, apps, init, now)] + AddedAll(v[1..], apps, init, now);
    }
  }

  lemma LaunchStep(policy: Policy, w: World, k: nat, x: Prog, apps: int -> App, now: Times)
    requires k < |w.waiting| && w.q.target != [] && w.waiting[k] == Spawn(x.id, apps(x.id))
    ensures
      var w' := Launched(w, k, x.pd, now(x.id));
      && Step(policy, w, Start(k, x.pd, now(x.id)), w')
      && w'.q == w.q.(all := w.q.all + [AddedAt(x, apps, |w.q.target|, now)], nr := w.q.nr + 1)
      && w'.waiting == Without(w.waiting, k)
  {
    hide Added;
  }

  // ---------- both loops ----------

  lemma HistoryJoin(policy: Policy, ws: seq<World>, es: seq<Event>, us: seq<World>, fs: seq<Event>)
    requires History(policy, ws, es) && History(policy, us, fs) && ws[|es|] == us[0]
    ensures History(policy, ws + us[1..], es + fs)
  {
    hide Step;
    var vs, gs := ws + us[1..], es + fs;
    forall i | 0 <= i < |gs|
      ensures Step(policy, vs[i], gs[i], vs[i + 1])
    {
      if i >= |es| {
        assert vs[i] == us[i - |es|];
      }
    }
  }

  /** The targets, the count and the forked instances do not depend on those that wait already. */
  lemma {:induction false} SettledBehind(policy: Policy, todo: seq<Prog>, killed: seq<bool>, rs: int -> Reading,
                                         now: Times, b: Books)
    requires |killed| == |todo| && Slotted(todo, |b.target|)
    ensures
      var c := SettledAll(policy, todo, killed, rs, now, b.(next := []));
      SettledAll(policy, todo, killed, rs, now, b) == c.(next := b.next + c.next)
    decreases |todo|
  {
    hide Settled;
    if todo != [] {
      var x := todo[0];
      SettledMore(policy, x, killed[0], rs(x.id), now(x.id), b);
      var c := Settled(policy, x, killed[0], rs(x.id), now(x.id), b.(next := []));
      SettledBehind(policy, todo[1..], killed[1..], rs, now, c);
      SettledBehind(policy, todo[1..], killed[1..], rs, now, c.(next := b.next + c.next));
    }
  }

  /**
   * `rebalance` on several finished and several new programs, from the lists that the finished ones have left, has
   * the effect of one step for each of them: it ends in a state of a run, to which all that holds of runs applies.
   */
  lemma RebalanceIsRun(policy: Policy, w: World, exits: seq<Departure>, v: seq<Prog>, ks: seq<nat>,
                       rs: int -> Reading, apps: int -> App, now: Times)
    returns (ws: seq<World>)
    requires Leave(w.q, exits) && w.q.target != [] && AreWaiting(w.waiting, v, ks, apps)
    ensures |ks| == |v|
    ensures History(policy, ws, Exits(Gone(w.q, exits), exits, rs, now) + Starts(v, ks, now)) && ws[0] == w
    ensures
      var q := Remaining(w.q, exits);
      var b := SettledAll(policy, Gone(w.q, exits), Dying(exits), rs, now, Books(q.target, q.nr, []));
      var last := ws[|exits| + |v|];
      && last.q == q.(target := b.target, nr := b.nr + |v|,
                      all := q.all + AddedAll(v, apps, |q.target|, now))
      && last.waiting == StillWaiting(w.waiting, v, ks, apps) + b.next
  {
    hide Step, Leave, Gone, Remaining, SettledAll, AddedAt, AreWaiting, StillWaiting, History, Dying;
    var b0 := Books(w.q.target, w.q.nr, w.waiting);
    SettledBehind(policy, Gone(w.q, exits), Dying(exits), rs, now, b0);
    var first := SettledSteps(policy, w, exits, rs, now);
    HistorySize(policy, first, Exits(Gone(w.q, exits), exits, rs, now));
    var m := first[|exits|];
    var next := SettledAll(policy, Gone(w.q, exits), Dying(exits), rs, now, b0.(next := [])).next;
    WaitingBehind(w.waiting, next, v, ks, apps);
    var second := AddedSteps(policy, m, v, ks, apps, now);
    HistorySize(policy, second, Starts(v, ks, now));
    ws := first + second[1..];
    HistoryJoin(policy, first, Exits(Gone(w.q, exits), exits, rs, now), second, Starts(v, ks, now));
  }

  lemma HistorySize(policy: Policy, ws: seq<World>, es: seq<Event>)
    requires History(policy, ws, es)
    ensures |ws| == |es| + 1
  {
  }

  lemma {:induction false} WaitingBehind(waiting: seq<Spawn>, next: seq<Spawn>, v: seq<Prog>, ks: seq<nat>,
                                         apps: int -> App)
    requires AreWaiting(waiting, v, ks, apps)
    ensures AreWaiting(waiting + next, v, ks, apps)
    ensures StillWaiting(waiting + next, v, ks, apps) == StillWaiting(waiting, v, ks, apps) + next
    decreases |v|
  {
    if v != [] {
      assert Without(waiting + next, ks[0]) == Without(waiting, ks[0]) + next;
      WaitingBehind(Without(waiting, ks[0]), next, v[1..], ks[1..], apps);
    }
  }
}
