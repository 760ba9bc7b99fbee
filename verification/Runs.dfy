/** Whole runs of the scheduler: how many programs it counts, and when it monitors. */
module Runs {
  import opened Machine
  import opened Quanta
  import opened Turns
  import opened Instances
  import Monitoring

  /** How many more programs are listed than counted. */
  function Surplus(q: State): int {
    |q.all| + |q.sch| - q.nr
  }

  lemma ExpiryCounts(policy: Policy, q: State, t: Tick, q': State)
    requires Expires(policy, q, t, q')
    ensures Surplus(q') == Surplus(q) && q'.wnd >= q.wnd && |q'.target| == |q.target|
  {
    hide Freeze, Turn;
    var f := Freeze(policy, q, t.stop, t.wait, t.rs, t.unc);
    FreezeCounts(policy, q, t.stop, t.wait, t.rs, t.unc);
    FreezeTargets(policy, q, t.stop, t.wait, t.rs, t.unc);
    FreezeWindow(policy, q, t.stop, t.wait, t.rs, t.unc);
    var m :| Turn(policy, f, m) && q' == Thaw(m, t.thaw);
    TurnConserves(policy, f, m);
  }

  lemma FreezeWindow(policy: Policy, q: State, stop: Times, wait: Times, rs: int -> Reading, unc: U64)
    requires Slotted(q.sch, |q.target|)
    ensures q.wnd <= Freeze(policy, q, stop, wait, rs, unc).wnd
  {
    hide MeasureAll;
  }

  /**
   * The count falls behind the lists only when the end of a killed program is handled: it is then counted off twice.
   */
  lemma StepCounts(policy: Policy, w: World, e: Event, w': World)
    requires Step(policy, w, e, w')
    ensures Surplus(w'.q) == Surplus(w.q) + if e.Reaped? then 1 else 0
    ensures w'.q.wnd >= w.q.wnd
  {
    hide Expires, Added, Ended, HandedOn, Deducted;
    if e.Expiry? {
      ExpiryCounts(policy, w.q, e.t, w'.q);
    }
  }

  function Reaps(es: seq<Event>): nat {
    if es == [] then 0 else Reaps(es[..|es| - 1]) + if es[|es| - 1].Reaped? then 1 else 0
  }

  /**
   * In every run `progs_nr` is the number of listed programs, less one for each killed program that has been handled.
   */
  lemma {:induction false} CountsListed(policy: Policy, ws: seq<World>, es: seq<Event>, start: seq<int>, k: nat)
    requires History(policy, ws, es) && Begin(ws[0], start) && ws[0].q.nr == ws[0].q.wnd == 0 && k <= |es|
    ensures Surplus(ws[k].q) == Reaps(es[..k]) && ws[k].q.wnd >= 0
  {
    hide Step;
    if k > 0 {
      CountsListed(policy, ws, es, start, k - 1);
      StepCounts(policy, ws[k - 1], es[k - 1], ws[k]);
      assert es[..k][..k - 1] == es[..k - 1];
    }
  }

  /** What `qexpired` relies on holds whenever a quantum ends. */
  lemma AlwaysReady(policy: Policy, ws: seq<World>, es: seq<Event>, start: seq<int>, k: nat)
    requires History(policy, ws, es) && Begin(ws[0], start) && ws[0].q.nr == ws[0].q.wnd == 0 && k <= |es|
    ensures Listed(ws[k].q) && Slotted(ws[k].q.sch, |ws[k].q.target|)
  {
    hide Step, Begin, Sound;
    CountsListed(policy, ws, es, start, k);
    RunSound(policy, ws, es, start, k);
    SoundSlots(ws[k], start);
  }

  lemma SoundSlots(w: World, start: seq<int>)
    requires Sound(w, start)
    ensures Slotted(w.q.sch, |w.q.target|)
  {
    hide Slot;
    forall i | 0 <= i < |w.q.sch|
      ensures w.q.sch[i].pd.init_id < |w.q.target|
    {
      assert w.q.sch[i] in w.q.all + w.q.sch;
      Conserved(w, start, w.q.sch[i]);
    }
  }

  /** No program is collected any more once the window has passed `n`, as long as at most `n` programs are counted. */
  lemma {:induction false} NeverMonitorsAgain(policy: Policy, ws: seq<World>, es: seq<Event>, n: int, i: nat, j: nat)
    requires History(policy, ws, es) && i <= j <= |es|
    requires ws[i].q.wnd > n && forall m :: i <= m <= j ==> ws[m].q.nr <= n
    ensures ws[j].q.wnd > n && ws[j].q.collected == ws[i].q.collected
    decreases j - i
  {
    hide Step;
    if i < j {
      NeverMonitorsAgain(policy, ws, es, n, i, j - 1);
      StepCounts(policy, ws[j - 1], es[j - 1], ws[j]);
      StepCollects(policy, ws[j - 1], es[j - 1], ws[j]);
    }
  }

  lemma StepCollects(policy: Policy, w: World, e: Event, w': World)
    requires Step(policy, w, e, w') && w.q.wnd > w.q.nr
    ensures w'.q.collected == w.q.collected
  {
    hide Expires, Added, Ended, HandedOn, Deducted;
    if e.Expiry? {
      Monitoring.NotAgain(policy, w.q, e.t, w'.q);
    }
  }
}
