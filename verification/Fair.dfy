/** The fair policy, src/scheds/fair.c: the programs with the least progress run. */
module Fair {
  import opened Machine
  import opened Programs
  import opened Seqs
  import opened Scheds
  import opened Filling

  /** `fair_schedule`; `v` is the sorted list that the selection starts from. */
  method Schedule(sched: Sched) returns (ghost v: seq<Prog>)
    requires sched.Valid() && sched.sch == [] && (sched.Monitoring() ==> sched.all != [])
    modifies sched`all, sched`sch, sched`monitor_wnd, sched.Repr()`next, sched.Repr()`prev, sched.Repr()`core
    ensures sched.Valid() && sched.Repr() == old(sched.Repr())
    ensures old(sched.Monitoring()) ==>
              && |old(sched.A())| == |old(sched.all)| && sched.sch == [old(sched.all)[0]]
              && sched.A() == Without(old(sched.A()), 0) && sched.S() == [old(sched.A())[0]]
              && sched.monitor_wnd == old(sched.monitor_wnd) + 1
    ensures !old(sched.Monitoring()) ==>
              && multiset(v) == multiset(old(sched.A())) && InOrder(v)
              && (sched.A(), sched.S()) == Fill(v, [])
              && sched.Tally(multiset(old(sched.all)), |sched.sch|)
              && sched.monitor_wnd == old(sched.monitor_wnd)
  {
    hide *;
    v := [];
    sched.IsMonitoring();
    if sched.monitor_wnd <= sched.progs_nr {
      sched.Monitor();
    } else {
      sched.SortAll();
      v := sched.A();
      sched.NoneYet();
      SixCores();
      FillRestCores(sched, 0, multiset(sched.all));
    }
  }

  /** No program that has to wait has made less progress than one that runs, as far as the sort key tells. */
  lemma RunnersAreBehind(v: seq<Prog>, x: Prog, y: Prog)
    requires InOrder(v) && x in Fill(v, []).1 && y in Fill(v, []).0
    ensures ToInt(x.pd.ratio) <= ToInt(y.pd.ratio)
    ensures x.pd.ratio < 0x8000_0000 ==> x.pd.ratio <= y.pd.ratio
    ensures |Fill(v, []).1| == if |v| < MAX_CORES then |v| else MAX_CORES
  {
    var n := |v| - |Fill(v, []).0|;
    assert Fill(v, []).1 == v[..n];
    KeyFaithful(x.pd.ratio, y.pd.ratio);
  }

  lemma KeyFaithful(r: U64, s: U64)
    ensures r < 0x8000_0000 && ToInt(r) <= ToInt(s) ==> r <= s
  {
  }

  /** The key can be trusted for a program exactly when its ratio survives the conversion to `int`. */
  lemma KeyFaithfulWhen(r: U64)
    ensures (forall s: U64 :: ToInt(r) <= ToInt(s) ==> r <= s) <==> r < 0x8000_0000
  {
    if r >= 0x8000_0000 {
      var s: U64 := if r < TWO_32 then 0 else r % TWO_32;
      assert ToInt(r) <= ToInt(s) && s < r;
    } else {
      forall s: U64 | ToInt(r) <= ToInt(s)
        ensures r <= s
      {
        KeyFaithful(r, s);
      }
    }
  }
}
