/** `fair_bw_cache_schedule` on the program lists. */
module FairBwCache {
  import opened Machine
  import opened Programs
  import opened Rings
  import opened Seqs
  import opened Scheds
  import opened Filling
  import opened FairBwCacheSpec

  /** The pass over the sorted list, with the program's own counters as they stand at its end. */
  method ChooseProgs(sched: Sched) returns (cores_allocated: nat, bw_on: bool, ghost p: Pass)
    requires sched.Valid() && sched.sch == []
    modifies sched`all, sched`sch, sched.Repr()`next, sched.Repr()`prev, sched.Repr()`core
    ensures sched.Valid() && sched.Repr() == old(sched.Repr())
    ensures p == FirstPass(old(sched.A()), START)
    ensures sched.A() == p.kept && sched.S() == p.sch
    ensures cores_allocated == |sched.sch| <= MAX_CORES && bw_on == p.bwOn
    ensures sched.Tally(multiset(old(sched.all)), cores_allocated)
  {
    hide *;
    StartIs();
    SixCores();
    cores_allocated := 0;
    var bw_rem, llc_rem := BW_LIMIT, LLC_LIMIT;
    bw_on := false;
    var cs_on := false;
    ghost var m := multiset(sched.all);
    sched.Firsts();
    sched.AtEnd(0);
    sched.Sizes();
    sched.NoneYet();
    var prog := sched.progs_all.next;
    ghost var k := 0;
    ghost var kept, todo := [], sched.A();
    while prog != sched.progs_all
      invariant sched.Valid() && sched.Repr() == old(sched.Repr())
      invariant k == |kept| && |sched.all| == k + |todo| && prog == Pos(sched.progs_all, sched.all, k)
      invariant sched.A() == kept + todo
      invariant FirstPass(todo, Pass(sched.S(), kept, bw_rem, llc_rem, bw_on, cs_on))
                == FirstPass(old(sched.A()), START)
      invariant cores_allocated <= MAX_CORES && sched.Tally(m, cores_allocated)
      decreases |todo|
    {
      sched.AtEnd(k);
      sched.ProgAt(k);
      sched.Sizes();
      sched.TallySize(m, cores_allocated);
      if cores_allocated == MAX_CORES { break; }
      Middle(kept, todo);
      sched.NextAll(k);
      var tmp := prog.next;
      var pd := prog.pd;
      p := Pass(sched.S(), kept, bw_rem, llc_rem, bw_on, cs_on);
      PassStep(todo, p);
      SkipsWhen(todo[0].pd, p);
      if (pd.category == BW && (cs_on || pd.sum_mem_reads > AsU64(bw_rem + BW_SLACK)))
         || (pd.category == CS && (bw_on || pd.llc_alone > llc_rem + LLC_SLACK))
         || (pd.category == CNS && cs_on && pd.llc_alone > llc_rem + LLC_SLACK) {
        kept := kept + [todo[0]];
        k := k + 1;
      } else {
        AdmitCounts(todo[0], p);
        if pd.category == BW {
          bw_rem := SubLong(bw_rem, pd.sum_mem_reads);
          bw_on := true;
        }
        if pd.category == CS {
          llc_rem := llc_rem - pd.llc_alone;
          cs_on := true;
        }
        if pd.category == CNS {
          llc_rem := llc_rem - pd.llc_alone;
        }
        sched.Assign(prog, cores_allocated, k, m);
        cores_allocated := cores_allocated + CORES_NEEDED;
      }
      todo := todo[1..];
      prog := tmp;
    }
    sched.AtEnd(k);
    sched.Sizes();
    sched.TallySize(m, cores_allocated);
    p := Pass(sched.S(), kept, bw_rem, llc_rem, bw_on, cs_on);
    PassStep(todo, p);
    p := p.(kept := kept + todo);
  }

  // ---------- good_neighbors ----------

  /** Of the first `i` nodes, those whose program suits (or does not). */
  ghost function Pick(bwOn: bool, yes: bool, s: seq<Node>, v: seq<Prog>, i: nat): seq<Node>
    requires i <= |s| == |v|
  {
    if i == 0 then []
    else Pick(bwOn, yes, s, v, i - 1) + if Suits(bwOn, v[i - 1].pd) == yes then [s[i - 1]] else []
  }

  lemma {:induction false} ViewPick(bwOn: bool, yes: bool, s: seq<Node>, v: seq<Prog>, i: nat)
    requires i <= |s| == |v| && v == View(s)
    ensures View(Pick(bwOn, yes, s, v, i)) == Suited(bwOn, yes, v[..i])
  {
    if i > 0 {
      ViewPick(bwOn, yes, s, v, i - 1);
      SuitedStep(bwOn, yes, v, i - 1);
      ViewAppend(Pick(bwOn, yes, s, v, i - 1), s[i - 1]);
    }
  }

  lemma PickYes(bwOn: bool, s: seq<Node>, v: seq<Prog>, i: nat)
    requires i < |s| == |v| && Suits(bwOn, v[i].pd)
    ensures Pick(bwOn, true, s, v, i + 1) == Pick(bwOn, true, s, v, i) + [s[i]]
    ensures
      var no := Pick(bwOn, false, s, v, i);
      Pick(bwOn, false, s, v, i + 1) == no && Without(no + s[i..], |no|) == no + s[i + 1..]
  {
  }

  lemma PickNo(bwOn: bool, s: seq<Node>, v: seq<Prog>, i: nat)
    requires i < |s| == |v| && !Suits(bwOn, v[i].pd)
    ensures Pick(bwOn, true, s, v, i + 1) == Pick(bwOn, true, s, v, i)
    ensures Pick(bwOn, false, s, v, i) + s[i..] == Pick(bwOn, false, s, v, i + 1) + s[i + 1..]
  {
  }

  /** The iteration stands behind the programs it has left where they were. */
  lemma NextBehind(sched: Sched, rest: Node, r: seq<Node>, no: seq<Node>, s: seq<Node>, i: nat)
    requires sched.Beside(rest, r) && i < |s| && sched.all == no + s[i..]
    ensures sched.all[|no|] == s[i] && s[i].entry && s[i] != sched.progs_all
    ensures s[i].next == Pos(sched.progs_all, s, i + 1)
    ensures |View(s)| == |s| && View(s)[i].pd == s[i].pd
    ensures forall b :: Suits(b, s[i].pd) <==>
            if b then s[i].pd.category == BW else s[i].pd.category == CS || s[i].pd.category == CNS
  {
    sched.FromBeside(rest, r);
    sched.NextAll(|no|);
    assert sched.all[|no|] == s[i];
  }

  /** The programs that suit are set aside on `rest`. */
  method SetAside(sched: Sched, rest: Node, bw_on: bool) returns (ghost r: seq<Node>)
    requires sched.Beside(rest, [])
    modifies sched`all, sched.Repr()`next, sched.Repr()`prev, Cells(rest, [])`next, Cells(rest, [])`prev
    ensures sched.Beside(rest, r)
    ensures sched.Repr() + Cells(rest, r) == old(sched.Repr() + Cells(rest, []))
    ensures multiset(sched.all) + multiset(r) == multiset(old(sched.all))
    ensures View(sched.all) == Suited(bw_on, false, old(View(sched.all)))
    ensures View(r) == Suited(bw_on, true, old(View(sched.all)))
  {
    hide *;
    sched.FromBeside(rest, []);
    sched.Firsts();
    ghost var all0, a0 := sched.all, View(sched.all);
    ViewSize(all0);
    ghost var i := 0;
    PickNone(bw_on, all0, a0);
    r := [];
    var prog := sched.progs_all.next;
    while prog != sched.progs_all
      invariant sched.Beside(rest, r) && sched.progs_all !in all0
      invariant sched.Repr() + Cells(rest, r) == old(sched.Repr() + Cells(rest, []))
      invariant i <= |all0| == |a0| && View(all0) == a0
      invariant sched.all == Pick(bw_on, false, all0, a0, i) + all0[i..]
      invariant r == Pick(bw_on, true, all0, a0, i)
      invariant prog == Pos(sched.progs_all, all0, i)
      decreases |all0| - i
    {
      ghost var no := Pick(bw_on, false, all0, a0, i);
      AtPos(sched.progs_all, all0, i);
      NextBehind(sched, rest, r, no, all0, i);
      var tmp := prog.next;
      var pd := prog.pd;
      if (if bw_on then pd.category == BW else pd.category == CS || pd.category == CNS) {
        PickYes(bw_on, all0, a0, i);
        sched.AllToRest(prog, rest, r, |no|);
        r := r + [prog];
        assert sched.all == Pick(bw_on, false, all0, a0, i + 1) + all0[i + 1..];
      } else {
        PickNo(bw_on, all0, a0, i);
        assert sched.all == Pick(bw_on, false, all0, a0, i + 1) + all0[i + 1..];
      }
      assert r == Pick(bw_on, true, all0, a0, i + 1);
      i := i + 1;
      prog := tmp;
    }
    AtPos(sched.progs_all, all0, i);
    PickAll(bw_on, all0, a0, i);
    PickPerm(bw_on, all0, a0, i);
    assert all0[..i] == all0;
  }

  lemma PickNoAppends(bwOn: bool, s: seq<Node>, v: seq<Prog>, i: nat)
    requires i < |s| == |v| && !Suits(bwOn, v[i].pd)
    ensures Pick(bwOn, true, s, v, i + 1) == Pick(bwOn, true, s, v, i)
    ensures Pick(bwOn, false, s, v, i + 1) == Pick(bwOn, false, s, v, i) + [s[i]]
  {
  }

  lemma {:induction false} PickPerm(bwOn: bool, s: seq<Node>, v: seq<Prog>, i: nat)
    requires i <= |s| == |v|
    ensures multiset(Pick(bwOn, false, s, v, i)) + multiset(Pick(bwOn, true, s, v, i)) == multiset(s[..i])
  {
    hide *;
    if i == 0 {
      PickNone(bwOn, s, v);
      assert s[..0] == [];
    } else {
      PickPerm(bwOn, s, v, i - 1);
      var no, yes, x := Pick(bwOn, false, s, v, i - 1), Pick(bwOn, true, s, v, i - 1), s[i - 1];
      Append(s[..i - 1], x);
      assert s[..i] == s[..i - 1] + [x];
      if Suits(bwOn, v[i - 1].pd) {
        PickYes(bwOn, s, v, i - 1);
        Append(yes, x);
        Across(multiset(no), multiset(yes), multiset{x}, multiset{});
      } else {
        PickNoAppends(bwOn, s, v, i - 1);
        Append(no, x);
        Across(multiset(no), multiset(yes), multiset{x}, multiset{});
      }
    }
  }

  lemma PickAll(bwOn: bool, s: seq<Node>, v: seq<Prog>, i: nat)
    requires i == |s| == |v| && v == View(s)
    ensures Pick(bwOn, false, s, v, i) + s[i..] == Pick(bwOn, false, s, v, i)
    ensures View(Pick(bwOn, false, s, v, i)) == Suited(bwOn, false, v)
    ensures View(Pick(bwOn, true, s, v, i)) == Suited(bwOn, true, v)
  {
    ViewPick(bwOn, false, s, v, i);
    ViewPick(bwOn, true, s, v, i);
    assert v[..i] == v;
  }

  lemma PickNone(bwOn: bool, s: seq<Node>, v: seq<Prog>)
    requires |s| == |v|
    ensures Pick(bwOn, true, s, v, 0) == Pick(bwOn, false, s, v, 0) == []
  {
  }

  lemma DemandOf(r: seq<Node>, i: nat)
    requires i < |r|
    ensures |View(r)| == |r| && View(r)[i].pd == r[i].pd
    ensures Demand(true, r[i].pd) == r[i].pd.sum_mem_reads && Demand(false, r[i].pd) == r[i].pd.llc_alone
  {
  }

  /** The scan for the first program with the least demand. */
  method LeastDemand(sched: Sched, rest: Node, bw_on: bool, ghost r: seq<Node>) returns (min: Node, ghost k: nat)
    requires sched.Beside(rest, r) && r != []
    ensures |View(r)| == |r| && k == Least(bw_on, View(r)) && k < |r| && min == r[k]
    ensures sched.Beside(rest, r) && sched.Repr() + Cells(rest, r) == old(sched.Repr() + Cells(rest, r))
    ensures View(r) == old(View(r)) && View(sched.all) == old(View(sched.all))
    ensures View(sched.sch) == old(View(sched.sch))
  {
    hide *;
    ghost var v := View(r);
    sched.BesideNext(rest, r, 0);
    AtPos(rest, r, 0);
    DemandOf(r, 0);
    LeastFirst(bw_on, v);
    min := rest.next;
    k := 0;
    var prog := rest.next;
    ghost var i := 0;
    while prog != rest
      invariant i <= |r| && prog == Pos(rest, r, i)
      invariant sched.Beside(rest, r) && rest !in r && v == View(r) && |v| == |r|
      invariant k < |r| && min == r[k]
      invariant k == Least(bw_on, v[..if i == 0 then 1 else i])
      decreases |r| - i
    {
      AtPos(rest, r, i);
      sched.BesideNext(rest, r, i);
      DemandOf(r, i);
      DemandOf(r, k);
      if i > 0 { LeastStep(bw_on, v, i); }
      var tmp := prog.next;
      if bw_on {
        if prog.pd.sum_mem_reads < min.pd.sum_mem_reads { min, k := prog, i; }
      } else {
        if prog.pd.llc_alone < min.pd.llc_alone { min, k := prog, i; }
      }
      prog := tmp;
      i := i + 1;
    }
    AtPos(rest, r, i);
    LeastFirst(bw_on, v);
  }

  /** What is left on `rest` goes back behind the programs that were not set aside. */
  method PutBack(sched: Sched, rest: Node, ghost r0: seq<Node>)
    requires sched.Beside(rest, r0)
    modifies sched`all, sched.Repr()`next, sched.Repr()`prev, Cells(rest, r0)`next, Cells(rest, r0)`prev
    ensures sched.Beside(rest, []) && sched.all == old(sched.all) + r0
    ensures sched.Repr() + Cells(rest, []) == old(sched.Repr() + Cells(rest, r0))
    ensures View(sched.all) == old(View(sched.all)) + old(View(r0)) && View(sched.sch) == old(View(sched.sch))
  {
    hide *;
    ghost var i := 0;
    sched.BesideNext(rest, r0, 0);
    assert r0[0..] == r0;
    var prog := rest.next;
    while prog != rest
      invariant i <= |r0| && sched.Beside(rest, r0[i..]) && rest !in r0
      invariant sched.all == old(sched.all) + r0[..i]
      invariant View(old(sched.all)) == old(View(sched.all)) && View(r0) == old(View(r0))
      invariant View(sched.sch) == old(View(sched.sch))
      invariant sched.Repr() + Cells(rest, r0[i..]) == old(sched.Repr() + Cells(rest, r0))
      invariant prog == Pos(rest, r0, i)
      decreases |r0| - i
    {
      AtPos(rest, r0, i);
      sched.BesideNext(rest, r0[i..], 0);
      PosTail(rest, r0, i);
      var tmp := prog.next;
      sched.RestToAll(prog, rest, r0[i..], 0);
      prog := tmp;
      i := i + 1;
    }
    AtPos(rest, r0, i);
    assert r0[i..] == [] && r0[..i] == r0;
    ViewConcat(old(sched.all), r0);
  }

  lemma PosTail(rest: Node, r: seq<Node>, i: nat)
    requires i < |r|
    ensures r[i..][0] == r[i] && Pos(rest, r[i..], 1) == Pos(rest, r, i + 1)
    ensures Without(r[i..], 0) == r[i + 1..] && r[..i] + [r[i]] == r[..i + 1]
  {
  }

  lemma NeighborIs(bwOn: bool, a: seq<Prog>, s: seq<Prog>, k: nat)
    requires Suited(bwOn, true, a) != [] && k == Least(bwOn, Suited(bwOn, true, a))
    ensures var v := Suited(bwOn, true, a);
            Neighbor(bwOn, a, s) == (Suited(bwOn, false, a) + Without(v, k), s + [v[k]])
  {
  }

  lemma NeighborPerm<T>(m: multiset<T>, all0: seq<T>, no: seq<T>, r: seq<T>, sch: seq<T>, k: nat)
    requires multiset(all0) + multiset(sch) == m && multiset(no) + multiset(r) == multiset(all0)
    requires k < |r|
    ensures multiset(no + Without(r, k)) + multiset(sch + [r[k]]) == m
  {
    TakeFrom(r, k);
    var x, w := multiset{r[k]}, multiset(Without(r, k));
    Across(multiset(no) + w, multiset(sch), x, multiset{});
    assert multiset(no + Without(r, k)) == multiset(no) + w && multiset(sch + [r[k]]) == multiset(sch) + x;
  }

  lemma NothingAside<T>(m: multiset<T>, all0: seq<T>, no: seq<T>, r: seq<T>, sch: seq<T>)
    requires multiset(all0) + multiset(sch) == m && multiset(no) + multiset(r) == multiset(all0) && r == []
    ensures multiset(no) + multiset(sch) == m
  {
  }

  method GoodNeighbors(sched: Sched, bw_on: bool, ghost m: multiset<Node>, ghost n: nat) returns (min: Node?)
    requires sched.Valid() && sched.Tally(m, n)
    modifies sched`all, sched`sch, sched.Repr()`next, sched.Repr()`prev
    ensures sched.Valid() && sched.Repr() == old(sched.Repr())
    ensures min == null <==> Suited(bw_on, true, old(sched.A())) == []
    ensures min == null ==> sched.A() == old(sched.A()) && sched.S() == old(sched.S()) && sched.Tally(m, n)
    ensures min != null ==> (sched.A(), sched.S()) == Neighbor(bw_on, old(sched.A()), old(sched.S()))
    ensures min != null ==> sched.TallyBut(m, n) && min == sched.sch[n]
  {
    hide *;
    sched.TallyIs(m, n);
    sched.Views();
    ghost var a, s := View(sched.all), View(sched.sch);
    var rest := sched.RestList();
    sched.Views();
    ghost var r := SetAside(sched, rest, bw_on);
    sched.BesideNext(rest, r, 0);
    AtPos(rest, r, 0);
    ViewSize(r);
    if rest.next == rest {
      NoneSuits(bw_on, a);
      sched.RestGone(rest, old(sched.Repr()));
      sched.Views();
      NothingAside(m, old(sched.all), sched.all, r, sched.sch);
      sched.IsTally(m, n);
      return null;
    }
    ghost var k;
    min, k := LeastDemand(sched, rest, bw_on, r);
    NeighborIs(bw_on, a, s, k);
    NeighborPerm(m, old(sched.all), sched.all, r, sched.sch, k);
    TakeBest(sched, rest, min, r, k, m, n);
    sched.RestGone(rest, old(sched.Repr()));
    sched.Views();
  }

  /** The chosen program joins the scheduled ones, and the others go back. */
  method TakeBest(sched: Sched, rest: Node, min: Node, ghost r: seq<Node>, ghost k: nat, ghost m: multiset<Node>,
                  ghost n: nat)
    requires sched.Beside(rest, r) && k < |r| && min == r[k]
    requires |sched.sch| == n && forall i :: 0 <= i < n ==> sched.sch[i].core == i
    requires multiset(sched.all + Without(r, k)) + multiset(sched.sch + [r[k]]) == m
    modifies sched`all, sched`sch, sched.Repr()`next, sched.Repr()`prev, Cells(rest, r)`next, Cells(rest, r)`prev
    ensures sched.Beside(rest, []) && sched.Repr() + Cells(rest, []) == old(sched.Repr() + Cells(rest, r))
    ensures |old(View(r))| == |r| && View(sched.all) == old(View(sched.all)) + Without(old(View(r)), k)
    ensures View(sched.sch) == old(View(sched.sch)) + [old(View(r))[k]]
    ensures sched.TallyBut(m, n) && min == sched.sch[n]
  {
    hide *;
    sched.RestToSch(min, rest, r, k);
    PutBack(sched, rest, Without(r, k));
    sched.IsTallyBut(m, n);
  }

  /** The selection outside of monitoring, on the list as the sort leaves it. */
  method Choose(sched: Sched)
    requires sched.Valid() && sched.sch == []
    modifies sched`all, sched`sch, sched.Repr()`next, sched.Repr()`prev, sched.Repr()`core
    ensures sched.Valid() && sched.Repr() == old(sched.Repr())
    ensures (sched.A(), sched.S()) == Select(old(sched.A()), sched.progs_nr)
    ensures sched.Tally(multiset(old(sched.all)), |sched.sch|)
  {
    hide *;
    ghost var order, m := sched.A(), multiset(sched.all);
    var cores_allocated, bw_on;
    ghost var p;
    cores_allocated, bw_on, p := ChooseProgs(sched);
    sched.Sizes();
    sched.Firsts();
    sched.AtEnd(0);
    SixCores();
    if cores_allocated != MAX_CORES && sched.progs_all.next != sched.progs_all {
      if sched.progs_nr <= MAX_CORES {
        SelectIs(order, sched.progs_nr, p.kept, p.sch);
        FillRestCores(sched, cores_allocated, m);
      } else {
        ghost var g := Grow(bw_on, p.kept, p.sch);
        SelectIs(order, sched.progs_nr, g.0, g.1);
        while cores_allocated != MAX_CORES
          invariant sched.Valid() && sched.Repr() == old(sched.Repr())
          invariant sched.Tally(m, cores_allocated) && cores_allocated == |sched.S()| <= MAX_CORES
          invariant Grow(bw_on, sched.A(), sched.S()) == g
          decreases MAX_CORES - cores_allocated
        {
          ghost var a, s := sched.A(), sched.S();
          var prog := GoodNeighbors(sched, bw_on, m, cores_allocated);
          if prog != null {
            GrowStep(bw_on, a, s);
            sched.GiveCore(prog, cores_allocated, m);
            cores_allocated := cores_allocated + CORES_NEEDED;
          } else {
            GrowDone(bw_on, a, s);
            FillRestCores(sched, cores_allocated, m);
            sched.Sizes();
            return;
          }
        }
        GrowDone(bw_on, sched.A(), sched.S());
        FillFull(sched.A(), sched.S());
      }
    } else {
      FullOrEmpty(order, sched.progs_nr);
    }
    sched.Sizes();
  }

  /** `fair_bw_cache_schedule`; `v` is the sorted list that the selection starts from. */
  method Schedule(sched: Sched) returns (ghost v: seq<Prog>)
    requires sched.Valid() && sched.sch == [] && (sched.Monitoring() ==> sched.all != [])
    modifies sched`all, sched`sch, sched`monitor_wnd, sched.Repr()`next, sched.Repr()`prev, sched.Repr()`core
    ensures sched.Valid() && sched.Repr() == old(sched.Repr())
    ensures old(sched.Monitoring()) ==>
              && |old(sched.A())| == |old(sched.all)| && sched.sch == [old(sched.all)[0]]
              && sched.A() == Without(old(sched.A()), 0) && sched.S() == [old(sched.A())[0]]
              && sched.monitor_wnd == old(sched.monitor_wnd) + 1
    ensures !old(sched.Monitoring()) ==>
              && multiset(v) == multiset(old(sched.A())) && InOrder(v)
              && (sched.A(), sched.S()) == Select(v, sched.progs_nr)
              && |sched.sch| == (if |v| < MAX_CORES then |v| else MAX_CORES)
              && sched.Tally(multiset(old(sched.all)), |sched.sch|)
              && sched.monitor_wnd == old(sched.monitor_wnd)
  {
    hide *;
    v := [];
    if sched.monitor_wnd <= sched.progs_nr {
      sched.IsMonitoring();
      sched.Monitor();
    } else {
      sched.IsMonitoring();
      sched.SortAll();
      v := sched.A();
      sched.NoneYet();
      Choose(sched);
      WorkConserving(v, sched.progs_nr);
      sched.Sizes();
    }
  }
}
