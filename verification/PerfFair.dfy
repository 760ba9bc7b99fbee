/** `perf_fair_schedule` on the program lists. */
module PerfFair {
  import opened Machine
  import opened Programs
  import opened Seqs
  import opened Scheds
  import opened Filling
  import opened PerfFairSpec

  /** The pass over the sorted list, with the bandwidth that is left at its end. */
  method ChooseProgs(sched: Sched) returns (cores_allocated: nat, bw_rem: int, ghost p: Pass)
    requires sched.Valid() && sched.sch == []
    modifies sched`all, sched`sch, sched.Repr()`next, sched.Repr()`prev, sched.Repr()`core
    ensures sched.Valid() && sched.Repr() == old(sched.Repr())
    ensures p == FirstPass(old(sched.A()), START)
    ensures sched.A() == p.kept && sched.S() == p.sch && bw_rem == p.bw
    ensures cores_allocated == |sched.sch| <= MAX_CORES
    ensures sched.Tally(multiset(old(sched.all)), cores_allocated)
  {
    hide *;
    StartIs();
    SixCores();
    cores_allocated, bw_rem := 0, BW_LIMIT;
    ghost var m := multiset(sched.all);
    sched.Firsts();
    sched.AtEnd(0);
    sched.Sizes();
    sched.NoneYet();
    var prog := sched.progs_all.next;
    ghost var k := 0;
    ghost var kept, todo := [], sched.A();
    while prog != sched.progs_all
      invariant sched.Valid() && sched.Repr() == old(sched.Repr())
      invariant k == |kept| && |sched.all| == k + |todo| && prog == Pos(sched.progs_all, sched.all, k)
      invariant sched.A() == kept + todo
      invariant FirstPass(todo, Pass(sched.S(), kept, bw_rem)) == FirstPass(old(sched.A()), START)
      invariant cores_allocated <= MAX_CORES && sched.Tally(m, cores_allocated)
      decreases |todo|
    {
      sched.AtEnd(k);
      sched.ProgAt(k);
      sched.Sizes();
      sched.TallySize(m, cores_allocated);
      if cores_allocated == MAX_CORES { break; }
      Middle(kept, todo);
      sched.NextAll(k);
      var tmp := prog.next;
      var pd := prog.pd;
      PassStep(todo, Pass(sched.S(), kept, bw_rem));
      if pd.sum_mem_reads > AsU64(bw_rem - BW_RESERVE) {
        kept := kept + [todo[0]];
        k := k + 1;
      } else {
        SpendIs(bw_rem, pd.sum_mem_reads);
        bw_rem := SubLong(bw_rem, pd.sum_mem_reads);
        if bw_rem < 0 { bw_rem := 0; }
        sched.Assign(prog, cores_allocated, k, m);
        cores_allocated := cores_allocated + CORES_NEEDED;
      }
      todo := todo[1..];
      prog := tmp;
    }
    sched.AtEnd(k);
    sched.Sizes();
    sched.TallySize(m, cores_allocated);
    p := Pass(sched.S(), kept, bw_rem);
    PassStep(todo, p);
    p := p.(kept := kept + todo);
  }

  lemma FitnessIs(bw: int, rd: U64)
    ensures Fitness(bw, rd) == if AsU64(bw) >= rd then ToLong(AsU64(bw) - rd) else ToLong(rd - AsU64(bw))
  {
  }

  lemma FitnessAt(sched: Sched, k: nat)
    requires sched.Valid() && k < |sched.all|
    ensures |sched.A()| == |sched.all| && sched.A()[k].pd == sched.all[k].pd
    ensures sched.all[k] == Pos(sched.progs_all, sched.all, k)
  {
    sched.ProgAt(k);
  }

  /** The scan reads the first program unconditionally: the list must not be empty. */
  method GoodNeighbors(sched: Sched, bw: int, ghost m: multiset<Node>, ghost n: nat) returns (min: Node)
    requires sched.Valid() && sched.Tally(m, n) && sched.all != []
    modifies sched`all, sched`sch, sched.Repr()`next, sched.Repr()`prev
    ensures sched.Valid() && sched.Repr() == old(sched.Repr())
    ensures old(sched.A()) != [] && var (a, s, b) := Neighbor(old(sched.A()), old(sched.S()), bw);
              sched.A() == a && sched.S() == s && b == Spend(bw, min.pd.sum_mem_reads)
    ensures sched.TallyBut(m, n) && min == sched.sch[n]
  {
    hide *;
    ghost var v, k, i := sched.A(), 0, 0;
    sched.Firsts();
    FitnessAt(sched, 0);
    ClosestFirst(bw, v);
    min := sched.progs_all.next;
    FitnessIs(bw, min.pd.sum_mem_reads);
    var min_fitness := if AsU64(bw) >= min.pd.sum_mem_reads then ToLong(AsU64(bw) - min.pd.sum_mem_reads)
                       else ToLong(min.pd.sum_mem_reads - AsU64(bw));
    var prog := sched.progs_all.next;
    while prog != sched.progs_all
      invariant i <= |sched.all| && prog == Pos(sched.progs_all, sched.all, i)
      invariant sched.Valid() && sched.Repr() == old(sched.Repr()) && sched.Tally(m, n)
      invariant v == sched.A() == old(sched.A()) && sched.S() == old(sched.S()) && |v| == |sched.all|
      invariant k < |v| && min == sched.all[k] && min_fitness == Fitness(bw, v[k].pd.sum_mem_reads)
      invariant k == Closest(bw, v[..if i == 0 then 1 else i])
      decreases |v| - i
    {
      sched.AtEnd(i);
      sched.NextAll(i);
      FitnessAt(sched, i);
      if i > 0 { ClosestStep(bw, v, i); }
      var tmp := prog.next;
      var pd := prog.pd;
      FitnessIs(bw, pd.sum_mem_reads);
      var fitness := if AsU64(bw) >= pd.sum_mem_reads then ToLong(AsU64(bw) - pd.sum_mem_reads)
                     else ToLong(pd.sum_mem_reads - AsU64(bw));
      if fitness < min_fitness {
        min, min_fitness, k := prog, fitness, i;
      }
      prog := tmp;
      i := i + 1;
    }
    sched.AtEnd(i);
    FitnessAt(sched, k);
    NeighborIs(v, sched.S(), bw);
    sched.Schedule(min, k, m, n);
  }

  /** The selection outside of monitoring, on the list as the sort leaves it. */
  method Choose(sched: Sched)
    requires sched.Valid() && sched.sch == [] && sched.progs_nr <= |sched.all|
    modifies sched`all, sched`sch, sched.Repr()`next, sched.Repr()`prev, sched.Repr()`core
    ensures sched.Valid() && sched.Repr() == old(sched.Repr())
    ensures sched.progs_nr <= |old(sched.A())| && (sched.A(), sched.S()) == Select(old(sched.A()), sched.progs_nr)
    ensures sched.Tally(multiset(old(sched.all)), |sched.sch|)
  {
    hide *;
    ghost var order, m := sched.A(), multiset(sched.all);
    sched.Sizes();
    var cores_allocated, bw_rem;
    ghost var p;
    cores_allocated, bw_rem, p := ChooseProgs(sched);
    SelectIs(order, sched.progs_nr);
    sched.Sizes();
    sched.Firsts();
    sched.AtEnd(0);
    SixCores();
    if cores_allocated != MAX_CORES && sched.progs_all.next != sched.progs_all {
      if sched.progs_nr <= MAX_CORES {
        FillRestCores(sched, cores_allocated, m);
      } else {
        ghost var g := Grow(p.kept, p.sch, p.bw);
        while cores_allocated != MAX_CORES
          invariant sched.Valid() && sched.Repr() == old(sched.Repr())
          invariant sched.Tally(m, cores_allocated) && cores_allocated == |sched.S()| <= MAX_CORES
          invariant |sched.A()| == |sched.all| && MAX_CORES <= |sched.A()| + |sched.S()|
          invariant Grow(sched.A(), sched.S(), bw_rem) == g
          decreases MAX_CORES - cores_allocated
        {
          GrowStep(sched.A(), sched.S(), bw_rem);
          var prog := GoodNeighbors(sched, bw_rem, m, cores_allocated);
          SpendIs(bw_rem, prog.pd.sum_mem_reads);
          bw_rem := SubLong(bw_rem, prog.pd.sum_mem_reads);
          if bw_rem < 0 { bw_rem := 0; }
          sched.GiveCore(prog, cores_allocated, m);
          sched.Sizes();
          cores_allocated := cores_allocated + CORES_NEEDED;
        }
        GrowDone(sched.A(), sched.S(), bw_rem);
      }
    }
    sched.Sizes();
  }

  lemma NeighborIs(all: seq<Prog>, sch: seq<Prog>, bw: int)
    requires all != []
    ensures var k := Closest(bw, all);
            Neighbor(all, sch, bw) == (Without(all, k), sch + [all[k]], Spend(bw, all[k].pd.sum_mem_reads))
    ensures all[..|all|] == all
  {
  }

  /** `perf_fair_schedule`; `v` is the sorted list that the selection starts from. */
  method Schedule(sched: Sched) returns (ghost v: seq<Prog>)
    requires sched.Valid() && sched.sch == [] && (sched.Monitoring() ==> sched.all != [])
    requires sched.progs_nr <= |sched.all|
    modifies sched`all, sched`sch, sched`monitor_wnd, sched.Repr()`next, sched.Repr()`prev, sched.Repr()`core
    ensures sched.Valid() && sched.Repr() == old(sched.Repr())
    ensures old(sched.Monitoring()) ==>
              && |old(sched.A())| == |old(sched.all)| && sched.sch == [old(sched.all)[0]]
              && sched.A() == Without(old(sched.A()), 0) && sched.S() == [old(sched.A())[0]]
              && sched.monitor_wnd == old(sched.monitor_wnd) + 1
    ensures !old(sched.Monitoring()) ==>
              && multiset(v) == multiset(old(sched.A())) && InOrder(v) && sched.progs_nr <= |v|
              && (sched.A(), sched.S()) == Select(v, sched.progs_nr)
              && |sched.sch| == (if |v| < MAX_CORES then |v| else MAX_CORES)
              && sched.Tally(multiset(old(sched.all)), |sched.sch|)
              && sched.monitor_wnd == old(sched.monitor_wnd)
  {
    hide *;
    v := [];
    sched.IsMonitoring();
    if sched.monitor_wnd <= sched.progs_nr {
      sched.Monitor();
    } else {
      SameSize(sched.all);
      sched.SortAll();
      SameSize(sched.all);
      v := sched.A();
      sched.NoneYet();
      Choose(sched);
      WorkConserving(v, sched.progs_nr);
      sched.Sizes();
    }
  }

  lemma SameSize<T>(s: seq<T>)
    ensures |multiset(s)| == |s|
  {
  }
}
