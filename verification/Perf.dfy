/** `perf_schedule` on the program lists. */
module Perf {
  import opened Machine
  import opened Programs
  import opened Seqs
  import opened Scheds
  import opened PerfSpec

  lemma FitnessAt(sched: Sched, k: nat)
    requires sched.Valid() && k < |sched.all|
    ensures |sched.A()| == |sched.all| && sched.A()[k].pd == sched.all[k].pd
    ensures sched.all[k] == Pos(sched.progs_all, sched.all, k)
  {
    sched.ProgAt(k);
  }

  /** `perf_max_waiting`, and the append to the scheduled programs that its caller makes. */
  method MaxWaiting(sched: Sched, ghost m: multiset<Node>, ghost n: nat) returns (max: Node?)
    requires sched.Valid() && sched.Tally(m, n)
    modifies sched`all, sched`sch, sched.Repr()`next, sched.Repr()`prev
    ensures sched.Valid() && sched.Repr() == old(sched.Repr())
    ensures max == null <==> old(sched.A()) == []
    ensures max == null ==> sched.A() == old(sched.A()) && sched.S() == old(sched.S()) && sched.Tally(m, n)
    ensures max != null ==> Taken(sched.A(), sched.S(), old(sched.A()), old(sched.S()), Longest(old(sched.A())), max.pd)
                            && sched.TallyBut(m, n) && max == sched.sch[n]
  {
    hide *;
    ghost var v, k, i := sched.A(), 0, 0;
    sched.Sizes();
    sched.Firsts();
    sched.AtEnd(0);
    if sched.progs_all.next == sched.progs_all { return null; }
    FitnessAt(sched, 0);
    LongestFirst(v);
    max := sched.progs_all.next;
    var prog := sched.progs_all.next;
    while prog != sched.progs_all
      invariant i <= |sched.all| && prog == Pos(sched.progs_all, sched.all, i)
      invariant sched.Valid() && sched.Repr() == old(sched.Repr()) && sched.Tally(m, n)
      invariant v == sched.A() == old(sched.A()) && sched.S() == old(sched.S())
      invariant k < |v| == |sched.all| && max == sched.all[k]
      invariant k == Longest(v[..if i == 0 then 1 else i])
      decreases |v| - i
    {
      sched.AtEnd(i);
      sched.NextAll(i);
      FitnessAt(sched, i);
      FitnessAt(sched, k);
      if i > 0 { LongestStep(v, i); }
      var temp := prog.next;
      if prog.pd.waiting_time > max.pd.waiting_time {
        max, k := prog, i;
      }
      prog := temp;
      i := i + 1;
    }
    sched.AtEnd(i);
    FitnessAt(sched, k);
    IsTaken(v, sched.S(), k);
    sched.Schedule(max, k, m, n);
  }

  /** The lists after the k-th program, with data `pd`, has been moved to the end of the scheduled ones. */
  ghost predicate Taken(a': seq<Prog>, s': seq<Prog>, a: seq<Prog>, s: seq<Prog>, k: nat, pd: ProgData)
    requires a != []
  {
    k < |a| && a[k].pd == pd && a' == Without(a, k) && s' == s + [a[k]]
  }

  lemma IsTaken(a: seq<Prog>, s: seq<Prog>, k: nat)
    requires k < |a|
    ensures Taken(Without(a, k), s + [a[k]], a, s, k, a[k].pd)
  {
  }

  lemma TakenIs(a': seq<Prog>, s': seq<Prog>, a: seq<Prog>, s: seq<Prog>, k: nat, pd: ProgData)
    requires a != [] && Taken(a', s', a, s, k, pd)
    ensures k < |a| && a[k].pd == pd && a' == Without(a, k) && s' == s + [a[k]]
  {
  }

  /** `perf_max_fitness`, and the append that its caller makes; the fitness of every program is stored. */
  method MaxFitness(sched: Sched, bw_rem: int, ghost m: multiset<Node>, ghost n: nat) returns (min: Node?)
    requires sched.Valid() && sched.Tally(m, n)
    modifies sched`all, sched`sch, sched.Repr()`next, sched.Repr()`prev, sched.Repr()`fitness
    ensures sched.Valid() && sched.Repr() == old(sched.Repr())
    ensures min == null <==> old(sched.A()) == []
    ensures min == null ==> sched.A() == old(sched.A()) && sched.S() == old(sched.S()) && sched.Tally(m, n)
    ensures min != null ==> Taken(sched.A(), sched.S(), old(sched.A()), old(sched.S()),
                                  Nearest(bw_rem, old(sched.A())), min.pd)
                            && sched.TallyBut(m, n) && min == sched.sch[n]
  {
    hide *;
    ghost var v, k, i := sched.A(), 0, 0;
    sched.Sizes();
    sched.Firsts();
    sched.AtEnd(0);
    if sched.progs_all.next == sched.progs_all { return null; }
    FitnessAt(sched, 0);
    NearestFirst(bw_rem, v);
    min := sched.progs_all.next;
    var prog := sched.progs_all.next;
    while prog != sched.progs_all
      invariant i <= |sched.all| && prog == Pos(sched.progs_all, sched.all, i)
      invariant sched.Valid() && sched.Repr() == old(sched.Repr()) && sched.Tally(m, n)
      invariant v == sched.A() == old(sched.A()) && sched.S() == old(sched.S())
      invariant k < |v| == |sched.all| && min == sched.all[k]
      invariant k == Nearest(bw_rem, v[..if i == 0 then 1 else i])
      invariant i > 0 ==> min.fitness == Fitness(bw_rem, v[k].pd.sum_mem_reads)
      decreases |v| - i
    {
      sched.AtEnd(i);
      sched.NextAll(i);
      sched.Apart(i);
      FitnessAt(sched, i);
      FitnessAt(sched, k);
      if i > 0 {
        NearestStep(bw_rem, v, i);
        AllApart(sched, k, i);
      }
      var temp := prog.next;
      var pd := prog.pd;
      FitnessIs(bw_rem, pd.sum_mem_reads);
      prog.fitness := if AsU64(bw_rem) >= pd.sum_mem_reads then AsU64(AsU64(bw_rem) - pd.sum_mem_reads)
                      else AsU64(pd.sum_mem_reads - AsU64(bw_rem));
      if prog.fitness < min.fitness {
        min, k := prog, i;
      }
      prog := temp;
      i := i + 1;
    }
    sched.AtEnd(i);
    FitnessAt(sched, k);
    IsTaken(v, sched.S(), k);
    sched.Schedule(min, k, m, n);
  }

  lemma AllApart(sched: Sched, k: nat, i: nat)
    requires sched.Valid() && k < |sched.all| && i < |sched.all|
    ensures sched.all[k] == sched.all[i] <==> k == i
  {
  }

  /** `perf_schedule` */
  method Schedule(sched: Sched)
    requires sched.Valid() && sched.sch == [] && (sched.Monitoring() ==> sched.all != [])
    modifies sched`all, sched`sch, sched`monitor_wnd
    modifies sched.Repr()`next, sched.Repr()`prev, sched.Repr()`core, sched.Repr()`fitness
    ensures sched.Valid() && sched.Repr() == old(sched.Repr())
    ensures old(sched.Monitoring()) ==>
              && |old(sched.A())| == |old(sched.all)| && sched.sch == [old(sched.all)[0]]
              && sched.A() == Without(old(sched.A()), 0) && sched.S() == [old(sched.A())[0]]
              && sched.monitor_wnd == old(sched.monitor_wnd) + 1
    ensures !old(sched.Monitoring()) ==>
              && (sched.A(), sched.S()) == Select(old(sched.A()), [], BW_START)
              && sched.Tally(multiset(old(sched.all)), |sched.sch|)
              && sched.monitor_wnd == old(sched.monitor_wnd)
  {
    hide *;
    SixCores();
    sched.IsMonitoring();
    if sched.monitor_wnd <= sched.progs_nr {
      sched.Monitor();
    } else {
      var cores_allocated: nat, bw_rem := 0, BW_START;
      ghost var m := multiset(sched.all);
      sched.NoneYet();
      while cores_allocated < MAX_CORES
        invariant sched.Valid() && sched.Repr() == old(sched.Repr())
        invariant cores_allocated <= MAX_CORES && sched.Tally(m, cores_allocated) && |sched.S()| == cores_allocated
        invariant sched.monitor_wnd == old(sched.monitor_wnd)
        invariant Select(sched.A(), sched.S(), bw_rem) == Select(old(sched.A()), [], BW_START)
      {
        ghost var a, s := sched.A(), sched.S();
        SelectStep(a, s, bw_rem);
        var prog: Node?;
        if cores_allocated == 0 {
          prog := MaxWaiting(sched, m, cores_allocated);
        } else {
          prog := MaxFitness(sched, bw_rem, m, cores_allocated);
        }
        if prog != null {
          TakenIs(sched.A(), sched.S(), a, s, if s == [] then Longest(a) else Nearest(bw_rem, a), prog.pd);
          SpendIs(bw_rem, prog.pd.sum_mem_reads);
          bw_rem := SubLong(bw_rem, prog.pd.sum_mem_reads);
          if bw_rem < 0 { bw_rem := 0; }
          sched.GiveCore(prog, cores_allocated, m);
          cores_allocated := cores_allocated + CORES_NEEDED;
        } else {
          break;
        }
      }
      SelectStep(sched.A(), sched.S(), bw_rem);
      sched.Sizes();
      sched.TallySize(m, cores_allocated);
    }
  }
}
