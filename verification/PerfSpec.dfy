/** The performance policy, src/scheds/perf.c: what `schedule` selects. */
module PerfSpec {
  import opened Machine
  import opened Programs
  import opened Seqs
  import opened Bandwidth

  const BW_LIMIT := 547208745
  const BW_START := BW_LIMIT - 291250000

  /** `perf_max_waiting`: the first of the programs that have waited longest. */
  function Longest(s: seq<Prog>): (k: nat)
    requires s != []
    ensures k < |s|
    ensures forall i :: 0 <= i < |s| ==> s[i].pd.waiting_time <= s[k].pd.waiting_time
    ensures forall i :: 0 <= i < k ==> s[i].pd.waiting_time < s[k].pd.waiting_time
  {
    if |s| == 1 then 0
    else
      var k := Longest(s[..|s| - 1]);
      if s[|s| - 1].pd.waiting_time > s[k].pd.waiting_time then |s| - 1 else k
  }

  lemma LongestStep(s: seq<Prog>, i: nat)
    requires 0 < i < |s|
    ensures Longest(s[..i + 1]) ==
            if s[i].pd.waiting_time > s[Longest(s[..i])].pd.waiting_time then i else Longest(s[..i])
  {
    assert s[..i + 1][..i] == s[..i];
  }

  lemma LongestFirst(s: seq<Prog>)
    requires s != []
    ensures Longest(s[..1]) == 0 && s[..|s|] == s
  {
  }

  /** `pd->fitness`, an unsigned number. */
  function Fitness(bw: int, rd: U64): U64 {
    if AsU64(bw) >= rd then AsU64(AsU64(bw) - rd) else AsU64(rd - AsU64(bw))
  }

  lemma FitnessIs(bw: int, rd: U64)
    ensures Fitness(bw, rd) == if AsU64(bw) >= rd then AsU64(AsU64(bw) - rd) else AsU64(rd - AsU64(bw))
  {
  }

  /** `perf_max_fitness`: the first of the programs with the least fitness. */
  function Nearest(bw: int, s: seq<Prog>): (k: nat)
    requires s != []
    ensures k < |s|
    ensures forall i :: 0 <= i < |s| ==> Fitness(bw, s[k].pd.sum_mem_reads) <= Fitness(bw, s[i].pd.sum_mem_reads)
    ensures forall i :: 0 <= i < k ==> Fitness(bw, s[k].pd.sum_mem_reads) < Fitness(bw, s[i].pd.sum_mem_reads)
  {
    if |s| == 1 then 0
    else
      var k := Nearest(bw, s[..|s| - 1]);
      if Fitness(bw, s[|s| - 1].pd.sum_mem_reads) < Fitness(bw, s[k].pd.sum_mem_reads) then |s| - 1 else k
  }

  lemma NearestStep(bw: int, s: seq<Prog>, i: nat)
    requires 0 < i < |s|
    ensures Nearest(bw, s[..i + 1]) ==
            if Fitness(bw, s[i].pd.sum_mem_reads) < Fitness(bw, s[Nearest(bw, s[..i])].pd.sum_mem_reads) then i
            else Nearest(bw, s[..i])
  {
    assert s[..i + 1][..i] == s[..i];
  }

  lemma NearestFirst(bw: int, s: seq<Prog>)
    requires s != []
    ensures Nearest(bw, s[..1]) == 0 && s[..|s|] == s
  {
  }

  /** Which program is taken next. */
  function Next(all: seq<Prog>, sch: seq<Prog>, bw: int): (k: nat)
    requires all != []
    ensures k < |all|
  {
    if sch == [] then Longest(all) else Nearest(bw, all)
  }

  /** The lists `(progs_all, progs_sch)` at the end, from some point of the loop on. */
  function Select(all: seq<Prog>, sch: seq<Prog>, bw: int): (r: (seq<Prog>, seq<Prog>))
    decreases |all|
  {
    if |sch| >= MAX_CORES || all == [] then (all, sch)
    else
      var k := Next(all, sch, bw);
      Select(Without(all, k), sch + [all[k]], Spend(bw, all[k].pd.sum_mem_reads))
  }

  lemma SelectStep(all: seq<Prog>, sch: seq<Prog>, bw: int)
    ensures Select(all, sch, bw) ==
            if |sch| >= MAX_CORES || all == [] then (all, sch)
            else
              var k := if sch == [] then Longest(all) else Nearest(bw, all);
              Select(Without(all, k), sch + [all[k]], Spend(bw, all[k].pd.sum_mem_reads))
  {
  }

  // ---------- what is selected ----------

  lemma {:induction false} WorkConserving(all: seq<Prog>, sch: seq<Prog>, bw: int)
    requires |sch| <= MAX_CORES
    ensures
      var (a, s) := Select(all, sch, bw);
      && multiset(a) + multiset(s) == multiset(all) + multiset(sch)
      && |s| == (if |all| + |sch| < MAX_CORES then |all| + |sch| else MAX_CORES)
      && sch <= s
    decreases |all|
  {
    if |sch| < MAX_CORES && all != [] {
      var k := Next(all, sch, bw);
      TakeFrom(all, k);
      Append(sch, all[k]);
      Across(multiset(Without(all, k)), multiset(sch), multiset{all[k]}, multiset{});
      WorkConserving(Without(all, k), sch + [all[k]], Spend(bw, all[k].pd.sum_mem_reads));
    }
  }

  /** A program that is passed over does not move back in the list. */
  lemma {:induction false} NeverMovesBack(all: seq<Prog>, sch: seq<Prog>, bw: int, i: nat)
    requires i < |all|
    ensures
      var (a, s) := Select(all, sch, bw);
      all[i] in s || exists j :: 0 <= j <= i && j < |a| && a[j] == all[i]
    decreases |all|
  {
    if |sch| < MAX_CORES && all != [] {
      var k := Next(all, sch, bw);
      if k == i {
        Scheduled(Without(all, k), sch + [all[k]], Spend(bw, all[k].pd.sum_mem_reads), |sch|);
      } else {
        var h := if i < k then i else i - 1;
        assert Without(all, k)[h] == all[i];
        NeverMovesBack(Without(all, k), sch + [all[k]], Spend(bw, all[k].pd.sum_mem_reads), h);
      }
    }
  }

  lemma {:induction false} Scheduled(all: seq<Prog>, sch: seq<Prog>, bw: int, i: nat)
    requires i < |sch|
    ensures i < |Select(all, sch, bw).1| && Select(all, sch, bw).1[i] == sch[i]
    decreases |all|
  {
    if |sch| < MAX_CORES && all != [] {
      var k := Next(all, sch, bw);
      Scheduled(Without(all, k), sch + [all[k]], Spend(bw, all[k].pd.sum_mem_reads), i);
    }
  }

  /** If no program has waited longer than the head, the head runs and all others that do not run move up. */
  lemma HeadRuns(all: seq<Prog>, i: nat)
    requires i < |all|
    requires forall j :: 0 <= j < |all| ==> all[j].pd.waiting_time <= all[0].pd.waiting_time
    ensures
      var (a, s) := Select(all, [], BW_START);
      && s != [] && s[0] == all[0]
      && (all[i] in s || exists j :: 0 <= j < i && j < |a| && a[j] == all[i])
  {
    hide Select;
    SelectStep(all, [], BW_START);
    var bw := Spend(BW_START, all[0].pd.sum_mem_reads);
    assert [] + [all[0]] == [all[0]];
    Scheduled(Without(all, 0), [all[0]], bw, 0);
    if i > 0 {
      assert Without(all, 0)[i - 1] == all[i];
      NeverMovesBack(Without(all, 0), [all[0]], bw, i - 1);
    }
  }
  // ---------- which programs are selected ----------

  /** The program at `k` is the first of those that have waited longest. */
  ghost predicate FirstLongest(all: seq<Prog>, k: nat)
    requires k < |all|
  {
    && (forall i :: 0 <= i < |all| ==> all[i].pd.waiting_time <= all[k].pd.waiting_time)
    && (forall i :: 0 <= i < k ==> all[i].pd.waiting_time < all[k].pd.waiting_time)
  }

  /** The fitness is the distance, whatever the reads. */
  lemma FitnessIsDistance(bw: int, rd: U64)
    requires 0 <= bw <= BW_LIMIT
    ensures Fitness(bw, rd) == Distance(bw, rd)
  {
  }

  lemma NearestIsNearest(all: seq<Prog>, bw: int)
    requires all != [] && 0 <= bw <= BW_LIMIT
    ensures FirstNearest(all, bw, Nearest(bw, all))
  {
    hide Fitness, Distance;
    forall i | 0 <= i < |all|
      ensures Fitness(bw, all[i].pd.sum_mem_reads) == Distance(bw, all[i].pd.sum_mem_reads)
    {
      FitnessIsDistance(bw, all[i].pd.sum_mem_reads);
    }
  }

  lemma {:induction false} RestNearest(all: seq<Prog>, sch: seq<Prog>, bw: int)
    requires sch != [] && Readable(all) && 0 <= bw <= BW_LIMIT
    ensures var (a, s) := Select(all, sch, bw); sch <= s && NearestInTurn(all, bw, s[|sch|..], a)
    decreases |all|
  {
    hide Nearest, FirstNearest, Spend;
    if |sch| < MAX_CORES && all != [] {
      var k := Nearest(bw, all);
      var x := all[k];
      NearestIsNearest(all, bw);
      SpendExact(bw, x.pd.sum_mem_reads);
      RestNearest(Without(all, k), sch + [x], Spend(bw, x.pd.sum_mem_reads));
      var (a, s) := Select(all, sch, bw);
      assert s[|sch|..][0] == x && s[|sch|..][1..] == s[|sch| + 1..];
      assert TakesNearest(all, bw, k, x);
    }
  }

  /**
   * The whole of `schedule`: the first program that has waited longest, then one by one the first program nearest
   * to the bandwidth that is left, which is at first 255958745 reads.
   */
  lemma SelectNearest(all: seq<Prog>)
    requires all != [] && Readable(all)
    ensures
      var k := Longest(all);
      var (a, s) := Select(all, [], BW_START);
      && FirstLongest(all, k) && s != [] && s[0] == all[k]
      && NearestInTurn(Without(all, k), Left(255958745, all[k].pd.sum_mem_reads), s[1..], a)
  {
    hide Select, Longest, NearestInTurn;
    SelectStep(all, [], BW_START);
    var k := Longest(all);
    SpendExact(BW_START, all[k].pd.sum_mem_reads);
    assert [] + [all[k]] == [all[k]];
    RestNearest(Without(all, k), [all[k]], Spend(BW_START, all[k].pd.sum_mem_reads));
  }

  /** A reading from which the bandwidth left is not the difference or zero any more: the overdraft does not fit. */
  lemma SpendGrows()
    ensures Spend(255958745, 0xFFFF_FFFF_FFFF_FFFF) == 255958746
  {
  }
}
