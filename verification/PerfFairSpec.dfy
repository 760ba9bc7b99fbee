/** The performance and fairness policy, src/scheds/perf_fair.c: what `schedule` selects. */
module PerfFairSpec {
  import opened Machine
  import opened Programs
  import opened Seqs
  import opened Filling
  import opened Bandwidth

  const BW_LIMIT := 547208745
  const BW_RESERVE := 271250000

  datatype Pass = Pass(sch: seq<Prog>, kept: seq<Prog>, bw: int)

  predicate Skips(d: ProgData, bw: int) {
    d.sum_mem_reads > AsU64(bw - BW_RESERVE)
  }

  /** The first pass over the sorted list: what is admitted, what is passed over, and the bandwidth left. */
  function FirstPass(todo: seq<Prog>, p: Pass): Pass
    decreases |todo|
  {
    if todo == [] || |p.sch| == MAX_CORES then p.(kept := p.kept + todo)
    else if Skips(todo[0].pd, p.bw) then FirstPass(todo[1..], p.(kept := p.kept + [todo[0]]))
    else FirstPass(todo[1..], Pass(p.sch + [todo[0]], p.kept, Spend(p.bw, todo[0].pd.sum_mem_reads)))
  }

  const START := Pass([], [], BW_LIMIT)

  lemma StartIs()
    ensures START == Pass([], [], BW_LIMIT)
  {
  }

  lemma PassStep(todo: seq<Prog>, p: Pass)
    ensures FirstPass(todo, p) ==
            if todo == [] || |p.sch| == MAX_CORES then p.(kept := p.kept + todo)
            else if Skips(todo[0].pd, p.bw) then FirstPass(todo[1..], p.(kept := p.kept + [todo[0]]))
            else FirstPass(todo[1..], Pass(p.sch + [todo[0]], p.kept, Spend(p.bw, todo[0].pd.sum_mem_reads)))
    ensures todo != [] ==> (Skips(todo[0].pd, p.bw) <==> todo[0].pd.sum_mem_reads > AsU64(p.bw - BW_RESERVE))
  {
    hide Spend, AsU64;
  }

  // ---------- good_neighbors ----------

  /** The distance of a program's reads to the bandwidth that is left, as the program computes it. */
  function Fitness(bw: int, rd: U64): int {
    if AsU64(bw) >= rd then ToLong(AsU64(bw) - rd) else ToLong(rd - AsU64(bw))
  }

  /** The first of the programs with the least `Fitness`. */
  function Closest(bw: int, s: seq<Prog>): (k: nat)
    requires s != []
    ensures k < |s|
    ensures forall i :: 0 <= i < |s| ==> Fitness(bw, s[k].pd.sum_mem_reads) <= Fitness(bw, s[i].pd.sum_mem_reads)
    ensures forall i :: 0 <= i < k ==> Fitness(bw, s[k].pd.sum_mem_reads) < Fitness(bw, s[i].pd.sum_mem_reads)
  {
    if |s| == 1 then 0
    else
      var k := Closest(bw, s[..|s| - 1]);
      if Fitness(bw, s[|s| - 1].pd.sum_mem_reads) < Fitness(bw, s[k].pd.sum_mem_reads) then |s| - 1 else k
  }

  lemma ClosestStep(bw: int, s: seq<Prog>, i: nat)
    requires 0 < i < |s|
    ensures Closest(bw, s[..i + 1]) ==
            if Fitness(bw, s[i].pd.sum_mem_reads) < Fitness(bw, s[Closest(bw, s[..i])].pd.sum_mem_reads) then i
            else Closest(bw, s[..i])
  {
    assert s[..i + 1][..i] == s[..i];
  }

  lemma ClosestFirst(bw: int, s: seq<Prog>)
    requires s != []
    ensures Closest(bw, s[..1]) == 0 && s[..|s|] == s
  {
  }

  /** The lists and the bandwidth left after one more neighbor. */
  function Neighbor(all: seq<Prog>, sch: seq<Prog>, bw: int): (seq<Prog>, seq<Prog>, int)
    requires all != []
  {
    var k := Closest(bw, all);
    (Without(all, k), sch + [all[k]], Spend(bw, all[k].pd.sum_mem_reads))
  }

  function Grow(all: seq<Prog>, sch: seq<Prog>, bw: int): (r: (seq<Prog>, seq<Prog>))
    requires |sch| <= MAX_CORES <= |all| + |sch|
    decreases MAX_CORES - |sch|
  {
    if |sch| == MAX_CORES then (all, sch)
    else
      var (a, s, b) := Neighbor(all, sch, bw);
      Grow(a, s, b)
  }

  lemma GrowStep(all: seq<Prog>, sch: seq<Prog>, bw: int)
    requires |sch| < MAX_CORES <= |all| + |sch|
    ensures
      var (a, s, b) := Neighbor(all, sch, bw);
      |s| == |sch| + 1 && |a| + |s| == |all| + |sch| && Grow(all, sch, bw) == Grow(a, s, b)
  {
  }

  lemma GrowDone(all: seq<Prog>, sch: seq<Prog>, bw: int)
    requires |sch| == MAX_CORES
    ensures Grow(all, sch, bw) == (all, sch)
  {
  }

  /** The lists `(progs_all, progs_sch)` after `schedule`, for `nr` programs in the sorted list. */
  function Select(order: seq<Prog>, nr: int): (seq<Prog>, seq<Prog>)
    requires nr <= |order|
  {
    var p := FirstPass(order, START);
    FirstPassSize(order, START);
    if nr <= MAX_CORES then Fill(p.kept, p.sch) else Grow(p.kept, p.sch, p.bw)
  }

  lemma SelectIs(order: seq<Prog>, nr: int)
    requires nr <= |order|
    ensures
      var p := FirstPass(order, START);
      && |p.sch| <= MAX_CORES && |p.kept| + |p.sch| == |order|
      && Select(order, nr) == (if nr <= MAX_CORES then Fill(p.kept, p.sch) else Grow(p.kept, p.sch, p.bw))
      && (|p.sch| == MAX_CORES || p.kept == [] ==> Select(order, nr) == (p.kept, p.sch))
  {
    var p := FirstPass(order, START);
    FirstPassSize(order, START);
    if |p.sch| == MAX_CORES {
      FillFull(p.kept, p.sch);
    } else if p.kept == [] {
      FillIs(p.kept, p.sch, 0);
      assert p.sch + p.kept[..0] == p.sch;
    }
  }

  lemma {:induction false} FirstPassSize(todo: seq<Prog>, p: Pass)
    requires |p.sch| <= MAX_CORES
    ensures var q := FirstPass(todo, p);
            |q.sch| <= MAX_CORES && |q.kept| + |q.sch| == |p.kept| + |p.sch| + |todo|
    decreases |todo|
  {
    if todo != [] && |p.sch| != MAX_CORES {
      if Skips(todo[0].pd, p.bw) {
        FirstPassSize(todo[1..], p.(kept := p.kept + [todo[0]]));
      } else {
        FirstPassSize(todo[1..], Pass(p.sch + [todo[0]], p.kept, Spend(p.bw, todo[0].pd.sum_mem_reads)));
      }
    }
  }

  // ---------- the bandwidth that the first pass leaves ----------

  function Reads(s: seq<Prog>): int {
    if s == [] then 0 else Reads(s[..|s| - 1]) + s[|s| - 1].pd.sum_mem_reads
  }

  /** Every step of the first pass leaves the reserve, so the unsigned comparison never sees a negative number. */
  ghost predicate Reserved(p: Pass) {
    p.bw == BW_LIMIT - Reads(p.sch) && BW_RESERVE <= p.bw
  }

  lemma {:induction false} FirstPassReserved(todo: seq<Prog>, p: Pass)
    requires Reserved(p) && p.bw <= BW_LIMIT
    ensures Reserved(FirstPass(todo, p))
    ensures Reads(FirstPass(todo, p).sch) <= 275958745
    decreases |todo|
  {
    if todo != [] && |p.sch| != MAX_CORES {
      var x := todo[0];
      if Skips(x.pd, p.bw) {
        FirstPassReserved(todo[1..], p.(kept := p.kept + [x]));
      } else {
        assert (p.sch + [x])[..|p.sch|] == p.sch;
        FirstPassReserved(todo[1..], Pass(p.sch + [x], p.kept, Spend(p.bw, x.pd.sum_mem_reads)));
      }
    }
  }

  /** The first pass by the sum of the reads alone: what is admitted, and what is passed over. */
  function ByReads(todo: seq<Prog>, sch: seq<Prog>, kept: seq<Prog>): (r: (seq<Prog>, seq<Prog>))
    decreases |todo|
  {
    if todo == [] || |sch| == MAX_CORES then (sch, kept + todo)
    else if Reads(sch) + todo[0].pd.sum_mem_reads <= 275958745 then ByReads(todo[1..], sch + [todo[0]], kept)
    else ByReads(todo[1..], sch, kept + [todo[0]])
  }

  /** A program is admitted exactly when it leaves the reserve; no wrap-around is involved. */
  lemma {:induction false} AdmitsExactly(todo: seq<Prog>, p: Pass)
    requires Reserved(p) && p.bw <= BW_LIMIT
    ensures (FirstPass(todo, p).sch, FirstPass(todo, p).kept) == ByReads(todo, p.sch, p.kept)
    ensures FirstPass(todo, p).bw == 547208745 - Reads(FirstPass(todo, p).sch)
    decreases |todo|
  {
    if todo != [] && |p.sch| != MAX_CORES {
      var x := todo[0];
      if Skips(x.pd, p.bw) {
        AdmitsExactly(todo[1..], p.(kept := p.kept + [x]));
      } else {
        assert (p.sch + [x])[..|p.sch|] == p.sch;
        AdmitsExactly(todo[1..], Pass(p.sch + [x], p.kept, Spend(p.bw, x.pd.sum_mem_reads)));
      }
    }
  }

  // ---------- the neighbors ----------

  /** The computed fitness is the distance exactly when the distance is a `long long int`. */
  lemma FitnessIsDistance(bw: int, rd: U64)
    requires 0 <= bw <= BW_LIMIT
    ensures Fitness(bw, rd) == Distance(bw, rd) <==> rd - bw < 0x8000_0000_0000_0000
  {
  }

  /** With readings below 2^63 the neighbor is the first program at the least distance from the bandwidth left. */
  lemma NeighborIsNearest(all: seq<Prog>, sch: seq<Prog>, bw: int, i: nat)
    requires all != [] && 0 <= bw <= BW_LIMIT && i < |all|
    requires forall j :: 0 <= j < |all| ==> all[j].pd.sum_mem_reads < 0x8000_0000_0000_0000
    ensures
      var k := Closest(bw, all);
      && Neighbor(all, sch, bw).1 == sch + [all[k]]
      && Distance(bw, all[k].pd.sum_mem_reads) <= Distance(bw, all[i].pd.sum_mem_reads)
      && (i < k ==> Distance(bw, all[k].pd.sum_mem_reads) < Distance(bw, all[i].pd.sum_mem_reads))
  {
    FitnessIsDistance(bw, all[Closest(bw, all)].pd.sum_mem_reads);
    FitnessIsDistance(bw, all[i].pd.sum_mem_reads);
  }

  lemma ClosestIsNearest(all: seq<Prog>, bw: int)
    requires all != [] && Readable(all) && 0 <= bw <= BW_LIMIT
    ensures FirstNearest(all, bw, Closest(bw, all))
  {
    hide Fitness, Distance;
    forall i | 0 <= i < |all|
      ensures Fitness(bw, all[i].pd.sum_mem_reads) == Distance(bw, all[i].pd.sum_mem_reads)
    {
      FitnessIsDistance(bw, all[i].pd.sum_mem_reads);
    }
  }

  lemma {:induction false} GrowNearest(all: seq<Prog>, sch: seq<Prog>, bw: int)
    requires |sch| <= MAX_CORES <= |all| + |sch| && Readable(all) && 0 <= bw <= BW_LIMIT
    ensures var (a, s) := Grow(all, sch, bw); sch <= s && NearestInTurn(all, bw, s[|sch|..], a)
    decreases MAX_CORES - |sch|
  {
    hide Closest, FirstNearest, Spend;
    if |sch| != MAX_CORES {
      var k := Closest(bw, all);
      var x := all[k];
      ClosestIsNearest(all, bw);
      SpendExact(bw, x.pd.sum_mem_reads);
      var (a, s, b) := Neighbor(all, sch, bw);
      GrowNearest(a, s, b);
      var (rest, t) := Grow(all, sch, bw);
      assert t[|sch|..][0] == x && t[|sch|..][1..] == t[|s|..];
      assert TakesNearest(all, bw, k, x);
    }
  }

  /**
   * The whole of `schedule` on a list longer than the cores: the programs of the first pass leave the reserve of
   * the limit, and each program added to them is the first one nearest to the bandwidth that is then left.
   */
  lemma SelectNearest(order: seq<Prog>, nr: int)
    requires MAX_CORES < nr <= |order| && Readable(order)
    ensures
      var (first, kept) := ByReads(order, [], []);
      var (all, sch) := Select(order, nr);
      && Reads(first) <= 275958745 && first <= sch
      && NearestInTurn(kept, 547208745 - Reads(first), sch[|first|..], all)
  {
    hide FirstPass, ByReads, Grow, NearestInTurn;
    FirstPassReserved(order, START);
    AdmitsExactly(order, START);
    FirstPassPerm(order, START);
    SelectIs(order, nr);
    var p := FirstPass(order, START);
    ReadsNatural(p.sch);
    forall i | 0 <= i < |p.kept|
      ensures p.kept[i].pd.sum_mem_reads < 0x8000_0000_0000_0000
    {
      assert p.kept[i] in multiset(p.sch) + multiset(p.kept);
      assert p.kept[i] in multiset(order);
    }
    GrowNearest(p.kept, p.sch, p.bw);
  }

  /** On a shorter list all other programs follow from the front. */
  lemma SelectShort(order: seq<Prog>, nr: int)
    requires nr <= MAX_CORES && nr <= |order|
    ensures var (first, kept) := ByReads(order, [], []); |first| <= MAX_CORES && Select(order, nr) == Fill(kept, first)
  {
    hide FirstPass, ByReads;
    AdmitsExactly(order, START);
    SelectIs(order, nr);
  }

  lemma {:induction false} ReadsNatural(s: seq<Prog>)
    ensures 0 <= Reads(s)
  {
    if s != [] {
      ReadsNatural(s[..|s| - 1]);
    }
  }

  // ---------- work conservation ----------

  lemma {:induction false} FirstPassPerm(todo: seq<Prog>, p: Pass)
    ensures
      var q := FirstPass(todo, p);
      multiset(q.sch) + multiset(q.kept) == multiset(p.sch) + multiset(p.kept) + multiset(todo)
    decreases |todo|
  {
    if todo != [] && |p.sch| != MAX_CORES {
      if Skips(todo[0].pd, p.bw) {
        TakeHead(todo, p.kept);
        Regroup(multiset(p.sch), multiset(p.kept + [todo[0]]), multiset(todo[1..]), multiset(p.kept), multiset(todo));
        FirstPassPerm(todo[1..], p.(kept := p.kept + [todo[0]]));
      } else {
        TakeHead(todo, p.sch);
        Regroup(multiset(p.kept), multiset(p.sch + [todo[0]]), multiset(todo[1..]), multiset(p.sch), multiset(todo));
        FirstPassPerm(todo[1..], Pass(p.sch + [todo[0]], p.kept, Spend(p.bw, todo[0].pd.sum_mem_reads)));
      }
    }
  }

  lemma {:induction false} GrowPerm(all: seq<Prog>, sch: seq<Prog>, bw: int)
    requires |sch| <= MAX_CORES <= |all| + |sch|
    ensures var (a, s) := Grow(all, sch, bw);
            multiset(a) + multiset(s) == multiset(all) + multiset(sch) && |s| == MAX_CORES
    decreases MAX_CORES - |sch|
  {
    if |sch| != MAX_CORES {
      var k := Closest(bw, all);
      TakeFrom(all, k);
      Append(sch, all[k]);
      Across(multiset(Without(all, k)), multiset(sch), multiset{all[k]}, multiset{});
      var (a, s, b) := Neighbor(all, sch, bw);
      GrowPerm(a, s, b);
    }
  }

  /** With `progs_nr` no larger than the number of listed programs, no core stays idle while a program waits. */
  lemma WorkConserving(order: seq<Prog>, nr: int)
    requires nr <= |order|
    ensures
      var (all, sch) := Select(order, nr);
      && multiset(all) + multiset(sch) == multiset(order)
      && |sch| == if |order| < MAX_CORES then |order| else MAX_CORES
  {
    hide *;
    StartIs();
    SixCores();
    FirstPassPerm(order, START);
    SelectIs(order, nr);
    var p := FirstPass(order, START);
    assert multiset(START.sch) + multiset(START.kept) + multiset(order) == multiset(order);
    if nr <= MAX_CORES {
      FillPerm(p.kept, p.sch);
    } else {
      GrowPerm(p.kept, p.sch, p.bw);
    }
    var (all, sch) := Select(order, nr);
    assert |multiset(order)| == |order| && |multiset(all) + multiset(sch)| == |all| + |sch|;
  }
}
