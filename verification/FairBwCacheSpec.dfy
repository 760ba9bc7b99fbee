/** The bandwidth and cache aware policy, src/scheds/fair_bw_cache.c: what `schedule` selects. */
module FairBwCacheSpec {
  import opened Machine
  import opened Programs
  import opened Seqs
  import opened Filling

  const BW_LIMIT := 547208745
  const BW_SLACK := 15625000
  const LLC_LIMIT := 15605765
  const LLC_SLACK := 4000000

  /** The first pass over the sorted list: what is admitted, what is passed over, and the budgets left. */
  datatype Pass = Pass(sch: seq<Prog>, kept: seq<Prog>, bw: int, llc: int, bwOn: bool, csOn: bool)

  predicate Skips(d: ProgData, p: Pass) {
    match d.category
    case BW => p.csOn || d.sum_mem_reads > AsU64(p.bw + BW_SLACK)
    case CS => p.bwOn || d.llc_alone > p.llc + LLC_SLACK
    case CNS => p.csOn && d.llc_alone > p.llc + LLC_SLACK
    case _ => false
  }

  function Admit(x: Prog, p: Pass): Pass {
    var q := p.(sch := p.sch + [x]);
    match x.pd.category
    case BW => q.(bw := SubLong(p.bw, x.pd.sum_mem_reads), bwOn := true)
    case CS => q.(llc := p.llc - x.pd.llc_alone, csOn := true)
    case CNS => q.(llc := p.llc - x.pd.llc_alone)
    case _ => q
  }

  function FirstPass(todo: seq<Prog>, p: Pass): Pass
    decreases |todo|
  {
    if todo == [] || |p.sch| == MAX_CORES then p.(kept := p.kept + todo)
    else if Skips(todo[0].pd, p) then FirstPass(todo[1..], p.(kept := p.kept + [todo[0]]))
    else FirstPass(todo[1..], Admit(todo[0], p))
  }

  lemma SkipsWhen(d: ProgData, p: Pass)
    ensures Skips(d, p) <==>
            || (d.category == BW && (p.csOn || d.sum_mem_reads > AsU64(p.bw + BW_SLACK)))
            || (d.category == CS && (p.bwOn || d.llc_alone > p.llc + LLC_SLACK))
            || (d.category == CNS && p.csOn && d.llc_alone > p.llc + LLC_SLACK)
  {
  }

  lemma AdmitCounts(x: Prog, p: Pass)
    ensures Admit(x, p) == Pass(
      p.sch + [x], p.kept,
      if x.pd.category == BW then SubLong(p.bw, x.pd.sum_mem_reads) else p.bw,
      if x.pd.category in {CS, CNS} then p.llc - x.pd.llc_alone else p.llc,
      p.bwOn || x.pd.category == BW,
      p.csOn || x.pd.category == CS)
  {
  }

  lemma PassStep(todo: seq<Prog>, p: Pass)
    ensures FirstPass(todo, p) ==
            if todo == [] || |p.sch| == MAX_CORES then p.(kept := p.kept + todo)
            else if Skips(todo[0].pd, p) then FirstPass(todo[1..], p.(kept := p.kept + [todo[0]]))
            else FirstPass(todo[1..], Admit(todo[0], p))
  {
  }

  const START := Pass([], [], BW_LIMIT, LLC_LIMIT, false, false)

  lemma StartIs()
    ensures START == Pass([], [], BW_LIMIT, LLC_LIMIT, false, false)
  {
  }

  // ---------- the second pass ----------

  predicate Suits(bwOn: bool, d: ProgData) {
    if bwOn then d.category == BW else d.category == CS || d.category == CNS
  }

  function Suited(bwOn: bool, yes: bool, s: seq<Prog>): (r: seq<Prog>) {
    if s == [] then []
    else
      var r := Suited(bwOn, yes, s[..|s| - 1]);
      if Suits(bwOn, s[|s| - 1].pd) == yes then r + [s[|s| - 1]] else r
  }

  lemma {:induction false} NoneSuits(bwOn: bool, s: seq<Prog>)
    requires Suited(bwOn, true, s) == []
    ensures Suited(bwOn, false, s) == s
  {
    if s != [] {
      NoneSuits(bwOn, s[..|s| - 1]);
    }
  }

  lemma SuitedStep(bwOn: bool, yes: bool, s: seq<Prog>, i: nat)
    requires i < |s|
    ensures Suited(bwOn, yes, s[..i + 1]) ==
            if Suits(bwOn, s[i].pd) == yes then Suited(bwOn, yes, s[..i]) + [s[i]] else Suited(bwOn, yes, s[..i])
  {
    assert s[..i + 1][..i] == s[..i];
  }

  function Demand(bwOn: bool, d: ProgData): int {
    if bwOn then d.sum_mem_reads else d.llc_alone
  }

  /** The first of the programs with the least demand. */
  function Least(bwOn: bool, s: seq<Prog>): (k: nat)
    requires s != []
    ensures k < |s|
    ensures forall i :: 0 <= i < |s| ==> Demand(bwOn, s[k].pd) <= Demand(bwOn, s[i].pd)
    ensures forall i :: 0 <= i < k ==> Demand(bwOn, s[k].pd) < Demand(bwOn, s[i].pd)
  {
    if |s| == 1 then 0
    else
      var k := Least(bwOn, s[..|s| - 1]);
      if Demand(bwOn, s[|s| - 1].pd) < Demand(bwOn, s[k].pd) then |s| - 1 else k
  }

  lemma LeastStep(bwOn: bool, s: seq<Prog>, i: nat)
    requires 0 < i < |s|
    ensures Least(bwOn, s[..i + 1]) ==
            if Demand(bwOn, s[i].pd) < Demand(bwOn, s[Least(bwOn, s[..i])].pd) then i else Least(bwOn, s[..i])
  {
    assert s[..i + 1][..i] == s[..i];
  }

  lemma LeastFirst(bwOn: bool, s: seq<Prog>)
    requires s != []
    ensures Least(bwOn, s[..1]) == 0 && s[..|s|] == s
  {
  }

  /** The lists `(all, sch)` after `good_neighbors` has found a program. */
  function Neighbor(bwOn: bool, all: seq<Prog>, sch: seq<Prog>): (r: (seq<Prog>, seq<Prog>))
    requires Suited(bwOn, true, all) != []
  {
    var rest := Suited(bwOn, true, all);
    var k := Least(bwOn, rest);
    (Suited(bwOn, false, all) + Without(rest, k), sch + [rest[k]])
  }

  /** The calls of `good_neighbors`, until the cores are full or none suits. */
  function Grow(bwOn: bool, all: seq<Prog>, sch: seq<Prog>): (r: (seq<Prog>, seq<Prog>))
    requires |sch| <= MAX_CORES
    ensures |r.1| <= MAX_CORES
    decreases MAX_CORES - |sch|
  {
    if |sch| == MAX_CORES || Suited(bwOn, true, all) == [] then (all, sch)
    else
      var (a, s) := Neighbor(bwOn, all, sch);
      Grow(bwOn, a, s)
  }

  lemma GrowStep(bwOn: bool, all: seq<Prog>, sch: seq<Prog>)
    requires |sch| < MAX_CORES && Suited(bwOn, true, all) != []
    ensures |Neighbor(bwOn, all, sch).1| == |sch| + 1
    ensures Grow(bwOn, all, sch) == Grow(bwOn, Neighbor(bwOn, all, sch).0, Neighbor(bwOn, all, sch).1)
  {
  }

  lemma GrowDone(bwOn: bool, all: seq<Prog>, sch: seq<Prog>)
    requires |sch| <= MAX_CORES && (|sch| == MAX_CORES || Suited(bwOn, true, all) == [])
    ensures Grow(bwOn, all, sch) == (all, sch)
  {
  }

  /** The lists when `fill_rest_cores` is reached, or at the end if it is not. */
  function BeforeFill(order: seq<Prog>, nr: int): (r: (seq<Prog>, seq<Prog>))
    ensures |r.1| <= MAX_CORES
  {
    var p := FirstPass(order, START);
    FirstPassSize(order, START);
    if nr <= MAX_CORES then (p.kept, p.sch) else Grow(p.bwOn, p.kept, p.sch)
  }

  /** The lists `(progs_all, progs_sch)` after `schedule`, from the list in sorted order. */
  function Select(order: seq<Prog>, nr: int): (seq<Prog>, seq<Prog>) {
    var (all, sch) := BeforeFill(order, nr);
    Fill(all, sch)
  }

  /** How `schedule` puts the passes together. */
  lemma SelectIs(order: seq<Prog>, nr: int, a: seq<Prog>, s: seq<Prog>)
    requires
      var p := FirstPass(order, START);
      && |p.sch| <= MAX_CORES
      && (a, s) == if nr <= MAX_CORES then (p.kept, p.sch) else Grow(p.bwOn, p.kept, p.sch)
    ensures |s| <= MAX_CORES && Select(order, nr) == Fill(a, s)
  {
  }

  lemma FullOrEmpty(order: seq<Prog>, nr: int)
    requires |FirstPass(order, START).sch| <= MAX_CORES
    requires |FirstPass(order, START).sch| == MAX_CORES || FirstPass(order, START).kept == []
    ensures Select(order, nr) == (FirstPass(order, START).kept, FirstPass(order, START).sch)
  {
    var p := FirstPass(order, START);
    assert Suited(p.bwOn, true, []) == [];
    assert p.kept[0..] == p.kept && p.sch + p.kept[..0] == p.sch;
  }

  // ---------- classes and budgets ----------

  ghost predicate Has(c: Class, s: seq<Prog>) {
    exists i :: 0 <= i < |s| && s[i].pd.category == c
  }

  function Reads(s: seq<Prog>): int {
    if s == [] then 0
    else Reads(s[..|s| - 1]) + if s[|s| - 1].pd.category == BW then s[|s| - 1].pd.sum_mem_reads else 0
  }

  function Occupancy(s: seq<Prog>): int {
    if s == [] then 0
    else Occupancy(s[..|s| - 1])
         + if s[|s| - 1].pd.category in {CS, CNS} then s[|s| - 1].pd.llc_alone else 0
  }

  /** What every step of the first pass keeps. */
  ghost predicate Budgeted(p: Pass) {
    && |p.sch| <= MAX_CORES
    && p.bw == BW_LIMIT - Reads(p.sch) && -BW_SLACK <= p.bw <= BW_LIMIT
    && p.llc == LLC_LIMIT - Occupancy(p.sch) && (p.csOn ==> -LLC_SLACK <= p.llc)
    && (p.bwOn <==> Has(BW, p.sch)) && (p.csOn <==> Has(CS, p.sch))
    && !(p.bwOn && p.csOn)
  }

  lemma HasAppend(c: Class, s: seq<Prog>, x: Prog)
    ensures Has(c, s + [x]) <==> Has(c, s) || x.pd.category == c
  {
    if Has(c, s) {
      var i :| 0 <= i < |s| && s[i].pd.category == c;
      assert (s + [x])[i].pd.category == c;
    }
    assert (s + [x])[|s|] == x;
  }

  lemma AdmitBudgeted(x: Prog, p: Pass)
    requires Budgeted(p) && |p.sch| < MAX_CORES && !Skips(x.pd, p)
    ensures Budgeted(Admit(x, p))
  {
    HasAppend(BW, p.sch, x);
    HasAppend(CS, p.sch, x);
    assert (p.sch + [x])[..|p.sch|] == p.sch;
  }

  lemma {:induction false} FirstPassBudgeted(todo: seq<Prog>, p: Pass)
    requires Budgeted(p)
    ensures Budgeted(FirstPass(todo, p))
    decreases |todo|
  {
    if todo != [] && |p.sch| != MAX_CORES {
      if Skips(todo[0].pd, p) {
        FirstPassBudgeted(todo[1..], p.(kept := p.kept + [todo[0]]));
      } else {
        AdmitBudgeted(todo[0], p);
        FirstPassBudgeted(todo[1..], Admit(todo[0], p));
      }
    }
  }

  lemma {:induction false} FirstPassSize(todo: seq<Prog>, p: Pass)
    requires |p.sch| <= MAX_CORES
    ensures |FirstPass(todo, p).sch| <= MAX_CORES
    decreases |todo|
  {
    if todo != [] && |p.sch| != MAX_CORES {
      if Skips(todo[0].pd, p) {
        FirstPassSize(todo[1..], p.(kept := p.kept + [todo[0]]));
      } else {
        FirstPassSize(todo[1..], Admit(todo[0], p));
      }
    }
  }

  /** The budgets of the first pass, and the classes it mixes. */
  lemma FirstPassLimits(order: seq<Prog>)
    ensures
      var sch := FirstPass(order, START).sch;
      && Reads(sch) <= 562833745
      && (Has(CS, sch) ==> Occupancy(sch) <= 19605765)
      && !(Has(BW, sch) && Has(CS, sch))
  {
    FirstPassBudgeted(order, START);
  }

  // ---------- the mixed signed and unsigned arithmetic is exact ----------

  /** Whether a program may run with those that are admitted, by the sums of their figures alone. */
  ghost predicate Admissible(d: ProgData, sch: seq<Prog>) {
    match d.category
    case BW => !Has(CS, sch) && Reads(sch) + d.sum_mem_reads <= 562833745
    case CS => !Has(BW, sch) && Occupancy(sch) + d.llc_alone <= 19605765
    case CNS => Has(CS, sch) ==> Occupancy(sch) + d.llc_alone <= 19605765
    case _ => true
  }

  /** The first pass by these sums: what is admitted, and what is passed over. */
  ghost function ByBudget(todo: seq<Prog>, sch: seq<Prog>, kept: seq<Prog>): (r: (seq<Prog>, seq<Prog>))
    decreases |todo|
  {
    if todo == [] || |sch| == MAX_CORES then (sch, kept + todo)
    else if Admissible(todo[0].pd, sch) then ByBudget(todo[1..], sch + [todo[0]], kept)
    else ByBudget(todo[1..], sch, kept + [todo[0]])
  }

  lemma SkipsExactly(d: ProgData, p: Pass)
    requires Budgeted(p)
    ensures Skips(d, p) <==> !Admissible(d, p.sch)
  {
    hide Reads, Occupancy, Has;
  }

  /** A program is admitted exactly when class and sums allow it; no wrap-around is involved. */
  lemma {:induction false} NeverWraps(todo: seq<Prog>, p: Pass)
    requires Budgeted(p)
    ensures (FirstPass(todo, p).sch, FirstPass(todo, p).kept) == ByBudget(todo, p.sch, p.kept)
    ensures FirstPass(todo, p).bwOn <==> Has(BW, FirstPass(todo, p).sch)
    decreases |todo|
  {
    hide Skips, Admissible, Admit, Reads, Occupancy, Has;
    if todo != [] && |p.sch| != MAX_CORES {
      var x := todo[0];
      SkipsExactly(x.pd, p);
      if Skips(x.pd, p) {
        NeverWraps(todo[1..], p.(kept := p.kept + [x]));
      } else {
        AdmitBudgeted(x, p);
        AdmitCounts(x, p);
        NeverWraps(todo[1..], Admit(x, p));
      }
    }
  }

  // ---------- the cache budget is an `int` ----------

  const LLC_MOST := 350_000_000

  ghost predicate Modest(s: seq<Prog>) {
    forall i :: 0 <= i < |s| ==> -LLC_MOST <= s[i].pd.llc_alone <= LLC_MOST
  }

  predicate NarrowSkips(d: ProgData, p: Pass) {
    var over := d.llc_alone > ToInt(p.llc + LLC_SLACK);
    match d.category
    case CS => p.bwOn || over
    case CNS => p.csOn && over
    case _ => Skips(d, p)
  }

  function NarrowAdmit(x: Prog, p: Pass): Pass {
    var q := Admit(x, p);
    q.(llc := ToInt(q.llc))
  }

  /** The first pass with every sum of the cache budget cut to 32 bits. */
  function NarrowPass(todo: seq<Prog>, p: Pass): Pass
    decreases |todo|
  {
    if todo == [] || |p.sch| == MAX_CORES then p.(kept := p.kept + todo)
    else if NarrowSkips(todo[0].pd, p) then NarrowPass(todo[1..], p.(kept := p.kept + [todo[0]]))
    else NarrowPass(todo[1..], NarrowAdmit(todo[0], p))
  }

  lemma {:induction false} OccupancyFits(s: seq<Prog>)
    requires Modest(s)
    ensures -LLC_MOST * |s| <= Occupancy(s) <= LLC_MOST * |s|
  {
    if s != [] {
      OccupancyFits(s[..|s| - 1]);
    }
  }

  lemma LlcFits(p: Pass)
    requires Budgeted(p) && Modest(p.sch)
    ensures ToInt(p.llc) == p.llc && ToInt(p.llc + LLC_SLACK) == p.llc + LLC_SLACK
  {
    OccupancyFits(p.sch);
  }

  lemma SkipsAgree(d: ProgData, p: Pass)
    requires ToInt(p.llc + LLC_SLACK) == p.llc + LLC_SLACK
    ensures NarrowSkips(d, p) <==> Skips(d, p)
  {
  }

  lemma AdmitAgrees(x: Prog, p: Pass)
    requires ToInt(Admit(x, p).llc) == Admit(x, p).llc
    ensures NarrowAdmit(x, p) == Admit(x, p)
  {
  }

  lemma AdmitAppends(x: Prog, p: Pass)
    ensures Admit(x, p).sch == p.sch + [x]
  {
  }

  lemma BudgetedSize(p: Pass)
    requires Budgeted(p)
    ensures |p.sch| <= MAX_CORES && forall s :: Budgeted(p.(kept := s))
  {
  }

  /** While six figures of the size of `LLC_MOST` do not exhaust an `int`, neither does the cache budget. */
  lemma {:induction false} NeverOverflows(todo: seq<Prog>, p: Pass)
    requires Budgeted(p) && Modest(p.sch) && Modest(todo)
    ensures FirstPass(todo, p) == NarrowPass(todo, p)
    decreases |todo|
  {
    hide Skips, NarrowSkips, Admit, NarrowAdmit, Budgeted;
    if todo != [] && |p.sch| != MAX_CORES {
      var x := todo[0];
      LlcFits(p);
      SkipsAgree(x.pd, p);
      BudgetedSize(p);
      if Skips(todo[0].pd, p) {
        NeverOverflows(todo[1..], p.(kept := p.kept + [todo[0]]));
      } else {
        AdmitBudgeted(x, p);
        AdmitAppends(x, p);
        LlcFits(Admit(x, p));
        AdmitAgrees(x, p);
        NeverOverflows(todo[1..], Admit(x, p));
      }
    }
  }

  // ---------- co-scheduled classes, until the rest of the cores is filled ----------

  lemma {:induction false} SuitedSuits(bwOn: bool, yes: bool, s: seq<Prog>)
    ensures forall i :: 0 <= i < |Suited(bwOn, yes, s)| ==> Suits(bwOn, Suited(bwOn, yes, s)[i].pd) == yes
  {
    if s != [] {
      SuitedSuits(bwOn, yes, s[..|s| - 1]);
    }
  }

  lemma {:induction false} GrowExclusive(bwOn: bool, all: seq<Prog>, sch: seq<Prog>)
    requires |sch| <= MAX_CORES
    requires if bwOn then !Has(CS, sch) else !Has(BW, sch)
    ensures if bwOn then !Has(CS, Grow(bwOn, all, sch).1) else !Has(BW, Grow(bwOn, all, sch).1)
    decreases MAX_CORES - |sch|
  {
    if |sch| != MAX_CORES && Suited(bwOn, true, all) != [] {
      var rest := Suited(bwOn, true, all);
      var k := Least(bwOn, rest);
      SuitedSuits(bwOn, true, all);
      HasAppend(CS, sch, rest[k]);
      HasAppend(BW, sch, rest[k]);
      var (a, s) := Neighbor(bwOn, all, sch);
      GrowExclusive(bwOn, a, s);
    }
  }

  lemma NeverMixed(order: seq<Prog>, nr: int)
    ensures var sch := BeforeFill(order, nr).1; !(Has(BW, sch) && Has(CS, sch))
  {
    FirstPassBudgeted(order, START);
    var p := FirstPass(order, START);
    GrowExclusive(p.bwOn, p.kept, p.sch);
  }

  // ---------- which neighbors ----------

  /** The program at `k` is the first of the least demanding ones of the class that may still be added. */
  ghost predicate FirstLeast(bwOn: bool, all: seq<Prog>, k: nat)
    requires k < |all|
  {
    if bwOn then
      && all[k].pd.category == BW
      && (forall i :: 0 <= i < |all| && all[i].pd.category == BW ==>
            && all[k].pd.sum_mem_reads <= all[i].pd.sum_mem_reads
            && (i < k ==> all[k].pd.sum_mem_reads < all[i].pd.sum_mem_reads))
    else
      && all[k].pd.category in {CS, CNS}
      && (forall i :: 0 <= i < |all| && all[i].pd.category in {CS, CNS} ==>
            && all[k].pd.llc_alone <= all[i].pd.llc_alone
            && (i < k ==> all[k].pd.llc_alone < all[i].pd.llc_alone))
  }

  ghost predicate TakesLeast(bwOn: bool, all: seq<Prog>, k: nat, x: Prog)
    requires k < |all|
  {
    all[k] == x && FirstLeast(bwOn, all, k)
  }

  /** `added` is taken from `all` one by one, each the first least demanding program of the class that is left. */
  ghost predicate LeastInTurn(bwOn: bool, all: seq<Prog>, added: seq<Prog>)
    decreases |added|
  {
    added != [] ==>
      exists k: nat :: k < |all| && TakesLeast(bwOn, all, k, added[0]) && LeastInTurn(bwOn, Without(all, k), added[1..])
  }

  ghost predicate NoneLeft(bwOn: bool, all: seq<Prog>) {
    forall i :: 0 <= i < |all| ==> if bwOn then all[i].pd.category != BW else all[i].pd.category !in {CS, CNS}
  }

  /** The suitable program at `i` has as many suitable ones before it as its place among them says. */
  lemma {:induction false} Rank(bwOn: bool, s: seq<Prog>, i: nat)
    requires i < |s| && Suits(bwOn, s[i].pd)
    ensures
      var r := Suited(bwOn, true, s);
      var h := |Suited(bwOn, true, s[..i])|;
      h < |r| && r[h] == s[i]
  {
    hide Suits;
    var n := |s| - 1;
    if i < n {
      Rank(bwOn, s[..n], i);
      assert s[..n][..i] == s[..i];
    }
  }

  lemma {:induction false} RankGrows(bwOn: bool, s: seq<Prog>, i: nat, j: nat)
    requires i < j <= |s| && Suits(bwOn, s[i].pd)
    ensures |Suited(bwOn, true, s[..i])| < |Suited(bwOn, true, s[..j])|
    decreases j - i
  {
    hide Suits, Suited;
    SuitedStep(bwOn, true, s, j - 1);
    if i < j - 1 {
      RankGrows(bwOn, s, i, j - 1);
    }
  }

  /** The k-th suitable program, and the suitable ones without it. */
  lemma {:induction false} SuitedAt(bwOn: bool, s: seq<Prog>, k: nat) returns (j: nat)
    requires k < |Suited(bwOn, true, s)|
    ensures j < |s| && Suits(bwOn, s[j].pd) && s[j] == Suited(bwOn, true, s)[k]
    ensures |Suited(bwOn, true, s[..j])| == k
    ensures Suited(bwOn, true, Without(s, j)) == Without(Suited(bwOn, true, s), k)
  {
    hide Suits, Without;
    var n := |s| - 1;
    var r := Suited(bwOn, true, s[..n]);
    if k == |r| {
      j := n;
      WithoutLast(s[..n], s[n]);
      WithoutLast(r, s[n]);
      assert s[..n] + [s[n]] == s;
    } else {
      j := SuitedAt(bwOn, s[..n], k);
      assert s[..n][..j] == s[..j] && s[..n] + [s[n]] == s;
      WithoutInner(s[..n], s[n], j);
      WithoutInner(r, s[n], k);
      var t := Without(s[..n], j) + [s[n]];
      assert t[..|t| - 1] == Without(s[..n], j);
    }
  }

  lemma WithoutLast<T>(s: seq<T>, x: T)
    ensures Without(s + [x], |s|) == s
  {
  }

  lemma WithoutInner<T>(s: seq<T>, x: T, k: nat)
    requires k < |s|
    ensures Without(s + [x], k) == Without(s, k) + [x]
  {
  }

  lemma LeastIsFirst(bwOn: bool, s: seq<Prog>, j: nat)
    requires Suited(bwOn, true, s) != [] && j < |s|
    requires var r := Suited(bwOn, true, s);
             var k := Least(bwOn, r);
             Suits(bwOn, s[j].pd) && s[j] == r[k] && |Suited(bwOn, true, s[..j])| == k
    ensures FirstLeast(bwOn, s, j)
  {
    hide Suited, Least;
    forall i | 0 <= i < |s| && Suits(bwOn, s[i].pd)
      ensures Demand(bwOn, s[j].pd) <= Demand(bwOn, s[i].pd)
      ensures i < j ==> Demand(bwOn, s[j].pd) < Demand(bwOn, s[i].pd)
    {
      Rank(bwOn, s, i);
      if i < j {
        RankGrows(bwOn, s, i, j);
      }
    }
  }

  lemma {:induction false} SuitedJoin(bwOn: bool, s: seq<Prog>, t: seq<Prog>)
    requires forall i :: 0 <= i < |s| ==> !Suits(bwOn, s[i].pd)
    requires forall i :: 0 <= i < |t| ==> Suits(bwOn, t[i].pd)
    ensures Suited(bwOn, true, s + t) == t
  {
    hide Suits;
    if t != [] {
      SuitedJoin(bwOn, s, t[..|t| - 1]);
      assert (s + t)[..|s + t| - 1] == s + t[..|t| - 1];
    } else if s != [] {
      SuitedJoin(bwOn, s[..|s| - 1], []);
      assert s + t == s && s[..|s| - 1] + [] == s[..|s| - 1];
    }
  }

  lemma NeighborSuited(bwOn: bool, all: seq<Prog>, sch: seq<Prog>)
    requires Suited(bwOn, true, all) != []
    ensures
      var r := Suited(bwOn, true, all);
      Suited(bwOn, true, Neighbor(bwOn, all, sch).0) == Without(r, Least(bwOn, r))
  {
    hide Suits, Least;
    SuitedSuits(bwOn, true, all);
    SuitedSuits(bwOn, false, all);
    var r := Suited(bwOn, true, all);
    SuitedJoin(bwOn, Suited(bwOn, false, all), Without(r, Least(bwOn, r)));
  }

  lemma {:induction false} NoneSuited(bwOn: bool, s: seq<Prog>)
    requires Suited(bwOn, true, s) == []
    ensures NoneLeft(bwOn, s)
  {
    if s != [] {
      NoneSuited(bwOn, s[..|s| - 1]);
    }
  }

  /** `v` has the suitable programs of `all` in the same order. */
  lemma {:induction false} GrowLeast(bwOn: bool, all: seq<Prog>, sch: seq<Prog>, v: seq<Prog>)
    requires |sch| <= MAX_CORES && Suited(bwOn, true, v) == Suited(bwOn, true, all)
    ensures
      var (a, s) := Grow(bwOn, all, sch);
      && sch <= s && LeastInTurn(bwOn, v, s[|sch|..])
      && (|s| == MAX_CORES || NoneLeft(bwOn, a))
    decreases MAX_CORES - |sch|
  {
    hide Suited, Least, Suits, FirstLeast, NoneLeft;
    var r := Suited(bwOn, true, all);
    if |sch| != MAX_CORES && r != [] {
      var k := Least(bwOn, r);
      var j := SuitedAt(bwOn, v, k);
      LeastIsFirst(bwOn, v, j);
      NeighborSuited(bwOn, all, sch);
      var (a, s) := Neighbor(bwOn, all, sch);
      GrowLeast(bwOn, a, s, Without(v, j));
      var (rest, t) := Grow(bwOn, all, sch);
      assert t[|sch|..][0] == r[k] && t[|sch|..][1..] == t[|s|..];
      assert TakesLeast(bwOn, v, j, r[k]);
    } else if r == [] {
      NoneSuited(bwOn, all);
    }
  }

  /**
   * The whole of `schedule` on a list longer than the cores: what class and budgets admit in sorted order, then one
   * by one the first least demanding program of the class that is admitted, and programs from the front of the list
   * only when none of that class is left.
   */
  lemma SelectLeast(order: seq<Prog>, nr: int)
    requires nr > MAX_CORES
    ensures
      var (first, kept) := ByBudget(order, [], []);
      var (a, s) := BeforeFill(order, nr);
      && first <= s && LeastInTurn(Has(BW, first), kept, s[|first|..])
      && (|s| == MAX_CORES || NoneLeft(Has(BW, first), a))
      && Select(order, nr) == Fill(a, s)
  {
    hide FirstPass, ByBudget, Grow, LeastInTurn, NoneLeft, Has;
    StartBudgeted();
    NeverWraps(order, START);
    FirstPassSize(order, START);
    var p := FirstPass(order, START);
    GrowLeast(p.bwOn, p.kept, p.sch, p.kept);
  }

  /** On a shorter list all other programs follow from the front. */
  lemma SelectShort(order: seq<Prog>, nr: int)
    requires nr <= MAX_CORES
    ensures var (first, kept) := ByBudget(order, [], []); |first| <= MAX_CORES && Select(order, nr) == Fill(kept, first)
  {
    hide FirstPass, ByBudget;
    StartBudgeted();
    NeverWraps(order, START);
    FirstPassSize(order, START);
  }

  lemma StartBudgeted()
    ensures Budgeted(START)
  {
  }

  // ---------- work conservation ----------

  lemma {:induction false} FirstPassPerm(todo: seq<Prog>, p: Pass)
    ensures
      var q := FirstPass(todo, p);
      multiset(q.sch) + multiset(q.kept) == multiset(p.sch) + multiset(p.kept) + multiset(todo)
    decreases |todo|
  {
    if todo != [] && |p.sch| != MAX_CORES {
      if Skips(todo[0].pd, p) {
        TakeHead(todo, p.kept);
        Regroup(multiset(p.sch), multiset(p.kept + [todo[0]]), multiset(todo[1..]), multiset(p.kept), multiset(todo));
        var q := p.(kept := p.kept + [todo[0]]);
        assert multiset(q.sch) + multiset(q.kept) + multiset(todo[1..])
            == multiset(p.sch) + multiset(p.kept) + multiset(todo);
        FirstPassPerm(todo[1..], q);
      } else {
        TakeHead(todo, p.sch);
        Regroup(multiset(p.kept), multiset(p.sch + [todo[0]]), multiset(todo[1..]), multiset(p.sch), multiset(todo));
        var q := Admit(todo[0], p);
        assert multiset(q.sch) + multiset(q.kept) + multiset(todo[1..])
            == multiset(p.sch) + multiset(p.kept) + multiset(todo);
        FirstPassPerm(todo[1..], q);
      }
    }
  }

  lemma {:induction false} SuitedPerm(bwOn: bool, s: seq<Prog>)
    ensures multiset(Suited(bwOn, true, s)) + multiset(Suited(bwOn, false, s)) == multiset(s)
  {
    if s != [] {
      SuitedPerm(bwOn, s[..|s| - 1]);
      assert s == s[..|s| - 1] + [s[|s| - 1]];
    }
  }

  lemma {:induction false} GrowPerm(bwOn: bool, all: seq<Prog>, sch: seq<Prog>)
    requires |sch| <= MAX_CORES
    ensures var (a, s) := Grow(bwOn, all, sch); multiset(a) + multiset(s) == multiset(all) + multiset(sch)
    decreases MAX_CORES - |sch|
  {
    if |sch| != MAX_CORES && Suited(bwOn, true, all) != [] {
      var rest := Suited(bwOn, true, all);
      var k := Least(bwOn, rest);
      SuitedPerm(bwOn, all);
      TakeFrom(rest, k);
      var (a, s) := Neighbor(bwOn, all, sch);
      assert multiset(a) == multiset(Suited(bwOn, false, all)) + multiset(Without(rest, k));
      assert multiset(s) == multiset(sch) + multiset{rest[k]};
      GrowPerm(bwOn, a, s);
    }
  }

  lemma BeforeFillPerm(order: seq<Prog>, nr: int)
    ensures var (a, s) := BeforeFill(order, nr); multiset(a) + multiset(s) == multiset(order)
  {
    FirstPassPerm(order, START);
    FirstPassSize(order, START);
    var p := FirstPass(order, START);
    GrowPerm(p.bwOn, p.kept, p.sch);
    assert multiset(START.sch) + multiset(START.kept) + multiset(order) == multiset(order);
  }

  /** Nothing is lost or doubled, and a core is left idle only when there is no program for it. */
  lemma WorkConserving(order: seq<Prog>, nr: int)
    ensures
      var (all, sch) := Select(order, nr);
      && multiset(all) + multiset(sch) == multiset(order)
      && |sch| == if |order| < MAX_CORES then |order| else MAX_CORES
  {
    BeforeFillPerm(order, nr);
    var (a, s) := BeforeFill(order, nr);
    FillPerm(a, s);
    var (all, sch) := Fill(a, s);
    assert |multiset(order)| == |order| && |multiset(all) + multiset(sch)| == |all| + |sch|;
  }

  // ---------- the program that is furthest behind ----------

  predicate DemandsTooMuch(d: ProgData) {
    || (d.category == BW && d.sum_mem_reads > 562833745)
    || (d.category == CS && d.llc_alone > 19605765)
  }

  lemma {:induction false} FirstPassKeeps(todo: seq<Prog>, p: Pass)
    ensures p.sch <= FirstPass(todo, p).sch
    ensures forall x :: x in FirstPass(todo, p).sch ==> x in p.sch || x in todo
    decreases |todo|
  {
    if todo != [] && |p.sch| != MAX_CORES {
      if Skips(todo[0].pd, p) {
        FirstPassKeeps(todo[1..], p.(kept := p.kept + [todo[0]]));
      } else {
        FirstPassKeeps(todo[1..], Admit(todo[0], p));
      }
    }
  }

  lemma {:induction false} GrowKeeps(bwOn: bool, all: seq<Prog>, sch: seq<Prog>)
    requires |sch| <= MAX_CORES
    ensures sch <= Grow(bwOn, all, sch).1
    decreases MAX_CORES - |sch|
  {
    if |sch| != MAX_CORES && Suited(bwOn, true, all) != [] {
      var (a, s) := Neighbor(bwOn, all, sch);
      GrowKeeps(bwOn, a, s);
    }
  }

  /** The head of the sorted list gets core 0, unless by itself it asks for more than budget and slack. */
  lemma HeadIsScheduled(order: seq<Prog>, nr: int)
    requires order != [] && order[0] !in order[1..]
    ensures order[0] in FirstPass(order, START).sch <==> !DemandsTooMuch(order[0].pd)
    ensures !DemandsTooMuch(order[0].pd) ==> Select(order, nr).1 != [] && Select(order, nr).1[0] == order[0]
  {
    hide Grow, Suited;
    var p := FirstPass(order, START);
    FirstPassSize(order, START);
    GrowKeeps(p.bwOn, p.kept, p.sch);
    if DemandsTooMuch(order[0].pd) {
      FirstPassKeeps(order[1..], START.(kept := START.kept + [order[0]]));
    } else {
      FirstPassKeeps(order[1..], Admit(order[0], START));
      assert Admit(order[0], START).sch == [order[0]];
      assert p.sch[0] == order[0];
    }
  }

  /** The first program in sorted order that does not by itself demand too much is admitted first. */
  lemma {:induction false} FirstAdmitted(todo: seq<Prog>, kept: seq<Prog>, j: nat)
    requires j < |todo| && !DemandsTooMuch(todo[j].pd) && forall i :: 0 <= i < j ==> DemandsTooMuch(todo[i].pd)
    ensures FirstPass(todo, START.(kept := kept)).sch != [] && FirstPass(todo, START.(kept := kept)).sch[0] == todo[j]
    decreases |todo|
  {
    var p := START.(kept := kept);
    if j == 0 {
      FirstPassKeeps(todo[1..], Admit(todo[0], p));
      assert Admit(todo[0], p).sch == [todo[0]];
    } else {
      assert DemandsTooMuch(todo[0].pd);
      FirstAdmitted(todo[1..], kept + [todo[0]], j - 1);
    }
  }

  /** The first pass admits nothing exactly when every program by itself demands too much. */
  lemma {:induction false} NoneAdmitted(todo: seq<Prog>, kept: seq<Prog>)
    ensures FirstPass(todo, START.(kept := kept)).sch == [] <==>
            forall i :: 0 <= i < |todo| ==> DemandsTooMuch(todo[i].pd)
    decreases |todo|
  {
    if todo != [] {
      if DemandsTooMuch(todo[0].pd) {
        NoneAdmitted(todo[1..], kept + [todo[0]]);
        assert forall i :: 0 < i < |todo| ==> todo[i] == todo[1..][i - 1];
      } else {
        FirstAdmitted(todo, kept, 0);
      }
    }
  }

  /** It gets core 0, whatever the programs before it demand. */
  lemma FirstFitIsScheduled(order: seq<Prog>, nr: int, j: nat)
    requires j < |order| && !DemandsTooMuch(order[j].pd) && forall i :: 0 <= i < j ==> DemandsTooMuch(order[i].pd)
    ensures Select(order, nr).1 != [] && Select(order, nr).1[0] == order[j]
  {
    hide Grow, Suited, DemandsTooMuch;
    FirstAdmitted(order, [], j);
    var p := FirstPass(order, START);
    FirstPassSize(order, START);
    GrowKeeps(p.bwOn, p.kept, p.sch);
  }
}
