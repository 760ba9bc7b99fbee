/** `fill_rest_cores`, and the loop of `fair_schedule`, which is the same with no core taken before. */
module Filling {
  import opened Programs
  import opened Seqs
  import opened Scheds

  /** The lists `(all, sch)` when programs have been taken from the front until the cores or the programs run out. */
  function Fill(all: seq<Prog>, sch: seq<Prog>): (seq<Prog>, seq<Prog>)
    requires |sch| <= MAX_CORES
  {
    var n := if |all| < MAX_CORES - |sch| then |all| else MAX_CORES - |sch|;
    (all[n..], sch + all[..n])
  }

  lemma FillIs(a: seq<Prog>, s: seq<Prog>, i: nat)
    requires i <= |a| && |s| + i <= MAX_CORES && (|s| + i == MAX_CORES || i == |a|)
    ensures Fill(a, s) == (a[i..], s + a[..i])
  {
  }

  lemma FillFull(a: seq<Prog>, s: seq<Prog>)
    requires |s| == MAX_CORES
    ensures Fill(a, s) == (a, s)
  {
    assert a[0..] == a && s + a[..0] == s;
  }

  lemma FillPerm(all: seq<Prog>, sch: seq<Prog>)
    requires |sch| <= MAX_CORES
    ensures
      var (a, s) := Fill(all, sch);
      && multiset(a) + multiset(s) == multiset(all) + multiset(sch)
      && |a| + |s| == |all| + |sch| && |s| <= MAX_CORES && (|s| == MAX_CORES || a == [])
  {
    var (a, s) := Fill(all, sch);
    assert all == all[..|all| - |a|] + a;
  }

  method FillRestCores(sched: Sched, cores_allocated: nat, ghost m: multiset<Node>)
    requires sched.Valid() && sched.Tally(m, cores_allocated) && cores_allocated <= MAX_CORES
    modifies sched`all, sched`sch, sched.Repr()`next, sched.Repr()`prev, sched.Repr()`core
    ensures sched.Valid() && sched.Repr() == old(sched.Repr())
    ensures |old(sched.S())| <= MAX_CORES && (sched.A(), sched.S()) == Fill(old(sched.A()), old(sched.S()))
    ensures sched.Tally(m, |sched.sch|)
  {
    hide *;
    var cores: nat := cores_allocated;
    ghost var a, s := sched.A(), sched.S();
    sched.Sizes();
    sched.TallySize(m, cores);
    sched.Firsts();
    ghost var i := 0;
    var prog := sched.progs_all.next;
    while prog != sched.progs_all
      invariant sched.Valid() && sched.Repr() == old(sched.Repr())
      invariant sched.Tally(m, cores) && cores <= MAX_CORES
      invariant i <= |a| && |s| + i == cores && sched.A() == a[i..] && sched.S() == s + a[..i]
      invariant prog == Pos(sched.progs_all, sched.all, 0)
      decreases |a| - i
    {
      sched.AtEnd(0);
      if cores == MAX_CORES { break; }
      sched.ProgAt(0);
      sched.NextAll(0);
      SixCores();
      TakeOne(a, s, i);
      var tmp := prog.next;
      sched.Assign(prog, cores, 0, m);
      cores := cores + CORES_NEEDED;
      prog := tmp;
      i := i + 1;
    }
    sched.AtEnd(0);
    sched.Sizes();
    sched.TallySize(m, cores);
    FillIs(a, s, i);
  }

  lemma TakeOne<T>(a: seq<T>, s: seq<T>, i: nat)
    requires i < |a|
    ensures Without(a[i..], 0) == a[i + 1..] && (s + a[..i]) + [a[i..][0]] == s + a[..i + 1]
  {
  }
}
