/** The two program lists that every policy moves programs between. */
module Scheds {
  import opened Machine
  import opened Programs
  import opened Rings
  import opened Seqs
  import QSort

  class Sched {
    const progs_all: Node       // all programs that are not scheduled
    const progs_sch: Node       // programs of the next quantum
    var monitor_wnd: int
    var progs_nr: int
    const target_instr: array<int>
    ghost var all: seq<Node>
    ghost var sch: seq<Node>
    ghost var collected: seq<int>     // the programs whose stand-alone figures have been taken

    ghost predicate Valid()
      reads this`all, this`sch, Repr()`next, Repr()`prev
    {
      && IsRing(progs_all, all) && IsRing(progs_sch, sch)
      && Cells(progs_all, all) !! Cells(progs_sch, sch)
      && Entries(all) && Entries(sch)
    }

    ghost function Repr(): set<Node>
      reads this`all, this`sch
    {
      Cells(progs_all, all) + Cells(progs_sch, sch)
    }

    constructor (progs_init: nat)
      ensures Valid() && fresh(Repr())
      ensures all == [] && sch == [] && monitor_wnd == 0 && progs_nr == 0 && collected == []
      ensures fresh(target_instr) && target_instr.Length == progs_init
    {
      progs_all := new Node.Head();
      progs_sch := new Node.Head();
      monitor_wnd, progs_nr := 0, 0;
      target_instr := new int[progs_init](i => 0);
      all, sch, collected := [], [], [];
    }

    /** The programs of the two lists, as values. */
    ghost function A(): (v: seq<Prog>)
      reads this`all, this`sch, (set n | n in all)`pd
    {
      View(all)
    }

    ghost function S(): (v: seq<Prog>)
      reads this`all, this`sch, (set n | n in sch)`pd
    {
      View(sch)
    }

    /** The scheduled programs have cores 0, 1, 2, ... in list order. */
    ghost predicate Placed()
      reads this`all, this`sch, (set n | n in sch)`core
    {
      forall i :: 0 <= i < |sch| ==> sch[i].core == i
    }

    /** `elem_move2tail(&prog->pl_node, &sched->progs_sch)` */
    method ToSch(elem: Node, ghost k: nat)
      requires Valid() && k < |all| && all[k] == elem
      modifies this`all, this`sch, Repr()`next, Repr()`prev
      ensures Valid() && Repr() == old(Repr())
      ensures all == Without(old(all), k) && sch == old(sch) + [elem]
      ensures |old(A())| == |old(all)| && A() == Without(old(A()), k) && S() == old(S()) + [old(A())[k]]
    {
      hide IsRing, NoDup, View, Without;
      ghost var a, s := View(all), View(sch);
      MoveToTail(elem, progs_sch, progs_all, all, k, sch);
      assert View(all) == a && View(sch) == s;
      ViewMoved(all, k, sch);
      EntriesMoved(all, k, sch);
      all, sch := Without(all, k), sch + [elem];
    }

    /** `n` programs are scheduled on cores 0, 1, 2, ...; together the lists hold the programs of `m`. */
    ghost predicate Tally(m: multiset<Node>, n: nat)
      reads this`all, this`sch, (set x | x in sch)`core
    {
      multiset(all) + multiset(sch) == m && |sch| == n && Placed()
    }

    /** Move to the list of the next quantum and give it the core range that starts at `core`. */
    method Assign(prog: Node, core: nat, ghost k: nat, ghost m: multiset<Node>)
      requires Valid() && k < |all| && all[k] == prog && Tally(m, core)
      modifies this`all, this`sch, Repr()`next, Repr()`prev, Repr()`core
      ensures Valid() && Repr() == old(Repr())
      ensures all == Without(old(all), k) && sch == old(sch) + [prog]
      ensures |old(A())| == |old(all)| && A() == Without(old(A()), k) && S() == old(S()) + [old(A())[k]]
      ensures Tally(m, core + 1)
      ensures prog.core == core
      ensures Pos(progs_all, all, k) == old(Pos(progs_all, all, k + 1)) && |all| == |old(all)| - 1
    {
      hide Valid, Repr, A, S;
      Apart(k);
      TakeFrom(all, k);
      ToSch(prog, k);
      prog.core := core;
    }

    /** The same, while the program scheduled last has not been given its core yet. */
    ghost predicate TallyBut(m: multiset<Node>, n: nat)
      reads this`all, this`sch, (set x | x in sch)`core
    {
      multiset(all) + multiset(sch) == m && |sch| == n + 1 && forall i :: 0 <= i < n ==> sch[i].core == i
    }

    lemma TallyIs(m: multiset<Node>, n: nat)
      requires Tally(m, n)
      ensures multiset(all) + multiset(sch) == m && |sch| == n && forall i :: 0 <= i < n ==> sch[i].core == i
    {
    }

    lemma IsTally(m: multiset<Node>, n: nat)
      requires multiset(all) + multiset(sch) == m && |sch| == n && forall i :: 0 <= i < n ==> sch[i].core == i
      ensures Tally(m, n)
    {
    }

    lemma IsTallyBut(m: multiset<Node>, n: nat)
      requires multiset(all) + multiset(sch) == m && |sch| == n + 1 && forall i :: 0 <= i < n ==> sch[i].core == i
      ensures TallyBut(m, n)
    {
    }

    /** `schedule_setcpurange(prog, core, core + prog->cores_needed)` for the program scheduled last. */
    method GiveCore(prog: Node, core: nat, ghost m: multiset<Node>)
      requires Valid() && TallyBut(m, core) && prog == sch[core]
      modifies Repr()`core
      ensures Valid() && Tally(m, core + 1) && A() == old(A()) && S() == old(S())
    {
      hide IsRing, View;
      LastApart();
      prog.core := core;
    }

    /** `elem_move2tail` to the scheduled programs, ahead of the choice of a core. */
    method Schedule(prog: Node, ghost k: nat, ghost m: multiset<Node>, ghost n: nat)
      requires Valid() && k < |all| && all[k] == prog && Tally(m, n)
      modifies this`all, this`sch, Repr()`next, Repr()`prev
      ensures Valid() && Repr() == old(Repr())
      ensures all == Without(old(all), k)
      ensures |old(A())| == |old(all)| && A() == Without(old(A()), k) && S() == old(S()) + [old(A())[k]]
      ensures TallyBut(m, n) && sch[n] == prog
    {
      hide *;
      TallyIs(m, n);
      MovePerm(all, sch, k);
      ToSch(prog, k);
      IsTallyBut(m, n);
    }

    lemma LastApart()
      requires Valid() && sch != []
      ensures sch[|sch| - 1] in Repr() && forall i :: 0 <= i < |sch| - 1 ==> sch[i] != sch[|sch| - 1]
    {
      assert sch[|sch| - 1] in Cells(progs_sch, sch);
    }

    lemma NoneYet()
      requires sch == []
      ensures Tally(multiset(all), 0) && S() == []
    {
    }

    lemma TallySize(m: multiset<Node>, n: nat)
      requires Tally(m, n)
      ensures |sch| == n && Placed() && multiset(all) + multiset(sch) == m
    {
    }

    /** Where a program stands in the two views of its list. */
    lemma ProgAt(k: nat)
      requires Valid() && k < |all|
      ensures |A()| == |all| && A()[k] == Prog(all[k].id, all[k].pd)
      ensures all[k].entry && all[k] == Pos(progs_all, all, k)
    {
    }

    lemma Sizes()
      ensures |A()| == |all| && |S()| == |sch|
    {
    }

    /** `elem_move2tail(&prog->pl_node, &sched->progs_all)` */
    method ToAll(elem: Node, ghost k: nat)
      requires Valid() && k < |sch| && sch[k] == elem
      modifies this`all, this`sch, Repr()`next, Repr()`prev
      ensures Valid() && Repr() == old(Repr())
      ensures sch == Without(old(sch), k) && all == old(all) + [elem]
    {
      hide IsRing;
      MoveToTail(elem, progs_all, progs_sch, sch, k, all);
      sch, all := Without(sch, k), all + [elem];
    }

    lemma AtEnd(k: nat)
      requires Valid()
      ensures k <= |all| ==> (Pos(progs_all, all, k) == progs_all <==> k == |all|)
      ensures k <= |sch| ==> (Pos(progs_sch, sch, k) == progs_sch <==> k == |sch|)
    {
      InRing(progs_all, all);
      InRing(progs_sch, sch);
    }

    /** The k-th program of `progs_all` is a program, and not one of `progs_sch`. */
    lemma Apart(k: nat)
      requires Valid() && k < |all|
      ensures all[k].entry && all[k] !in sch && all[k] in Repr()
    {
      assert all[k] in Cells(progs_all, all);
      forall i | 0 <= i < |sch|
        ensures sch[i] != all[k]
      {
        assert sch[i] in Cells(progs_sch, sch);
      }
    }

    /** `pos->next` in an iteration that stands at the k-th element. */
    lemma NextAll(k: nat)
      requires Valid() && k < |all|
      ensures all[k].next == Pos(progs_all, all, k + 1)
    {
      Next(progs_all, all, k);
    }

    lemma NextSch(k: nat)
      requires Valid() && k < |sch|
      ensures sch[k].next == Pos(progs_sch, sch, k + 1)
    {
      Next(progs_sch, sch, k);
    }

    lemma Firsts()
      requires Valid()
      ensures progs_all.next == Pos(progs_all, all, 0)
      ensures progs_sch.next == Pos(progs_sch, sch, 0)
    {
      First(progs_all, all);
      First(progs_sch, sch);
    }

    // ---------- a third list, on the stack of a policy ----------

    /** `rest` heads a ring `r` of programs beside the two lists. */
    ghost predicate Beside(rest: Node, r: seq<Node>)
      reads this`all, this`sch, Repr()`next, Repr()`prev, Cells(rest, r)`next, Cells(rest, r)`prev
    {
      Valid() && IsRing(rest, r) && Entries(r) && Cells(rest, r) !! Repr()
    }

    /** `list_t rest; CDS_INIT_LIST_HEAD(&rest);` */
    method RestList() returns (rest: Node)
      requires Valid()
      ensures fresh(rest) && Beside(rest, []) && Cells(rest, []) == {rest}
      ensures Repr() == old(Repr()) && rest !in Repr() && A() == old(A()) && S() == old(S())
    {
      hide IsRing, A, S;
      rest := new Node.Head();
      RingAlone(rest);
    }

    lemma RestGone(rest: Node, cells: set<Node>)
      requires Beside(rest, []) && Repr() + Cells(rest, []) == cells + {rest} && rest !in cells
      ensures Valid() && Repr() == cells
    {
      assert rest in Cells(rest, []);
    }

    lemma Views()
      ensures A() == View(all) && S() == View(sch)
    {
    }

    lemma FromBeside(rest: Node, r: seq<Node>)
      requires Beside(rest, r)
      ensures Valid() && Entries(all) && Entries(r) && progs_all !in all
    {
      InRing(progs_all, all);
    }

    lemma BesideNext(rest: Node, r: seq<Node>, i: nat)
      requires Beside(rest, r)
      ensures rest.next == Pos(rest, r, 0) && rest !in r
      ensures i < |r| ==> r[i] != rest && r[i].entry && r[i].next == Pos(rest, r, i + 1)
    {
      First(rest, r);
      InRing(rest, r);
      if i < |r| {
        Next(rest, r, i);
      }
    }

    method AllToRest(elem: Node, rest: Node, ghost r: seq<Node>, ghost k: nat)
      requires Beside(rest, r) && k < |all| && all[k] == elem
      modifies this`all, Repr()`next, Repr()`prev, Cells(rest, r)`next, Cells(rest, r)`prev
      ensures Beside(rest, r + [elem])
      ensures Repr() + Cells(rest, r + [elem]) == old(Repr() + Cells(rest, r))
      ensures all == Without(old(all), k) && multiset(all) + multiset(r + [elem]) == old(multiset(all) + multiset(r))
    {
      hide IsRing, NoDup, Without;
      TakeFrom(all, k);
      MoveToTail(elem, rest, progs_all, all, k, r);
      EntriesMoved(all, k, r);
      all := Without(all, k);
    }

    method RestToAll(elem: Node, rest: Node, ghost r: seq<Node>, ghost k: nat)
      requires Beside(rest, r) && k < |r| && r[k] == elem
      modifies this`all, Repr()`next, Repr()`prev, Cells(rest, r)`next, Cells(rest, r)`prev
      ensures Beside(rest, Without(r, k))
      ensures Repr() + Cells(rest, Without(r, k)) == old(Repr() + Cells(rest, r))
      ensures all == old(all) + [elem]
    {
      hide IsRing, NoDup, Without;
      MoveToTail(elem, progs_all, rest, r, k, all);
      EntriesMoved(r, k, all);
      all := all + [elem];
    }

    method RestToSch(elem: Node, rest: Node, ghost r: seq<Node>, ghost k: nat)
      requires Beside(rest, r) && k < |r| && r[k] == elem
      modifies this`sch, Repr()`next, Repr()`prev, Cells(rest, r)`next, Cells(rest, r)`prev
      ensures Beside(rest, Without(r, k))
      ensures Repr() + Cells(rest, Without(r, k)) == old(Repr() + Cells(rest, r))
      ensures sch == old(sch) + [elem]
      ensures |old(View(r))| == |r| && View(Without(r, k)) == Without(old(View(r)), k)
      ensures View(sch) == old(View(sch)) + [old(View(r))[k]] && View(all) == old(View(all))
    {
      hide IsRing, NoDup, Without, View;
      ghost var v, s := View(r), View(sch);
      MoveToTail(elem, progs_sch, rest, r, k, sch);
      assert View(r) == v && View(sch) == s;
      ViewMoved(r, k, sch);
      EntriesMoved(r, k, sch);
      sch := sch + [elem];
    }

    /** `qsrt_quicksort(all, ASC)` */
    method SortAll()
      requires Valid()
      modifies this`all, Repr()`next, Repr()`prev
      ensures Valid() && Repr() == old(Repr())
      ensures multiset(all) == multiset(old(all))
      ensures multiset(A()) == multiset(old(A())) && InOrder(A()) && S() == old(S())
    {
      hide IsRing, View, QSort.Sorted, InOrder;
      ghost var a, s, nodes := View(all), View(sch), all;
      all := QSort.Quicksort(progs_all, QSort.ASC, all);
      assert View(nodes) == a && View(sch) == s;
      ViewPerm(nodes, all);
      SortedView(all);
    }

    predicate Monitoring()
      reads this
    {
      monitor_wnd <= progs_nr
    }

    lemma IsMonitoring()
      ensures Monitoring() <==> monitor_wnd <= progs_nr
    {
    }

    /** `monitor`: the first program runs alone. */
    method Monitor()
      requires Valid() && all != [] && sch == []
      modifies this`all, this`sch, this`monitor_wnd, Repr()`next, Repr()`prev, Repr()`core
      ensures Valid() && Repr() == old(Repr())
      ensures sch == [old(all)[0]] && all == Without(old(all), 0)
      ensures |old(A())| == |old(all)| && A() == Without(old(A()), 0) && S() == [old(A())[0]]
      ensures sch[0].core == old(monitor_wnd) % MAX_CORES
      ensures monitor_wnd == old(monitor_wnd) + 1
    {
      hide *;
      Firsts();
      AtEnd(0);
      Apart(0);
      ProgAt(0);
      SixCores();
      NoneYet();
      var core := monitor_wnd % MAX_CORES;
      var prog := progs_all.next;
      ToSch(prog, 0);
      prog.core := core;
      monitor_wnd := monitor_wnd + 1;
    }

    /** `move_progs_to_all`: the safe iteration moves every element away as it passes. */
    method MoveProgsToAll()
      requires Valid()
      modifies this`all, this`sch, Repr()`next, Repr()`prev
      ensures Valid() && Repr() == old(Repr())
      ensures all == old(all) + old(sch) && sch == []
    {
      hide Valid, Repr;
      Firsts();
      AtEnd(0);
      var p := progs_sch.next;
      ghost var k := 0;
      while p != progs_sch
        invariant Valid() && Repr() == old(Repr())
        invariant k <= |old(sch)| && sch == old(sch)[k..] && all == old(all) + old(sch)[..k]
        invariant p == Pos(progs_sch, sch, 0) && (p == progs_sch <==> sch == [])
        decreases |old(sch)| - k
      {
        NextSch(0);
        var tmp := p.next;
        ToAll(p, 0);
        k := k + 1;
        p := tmp;
        AtEnd(0);
      }
    }
  }

  lemma MovePerm<T>(s: seq<T>, t: seq<T>, k: nat)
    requires k < |s|
    ensures multiset(Without(s, k)) + multiset(t + [s[k]]) == multiset(s) + multiset(t)
  {
    TakeFrom(s, k);
    Append(t, s[k]);
    Across(multiset(Without(s, k)), multiset(t), multiset{s[k]}, multiset{});
  }

  lemma ViewSize(s: seq<Node>)
    ensures |View(s)| == |s|
  {
  }

  lemma ViewAppend(s: seq<Node>, n: Node)
    ensures View(s + [n]) == View(s) + [Prog(n.id, n.pd)]
  {
  }

  lemma ViewConcat(s: seq<Node>, t: seq<Node>)
    ensures View(s + t) == View(s) + View(t)
  {
  }

  lemma SortedView(s: seq<Node>)
    requires Entries(s) && QSort.Sorted(QSort.ASC, s)
    ensures InOrder(View(s))
  {
    forall i, j | 0 <= i < j < |s|
      ensures ToInt(View(s)[i].pd.ratio) <= ToInt(View(s)[j].pd.ratio)
    {
      assert QSort.Rank(QSort.ASC, s[i]) <= QSort.Rank(QSort.ASC, s[j]);
    }
  }

  lemma {:induction false} ViewPerm(s: seq<Node>, r: seq<Node>)
    requires multiset(s) == multiset(r)
    ensures multiset(View(s)) == multiset(View(r))
    decreases |s|
  {
    hide View;
    ViewSize(s);
    ViewSize(r);
    if s == [] {
      assert |multiset(r)| == 0;
    } else {
      var m := |s| - 1;
      assert s[m] in multiset(r);
      var k :| 0 <= k < |r| && r[k] == s[m];
      TakeFrom(s, m);
      TakeFrom(r, k);
      assert Without(s, m) == s[..m];
      Cancel(multiset(s[..m]), multiset(Without(r, k)), multiset{s[m]});
      ViewPerm(s[..m], Without(r, k));
      ViewMoved(s, m, []);
      ViewMoved(r, k, []);
      TakeFrom(View(s), m);
      TakeFrom(View(r), k);
    }
  }

  lemma EntriesMoved(s: seq<Node>, k: nat, t: seq<Node>)
    requires k < |s| && Entries(s) && Entries(t)
    ensures Entries(Without(s, k)) && Entries(t + [s[k]])
  {
  }

  lemma ViewMoved(s: seq<Node>, k: nat, t: seq<Node>)
    requires k < |s|
    ensures |View(s)| == |s| && View(Without(s, k)) == Without(View(s), k)
    ensures View(t + [s[k]]) == View(t) + [View(s)[k]]
  {
  }

  /** The i-th element of an iteration, the head when it is over. */
  function Pos(head: Node, s: seq<Node>, i: nat): Node {
    if i < |s| then s[i] else head
  }

  lemma RingAlone(head: Node)
    requires head.next == head.prev == head
    ensures IsRing(head, []) && Cells(head, []) == {head}
  {
  }

  lemma AtPos(head: Node, s: seq<Node>, i: nat)
    requires i <= |s| && head !in s
    ensures if i < |s| then Pos(head, s, i) == s[i] != head else Pos(head, s, i) == head
  {
  }

  lemma First(head: Node, s: seq<Node>)
    requires IsRing(head, s)
    ensures head.next == Pos(head, s, 0)
  {
    assert Nth(head, s, 0).next == Nth(head, s, 1);
  }

  lemma InRing(head: Node, s: seq<Node>)
    requires IsRing(head, s)
    ensures forall i :: 0 <= i < |s| ==> s[i] != head
  {
  }

  lemma Next(head: Node, s: seq<Node>, i: nat)
    requires IsRing(head, s) && i < |s|
    ensures s[i].next == Pos(head, s, i + 1)
  {
    assert Nth(head, s, i + 1).next == Nth(head, s, i + 2);
  }

  /** Unlink, make self-linked, append: `elem_move2tail` of every policy. */
  method MoveToTail(elem: Node, to: Node, ghost from: Node, ghost s: seq<Node>, ghost k: nat, ghost t: seq<Node>)
    requires IsRing(from, s) && IsRing(to, t) && Cells(from, s) !! Cells(to, t)
    requires k < |s| && s[k] == elem
    modifies Cells(from, s)`next, Cells(from, s)`prev, Cells(to, t)`next, Cells(to, t)`prev
    ensures IsRing(from, Without(s, k)) && IsRing(to, t + [elem])
    ensures Cells(from, Without(s, k)) == Cells(from, s) - {elem}
    ensures Cells(to, t + [elem]) == Cells(to, t) + {elem}
  {
    hide IsRing, NoDup;
    WithoutFrom(from, s, k);
    Del(elem, from, s, k);
    Init(elem);
    AddTail(elem, to, t);
  }

  lemma WithoutFrom(head: Node, s: seq<Node>, k: nat)
    requires IsRing(head, s) && k < |s|
    ensures s[k] in Cells(head, s) && s[k] !in Cells(head, Without(s, k)) && s[k] != head
  {
  }

  method Init(elem: Node)
    modifies elem`next, elem`prev
    ensures elem.next == elem.prev == elem
  {
    elem.next := elem;
    elem.prev := elem;
  }
}
