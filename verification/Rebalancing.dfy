/** What `rebalance` does with a program that has finished and with one that is new. */
module Rebalancing {
  import opened Machine
  import opened Programs
  import opened Rings
  import opened Seqs
  import opened Scheds
  import opened Clocks
  import opened Quanta
  import opened Freezing
  import opened Instances

  datatype Option<T> = None | Some(value: T)

  /** No division of the last accounting has the divisor zero. */
  ghost predicate EndDivides(policy: Policy, pd: ProgData, r: Reading) {
    policy != PERF && r.unh_cycles != 0 ==> Ideal(pd, r.unh_cycles) > 0
  }

  /** The data of a finished program is brought up to date. */
  method End(policy: Policy, n: Node, r: Reading, now: int)
    requires EndDivides(policy, n.pd, r)
    modifies n`pd
    ensures n.pd == Ended(policy, old(n.pd), r, now)
  {
    UpdateClock(n, now);
    n.pd := n.pd.(instr_retd := r.instr_retd, unh_cycles := r.unh_cycles);
    n.pd := n.pd.(mem_reads := r.mem_reads, llc_occupancy := r.llc_occupancy);
    n.pd := n.pd.(instr_retd_sum := AsU64(n.pd.instr_retd_sum + n.pd.instr_retd));
    if policy != PERF {
      var unh_cycles := n.pd.unh_cycles;
      UpdateProgress(n, unh_cycles);
    }
  }

  /** One turn of the first loop of `rebalance`, with `respawn`; the program is on no list any more. */
  method FinishProg(sched: Sched, policy: Policy, prog: Node, r: Reading, now: int) returns (next: Option<Spawn>)
    requires sched.Valid() && prog.entry && prog !in sched.Repr() && prog.pd.init_id < sched.target_instr.Length
    requires EndDivides(policy, prog.pd, r)
    modifies prog`pd, sched`progs_nr, sched.target_instr
    ensures sched.Valid() && sched.A() == old(sched.A()) && sched.S() == old(sched.S())
    ensures !prog.killed ==>
              && prog.pd == Ended(policy, old(prog.pd), r, now)
              && sched.target_instr[..] == Deducted(old(sched.target_instr[..]), old(prog.pd.init_id), r)
              && next == if sched.target_instr[old(prog.pd.init_id)] > RESPAWN_ABOVE
                         then Some(Spawn(sched.target_instr.Length + prog.id, HandedOn(policy, prog.pd))) else None
    ensures prog.killed ==> next == None && sched.target_instr[..] == old(sched.target_instr[..])
    ensures sched.progs_nr == old(sched.progs_nr) - 1
  {
    hide IsRing, NoDup, View, Ended, HandedOn, Deducted, ToLong;
    next := None;
    if !prog.killed {
      OutOfLists(sched, prog);
      EndedKeeps(policy, prog.pd, r, now);
      End(policy, prog, r, now);
      var i := prog.pd.init_id;
      DeductedIs(sched.target_instr[..], i, r);
      sched.target_instr[i] := sched.target_instr[i] - ToLong(prog.pd.instr_retd);
      if sched.target_instr[i] > RESPAWN_ABOVE {
        next := Some(Spawn(sched.target_instr.Length + prog.id, HandedOn(policy, prog.pd)));
      }
    }
    sched.progs_nr := sched.progs_nr - 1;
  }

  lemma OutOfLists(sched: Sched, prog: Node)
    requires prog !in sched.Repr()
    ensures prog !in sched.all && prog !in sched.sch
  {
  }

  lemma EndedKeeps(policy: Policy, pd: ProgData, r: Reading, now: int)
    ensures Ended(policy, pd, r, now).init_id == pd.init_id && Ended(policy, pd, r, now).instr_retd == r.instr_retd
  {
  }

  lemma DeductedIs(target: seq<int>, i: nat, r: Reading)
    requires i < |target|
    ensures Deducted(target, i, r) == target[i := target[i] - ToLong(r.instr_retd)]
  {
  }

  /** The part of `aff_prog_running_finished` that concerns the lists: the program leaves the one it is on. */
  method Unlink(sched: Sched, prog: Node, scheduled: bool, ghost k: nat)
    requires sched.Valid() && k < |if scheduled then sched.sch else sched.all|
    requires prog == (if scheduled then sched.sch else sched.all)[k]
    modifies sched`all, sched`sch, sched.Repr()`next, sched.Repr()`prev
    ensures sched.Valid() && sched.Repr() == old(sched.Repr()) - {prog} && prog.entry
    ensures k < |List(old(Q(sched)), scheduled)| && Q(sched) == Unlisted(old(Q(sched)), scheduled, k)
  {
    hide *;
    ghost var q := Q(sched);
    QIs(sched);
    sched.Sizes();
    UnlistedIs(q, scheduled, k);
    if scheduled {
      SchApart(sched, k);
      DelSch(sched, prog, k);
    } else {
      DelAll(sched, prog, k);
    }
    QIs(sched);
  }

  lemma UnlistedIs(q: State, scheduled: bool, k: nat)
    ensures List(q, scheduled) == if scheduled then q.sch else q.all
    ensures k < |List(q, scheduled)| ==>
              Unlisted(q, scheduled, k) ==
                if scheduled then q.(sch := Without(q.sch, k)) else q.(all := Without(q.all, k))
  {
  }

  method DelAll(sched: Sched, prog: Node, ghost k: nat)
    requires sched.Valid() && k < |sched.all| && prog == sched.all[k]
    modifies sched`all, sched.Repr()`next, sched.Repr()`prev
    ensures sched.Valid() && sched.Repr() == old(sched.Repr()) - {prog} && prog.entry
    ensures sched.S() == old(sched.S()) && |old(sched.A())| == |old(sched.all)|
    ensures sched.A() == Without(old(sched.A()), k)
  {
    hide IsRing, NoDup, View;
    ghost var v := View(sched.sch);
    sched.Apart(k);
    WithoutFrom(sched.progs_all, sched.all, k);
    EntriesMoved(sched.all, k, []);
    Del(prog, sched.progs_all, sched.all, k);
    assert View(sched.sch) == v;
    ViewMoved(sched.all, k, []);
    sched.all := Without(sched.all, k);
  }

  /** `sched_add_prog` on memory that is not initialised. */
  method Load(n: Node, app: App, progs_init: nat, now: int)
    requires n.entry && progs_init > 0 && n.id >= ID_USER_OFFSET
    modifies n`pd
    ensures Prog(n.id, n.pd) == Added(Spawn(n.id, app), old(n.pd), progs_init, now)
  {
    n.pd := n.pd.(category := app.mem_needed, llc_alone := app.llc_alone, ipc_alone := ToInt(app.thr_real));
    n.pd := n.pd.(ideal_instr := app.ideal_instr, instr_retd_sum := app.instr_retd_sum);
    n.pd := n.pd.(ratio := 0, sum_mem_reads := app.sum_mem_reads, mem_reads := 0);
    InitClock(n, now);
    n.pd := n.pd.(init_id := (n.id - ID_USER_OFFSET) % progs_init);
  }

  /** One turn of the second loop of `rebalance`: the first program of the list `pnew` is handed to the scheduler. */
  method AddProg(sched: Sched, prog: Node, app: App, pnew: Node, ghost new': seq<Node>, now: int)
    requires sched.Beside(pnew, new') && new' != [] && prog == new'[0]
    requires sched.target_instr.Length > 0 && prog.id >= ID_USER_OFFSET
    modifies sched`all, sched`progs_nr, prog`pd
    modifies sched.Repr()`next, sched.Repr()`prev, Cells(pnew, new')`next, Cells(pnew, new')`prev
    ensures sched.Beside(pnew, Without(new', 0))
    ensures sched.Repr() + Cells(pnew, Without(new', 0)) == old(sched.Repr() + Cells(pnew, new'))
    ensures |old(View(new'))| == |new'| && View(Without(new', 0)) == Without(old(View(new')), 0)
    ensures
      var q := old(Q(sched));
      var x := Added(Spawn(prog.id, app), old(prog.pd), |q.target|, now);
      Q(sched) == q.(all := q.all + [x], nr := q.nr + 1)
  {
    hide *;
    ghost var q := Q(sched);
    ghost var x := Added(Spawn(prog.id, app), prog.pd, sched.target_instr.Length, now);
    QIs(sched);
    ViewMoved(new', 0, []);
    LoadNew(sched, prog, app, pnew, new', now);
    sched.progs_nr := sched.progs_nr + 1;
    MoveNew(sched, prog, pnew, new');
    QIs(sched);
  }

  method LoadNew(sched: Sched, prog: Node, app: App, pnew: Node, ghost new': seq<Node>, now: int)
    requires sched.Beside(pnew, new') && new' != [] && prog == new'[0]
    requires sched.target_instr.Length > 0 && prog.id >= ID_USER_OFFSET
    modifies prog`pd
    ensures sched.Beside(pnew, new') && sched.Repr() == old(sched.Repr())
    ensures sched.A() == old(sched.A()) && sched.S() == old(sched.S())
    ensures Prog(prog.id, prog.pd) == Added(Spawn(prog.id, app), old(prog.pd), sched.target_instr.Length, now)
    ensures View(Without(new', 0)) == old(View(Without(new', 0)))
  {
    hide IsRing, NoDup, View, Added;
    sched.FromBeside(pnew, new');
    FirstOnly(pnew, new');
    TailIs(new');
    InBeside(sched, pnew, new', 0);
    Load(prog, app, sched.target_instr.Length, now);
  }

  method MoveNew(sched: Sched, prog: Node, pnew: Node, ghost new': seq<Node>)
    requires sched.Beside(pnew, new') && new' != [] && prog == new'[0]
    modifies sched`all, sched.Repr()`next, sched.Repr()`prev, Cells(pnew, new')`next, Cells(pnew, new')`prev
    ensures sched.Beside(pnew, Without(new', 0))
    ensures sched.A() == old(sched.A()) + [Prog(prog.id, prog.pd)] && sched.S() == old(sched.S())
    ensures sched.Repr() + Cells(pnew, Without(new', 0)) == old(sched.Repr() + Cells(pnew, new'))
    ensures View(Without(new', 0)) == old(View(Without(new', 0)))
  {
    hide IsRing, NoDup, View, Without;
    ghost var a, v, nodes, rest := View(sched.all), View(sched.sch), sched.all, Without(new', 0);
    ghost var w := View(rest);
    sched.RestToAll(prog, pnew, new', 0);
    assert View(nodes) == a && View(sched.sch) == v && View(rest) == w;
    ViewAppend(nodes, prog);
  }

  lemma InBeside(sched: Sched, rest: Node, r: seq<Node>, k: nat)
    requires sched.Beside(rest, r) && k < |r|
    ensures r[k].entry && r[k] in Cells(rest, r) && r[k] !in sched.all && r[k] !in sched.sch
  {
    assert r[k] in Cells(rest, r);
    forall i | 0 <= i < |sched.all|
      ensures sched.all[i] != r[k]
    {
      assert sched.all[i] in Cells(sched.progs_all, sched.all);
    }
    forall i | 0 <= i < |sched.sch|
      ensures sched.sch[i] != r[k]
    {
      assert sched.sch[i] in Cells(sched.progs_sch, sched.sch);
    }
  }

  /** A program ends: it is taken from its list when the signal arrives, and `rebalance` does the rest. */
  method Exit(sched: Sched, policy: Policy, prog: Node, scheduled: bool, ghost k: nat, r: Reading, now: int,
              ghost w: World)
    returns (next: Option<Spawn>)
    requires sched.Valid() && w.q == Q(sched) && k < |if scheduled then sched.sch else sched.all|
    requires prog == (if scheduled then sched.sch else sched.all)[k] && !prog.killed
    requires prog.pd.init_id < sched.target_instr.Length && EndDivides(policy, prog.pd, r)
    modifies sched`all, sched`sch, sched.Repr()`next, sched.Repr()`prev
    modifies sched.Repr()`pd, sched`progs_nr, sched.target_instr
    ensures sched.Valid()
    ensures k < |List(w.q, scheduled)| && List(w.q, scheduled)[k].pd.init_id < |w.q.target|
    ensures
      var w' := Finished(policy, w, scheduled, k, r, now);
      && Q(sched) == w'.q
      && w'.waiting == if next.None? then w.waiting else w.waiting + [next.value]
  {
    hide *;
    QIs(sched);
    ListAt(sched, scheduled, k);
    UnlistedIs(w.q, scheduled, k);
    Unlink(sched, prog, scheduled, k);
    QIs(sched);
    next := FinishProg(sched, policy, prog, r, now);
    QIs(sched);
    FinishedIs(policy, w, scheduled, k, r, now);
  }

  lemma ListAt(sched: Sched, scheduled: bool, k: nat)
    requires sched.Valid() && k < |if scheduled then sched.sch else sched.all|
    ensures
      var prog := (if scheduled then sched.sch else sched.all)[k];
      && k < |List(Q(sched), scheduled)| && List(Q(sched), scheduled)[k] == Prog(prog.id, prog.pd)
         && prog in sched.Repr()
  {
    if scheduled {
      SchApart(sched, k);
    } else {
      sched.Apart(k);
    }
  }

  lemma FinishedIs(policy: Policy, w: World, scheduled: bool, k: nat, r: Reading, now: int)
    requires k < |List(w.q, scheduled)| && List(w.q, scheduled)[k].pd.init_id < |w.q.target|
    ensures
      var x := List(w.q, scheduled)[k];
      var target := Deducted(w.q.target, x.pd.init_id, r);
      var w' := Finished(policy, w, scheduled, k, r, now);
      && w'.q == Unlisted(w.q, scheduled, k).(target := target, nr := w.q.nr - 1)
      && w'.waiting == if target[x.pd.init_id] > RESPAWN_ABOVE
                       then w.waiting + [Spawn(|w.q.target| + x.id, HandedOn(policy, Ended(policy, x.pd, r, now)))]
                       else w.waiting
  {
  }

  // ---------- the two loops ----------

  /** What the first loop keeps up to date: targets, count and the programs that are started again. */
  datatype Books = Books(target: seq<int>, nr: int, next: seq<Spawn>)

  function Settled(policy: Policy, x: Prog, killed: bool, r: Reading, now: int, b: Books): (b': Books)
    requires x.pd.init_id < |b.target|
    ensures |b'.target| == |b.target|
  {
    if killed then b.(nr := b.nr - 1)
    else
      var target := Deducted(b.target, x.pd.init_id, r);
      Books(target, b.nr - 1,
            if target[x.pd.init_id] > RESPAWN_ABOVE
            then b.next + [Spawn(|b.target| + x.id, HandedOn(policy, Ended(policy, x.pd, r, now)))] else b.next)
  }

  function SettledAll(policy: Policy, todo: seq<Prog>, killed: seq<bool>, rs: int -> Reading, now: Times,
                      b: Books): (b': Books)
    requires |killed| == |todo| && Slotted(todo, |b.target|)
    ensures |b'.target| == |b.target|
    decreases |todo|
  {
    if todo == [] then b
    else
      var x := todo[0];
      SettledAll(policy, todo[1..], killed[1..], rs, now, Settled(policy, x, killed[0], rs(x.id), now(x.id), b))
  }

  lemma SettledStep(policy: Policy, todo: seq<Prog>, killed: seq<bool>, rs: int -> Reading, now: Times, b: Books)
    requires |killed| == |todo| && Slotted(todo, |b.target|)
    ensures todo == [] ==> SettledAll(policy, todo, killed, rs, now, b) == b
    ensures todo != [] ==>
              && Slotted(todo[1..], |b.target|) && todo[0].pd.init_id < |b.target|
              && var x := todo[0];
                 SettledAll(policy, todo[1..], killed[1..], rs, now,
                            Settled(policy, x, killed[0], rs(x.id), now(x.id), b))
                 == SettledAll(policy, todo, killed, rs, now, b)
  {
  }

  ghost function Killed(s: seq<Node>): (k: seq<bool>)
    reads (set n | n in s)`killed
    ensures |k| == |s| && forall i :: 0 <= i < |s| ==> k[i] == s[i].killed
  {
    if s == [] then [] else Killed(s[..|s| - 1]) + [s[|s| - 1].killed]
  }

  ghost predicate AllDivide(policy: Policy, s: seq<Prog>, rs: int -> Reading) {
    forall i :: 0 <= i < |s| ==> EndDivides(policy, s[i].pd, rs(s[i].id))
  }

  /** The ring `pfinished` of programs beside the lists, and what is known of them. */
  ghost predicate Awaiting(sched: Sched, policy: Policy, pfinished: Node, fin: seq<Node>, rs: int -> Reading)
    reads sched`all, sched`sch, sched.Repr()`next, sched.Repr()`prev
    reads Cells(pfinished, fin)`next, Cells(pfinished, fin)`prev, (set n | n in fin)`pd
  {
    && sched.Beside(pfinished, fin)
    && Slotted(View(fin), sched.target_instr.Length) && AllDivide(policy, View(fin), rs)
  }

  lemma FirstAwaits(sched: Sched, policy: Policy, pfinished: Node, fin: seq<Node>, rs: int -> Reading)
    requires Awaiting(sched, policy, pfinished, fin, rs) && fin != []
    ensures sched.Beside(pfinished, fin) && |View(fin)| == |fin| == |Killed(fin)|
    ensures View(fin)[0] == Prog(fin[0].id, fin[0].pd) && Killed(fin)[0] == fin[0].killed
    ensures fin[0].pd.init_id < sched.target_instr.Length && EndDivides(policy, fin[0].pd, rs(fin[0].id))
    ensures View(fin[1..]) == View(fin)[1..] && Killed(fin[1..]) == Killed(fin)[1..]
    ensures Slotted(View(fin[1..]), sched.target_instr.Length) && AllDivide(policy, View(fin[1..]), rs)
  {
    hide IsRing, View, Killed, EndDivides;
    Shown(fin);
    Shown(fin[1..]);
    assert View(fin[1..]) == View(fin)[1..];
    assert Killed(fin[1..]) == Killed(fin)[1..];
  }

  lemma IsAwaiting(sched: Sched, policy: Policy, pfinished: Node, fin: seq<Node>, rs: int -> Reading)
    requires sched.Beside(pfinished, fin)
    requires Slotted(View(fin), sched.target_instr.Length) && AllDivide(policy, View(fin), rs)
    ensures Awaiting(sched, policy, pfinished, fin, rs)
  {
  }

  /** The first finished program is taken from its ring, and dealt with. */
  method FinishFirst(sched: Sched, policy: Policy, prog: Node, pfinished: Node, ghost fin: seq<Node>,
                     rs: int -> Reading, now: int)
    returns (next: Option<Spawn>)
    requires Awaiting(sched, policy, pfinished, fin, rs) && fin != [] && prog == fin[0]
    modifies Cells(pfinished, fin)`next, Cells(pfinished, fin)`prev, prog`pd, sched`progs_nr, sched.target_instr
    ensures Awaiting(sched, policy, pfinished, fin[1..], rs) && Cells(pfinished, fin[1..]) <= Cells(pfinished, fin)
    ensures sched.A() == old(sched.A()) && sched.S() == old(sched.S()) && sched.Repr() == old(sched.Repr())
    ensures |old(View(fin))| == |fin| && View(fin[1..]) == old(View(fin))[1..]
    ensures Killed(fin[1..]) == old(Killed(fin))[1..]
    ensures old(View(fin))[0].pd.init_id < |old(sched.target_instr[..])|
    ensures
      var x := old(View(fin))[0];
      var b := Settled(policy, x, old(Killed(fin))[0], rs(x.id), now,
                       Books(old(sched.target_instr[..]), old(sched.progs_nr), []));
      && sched.target_instr[..] == b.target && sched.progs_nr == b.nr
      && b.next == if next.None? then [] else [next.value]
  {
    hide *;
    FirstAwaits(sched, policy, pfinished, fin, rs);
    UnlinkFirst(sched, prog, pfinished, fin);
    SettledIs(policy, old(View(fin))[0], prog.killed, rs(prog.id), now,
              Books(sched.target_instr[..], sched.progs_nr, []));
    next := FinishApart(sched, policy, prog, pfinished, fin[1..], rs(prog.id), now);
    IsAwaiting(sched, policy, pfinished, fin[1..], rs);
  }

  lemma SettledIs(policy: Policy, x: Prog, killed: bool, r: Reading, now: int, b: Books)
    requires x.pd.init_id < |b.target|
    ensures
      var target := Deducted(b.target, x.pd.init_id, r);
      Settled(policy, x, killed, r, now, b) ==
        if killed then b.(nr := b.nr - 1)
        else Books(target, b.nr - 1,
                   if target[x.pd.init_id] > RESPAWN_ABOVE
                   then b.next + [Spawn(|b.target| + x.id, HandedOn(policy, Ended(policy, x.pd, r, now)))] else b.next)
  {
  }

  /** `FinishProg` beside the programs that have still to be dealt with. */
  method FinishApart(sched: Sched, policy: Policy, prog: Node, pfinished: Node, ghost fin: seq<Node>, r: Reading,
                     now: int)
    returns (next: Option<Spawn>)
    requires sched.Beside(pfinished, fin) && prog.entry && prog !in sched.Repr() && prog !in fin
    requires prog.pd.init_id < sched.target_instr.Length && EndDivides(policy, prog.pd, r)
    modifies prog`pd, sched`progs_nr, sched.target_instr
    ensures sched.Beside(pfinished, fin) && View(fin) == old(View(fin)) && Killed(fin) == old(Killed(fin))
    ensures sched.A() == old(sched.A()) && sched.S() == old(sched.S()) && sched.Repr() == old(sched.Repr())
    ensures prog.killed == old(prog.killed)
    ensures !prog.killed ==>
              && sched.target_instr[..] == Deducted(old(sched.target_instr[..]), old(prog.pd.init_id), r)
              && next == if sched.target_instr[old(prog.pd.init_id)] > RESPAWN_ABOVE
                         then Some(Spawn(sched.target_instr.Length + prog.id,
                                         HandedOn(policy, Ended(policy, old(prog.pd), r, now))))
                         else None
    ensures prog.killed ==> next == None && sched.target_instr[..] == old(sched.target_instr[..])
    ensures sched.progs_nr == old(sched.progs_nr) - 1
  {
    hide IsRing, View, Killed, Ended, HandedOn, Deducted, EndDivides;
    next := FinishProg(sched, policy, prog, r, now);
  }

  method UnlinkFirst(sched: Sched, prog: Node, pfinished: Node, ghost fin: seq<Node>)
    requires sched.Beside(pfinished, fin) && fin != [] && prog == fin[0]
    modifies Cells(pfinished, fin)`next, Cells(pfinished, fin)`prev
    ensures sched.Beside(pfinished, fin[1..]) && Cells(pfinished, fin[1..]) == Cells(pfinished, fin) - {prog}
    ensures prog !in sched.Repr() && prog.entry && prog !in fin[1..]
    ensures sched.A() == old(sched.A()) && sched.S() == old(sched.S()) && sched.Repr() == old(sched.Repr())
    ensures View(fin[1..]) == old(View(fin[1..])) && Killed(fin[1..]) == old(Killed(fin[1..]))
  {
    hide IsRing, View, Killed, NoDup;
    InBeside(sched, pfinished, fin, 0);
    DelHead(prog, pfinished, fin);
    EntriesTail(fin);
  }

  lemma EntriesTail(s: seq<Node>)
    requires Entries(s) && s != []
    ensures Entries(s[1..])
  {
  }

  method DelHead(elem: Node, head: Node, ghost s: seq<Node>)
    requires IsRing(head, s) && s != [] && elem == s[0]
    modifies Cells(head, s)`next, Cells(head, s)`prev
    ensures IsRing(head, s[1..]) && Cells(head, s[1..]) == Cells(head, s) - {elem} && elem !in s[1..]
  {
    hide IsRing, NoDup;
    WithoutFrom(head, s, 0);
    FirstOnly(head, s);
    Del(elem, head, s, 0);
    Init(elem);
    TailIs(s);
  }

  lemma TailIs<T>(s: seq<T>)
    requires s != []
    ensures Without(s, 0) == s[1..]
  {
  }

  lemma FirstOnly(head: Node, s: seq<Node>)
    requires IsRing(head, s) && s != []
    ensures s[0] !in s[1..]
  {
  }

  /** The first loop of `rebalance`. */
  method FinishAll(sched: Sched, policy: Policy, pfinished: Node, ghost fin: seq<Node>, rs: int -> Reading, now: Times)
    returns (next: seq<Spawn>)
    requires Awaiting(sched, policy, pfinished, fin, rs)
    modifies Cells(pfinished, fin)`next, Cells(pfinished, fin)`prev, Cells(pfinished, fin)`pd
    modifies sched`progs_nr, sched.target_instr
    ensures sched.Beside(pfinished, [])
    ensures sched.A() == old(sched.A()) && sched.S() == old(sched.S()) && sched.Repr() == old(sched.Repr())
    ensures |old(Killed(fin))| == |old(View(fin))| && Slotted(old(View(fin)), |old(sched.target_instr[..])|)
    ensures
      var b := Books(old(sched.target_instr[..]), old(sched.progs_nr), []);
      Books(sched.target_instr[..], sched.progs_nr, next)
        == SettledAll(policy, old(View(fin)), old(Killed(fin)), rs, now, b)
  {
    hide *;
    next := [];
    ghost var left := fin;
    ghost var todo, killed := View(fin), Killed(fin);
    ghost var b := Books(sched.target_instr[..], sched.progs_nr, []);
    AwaitingIs(sched, policy, pfinished, fin, rs);
    ghost var goal := SettledAll(policy, todo, killed, rs, now, b);
    sched.BesideNext(pfinished, fin, 0);
    AtPos(pfinished, fin, 0);
    var prog := pfinished.next;
    while prog != pfinished
      invariant Awaiting(sched, policy, pfinished, left, rs) && Cells(pfinished, left) <= Cells(pfinished, fin)
      invariant todo == View(left) && killed == Killed(left) && |killed| == |todo| == |left|
      invariant prog == Pos(pfinished, left, 0) && pfinished !in left
      invariant sched.A() == old(sched.A()) && sched.S() == old(sched.S()) && sched.Repr() == old(sched.Repr())
      invariant b == Books(sched.target_instr[..], sched.progs_nr, next) && Slotted(todo, |b.target|)
      invariant SettledAll(policy, todo, killed, rs, now, b) == goal
      decreases |left|
    {
      AtPos(pfinished, left, 0);
      AwaitingIs(sched, policy, pfinished, left, rs);
      FirstAwaits(sched, policy, pfinished, left, rs);
      sched.BesideNext(pfinished, left, 0);
      SettledStep(policy, todo, killed, rs, now, b);
      SettledMore(policy, todo[0], killed[0], rs(prog.id), now(prog.id), b);
      PosTail(pfinished, left);
      InBeside(sched, pfinished, left, 0);
      var tmp := prog.next;
      var one := FinishFirst(sched, policy, prog, pfinished, left, rs, now(prog.id));
      if one.Some? { next := next + [one.value]; }
      b := Settled(policy, todo[0], killed[0], rs(prog.id), now(prog.id), b);
      left, todo, killed := left[1..], todo[1..], killed[1..];
      prog := tmp;
    }
    AtPos(pfinished, left, 0);
    SettledStep(policy, todo, killed, rs, now, b);
    AwaitingIs(sched, policy, pfinished, left, rs);
  }

  lemma AwaitingIs(sched: Sched, policy: Policy, pfinished: Node, fin: seq<Node>, rs: int -> Reading)
    requires Awaiting(sched, policy, pfinished, fin, rs)
    ensures sched.Beside(pfinished, fin) && |View(fin)| == |fin| == |Killed(fin)|
    ensures Slotted(View(fin), sched.target_instr.Length)
  {
  }

  lemma PosTail(head: Node, s: seq<Node>)
    requires s != []
    ensures Pos(head, s, 1) == Pos(head, s[1..], 0) && (head !in s ==> head !in s[1..])
  {
  }

  lemma SettledMore(policy: Policy, x: Prog, killed: bool, r: Reading, now: int, b: Books)
    requires x.pd.init_id < |b.target|
    ensures
      var c := Settled(policy, x, killed, r, now, b.(next := []));
      Settled(policy, x, killed, r, now, b) == c.(next := b.next + c.next)
  {
    hide Ended, HandedOn, Deducted;
  }

  // ---------- the second loop ----------

  function AddedAll(v: seq<Prog>, apps: int -> App, init: nat, now: Times): (r: seq<Prog>)
    requires init > 0
    ensures |r| == |v|
    ensures forall i :: 0 <= i < |v| ==> r[i] == AddedAt(v[i], apps, init, now)
  {
    seq(|v|, i requires 0 <= i < |v| => AddedAt(v[i], apps, init, now))
  }

  function AddedAt(x: Prog, apps: int -> App, init: nat, now: Times): Prog
    requires init > 0
  {
    Added(Spawn(x.id, apps(x.id)), x.pd, init, now(x.id))
  }

  ghost predicate FromUsers(v: seq<Prog>) {
    forall i :: 0 <= i < |v| ==> v[i].id >= ID_USER_OFFSET
  }

  /** One more new program has been added to the lists of `q`. */
  lemma AddedMore(q: State, v: seq<Prog>, k: nat, apps: int -> App, init: nat, now: Times)
    requires init > 0 && k < |v|
    ensures
      var x := Added(Spawn(v[k].id, apps(v[k].id)), v[k].pd, init, now(v[k].id));
      q.all + AddedAll(v[..k], apps, init, now) + [x] == q.all + AddedAll(v[..k + 1], apps, init, now)
    ensures v[k..][0] == v[k] && Without(v[k..], 0) == v[k + 1..]
  {
    hide Added;
  }

  lemma AddedEnds(q: State, v: seq<Prog>, apps: int -> App, init: nat, now: Times)
    requires init > 0
    ensures q == q.(all := q.all + AddedAll(v[..0], apps, init, now), nr := q.nr + 0) && v[0..] == v && v[..|v|] == v
  {
    hide Added;
    assert q.all + [] == q.all;
  }

  lemma FirstNewAt(sched: Sched, pnew: Node, s: seq<Node>, v: seq<Prog>, k: nat)
    requires sched.Beside(pnew, s) && k <= |v| && View(s) == v[k..] && FromUsers(v)
    ensures |s| == |v| - k && pnew !in s && pnew.next == Pos(pnew, s, 0)
    ensures s != [] ==> k < |v| && s[0].id == v[k].id && s[0].pd == v[k].pd && s[0].id >= ID_USER_OFFSET
    ensures s != [] ==> s[0].next == Pos(pnew, Without(s, 0), 0) && s[0] in Cells(pnew, s)
  {
    hide IsRing, View;
    Shown(s);
    sched.BesideNext(pnew, s, 0);
    if s != [] {
      assert v[k..][0] == v[k];
      TailIs(s);
      PosTail(pnew, s);
    }
  }

  /** The second loop of `rebalance`: all new programs are handed to the scheduler, in order. */
  method AddAll(sched: Sched, pnew: Node, ghost new': seq<Node>, apps: int -> App, now: Times)
    requires sched.Beside(pnew, new') && sched.target_instr.Length > 0 && FromUsers(View(new'))
    modifies sched`all, sched`progs_nr, Cells(pnew, new')`pd
    modifies sched.Repr()`next, sched.Repr()`prev, Cells(pnew, new')`next, Cells(pnew, new')`prev
    ensures sched.Beside(pnew, [])
    ensures
      var q := old(Q(sched));
      Q(sched) == q.(all := q.all + AddedAll(old(View(new')), apps, sched.target_instr.Length, now),
                     nr := q.nr + |new'|)
  {
    hide *;
    ghost var q, v := Q(sched), View(new');
    ghost var left, k := new', 0;
    ghost var init := sched.target_instr.Length;
    AddedEnds(q, v, apps, init, now);
    QIs(sched);
    FirstNewAt(sched, pnew, left, v, 0);
    AtPos(pnew, left, 0);
    var prog := pnew.next;
    while prog != pnew
      invariant k <= |v| && |left| == |v| - k && pnew !in left && prog == Pos(pnew, left, 0)
      invariant sched.Beside(pnew, left) && View(left) == v[k..]
      invariant sched.Repr() + Cells(pnew, left) == old(sched.Repr() + Cells(pnew, new'))
      invariant Cells(pnew, left) <= Cells(pnew, new')
      invariant Q(sched) == q.(all := q.all + AddedAll(v[..k], apps, init, now), nr := q.nr + k)
      decreases |left|
    {
      AtPos(pnew, left, 0);
      FirstNewAt(sched, pnew, left, v, k);
      AddedMore(q, v, k, apps, init, now);
      CellsTail(pnew, left);
      QIs(sched);
      var tmp := prog.next;
      AddProg(sched, prog, apps(prog.id), pnew, left, now(prog.id));
      left := Without(left, 0);
      k := k + 1;
      prog := tmp;
      FirstNewAt(sched, pnew, left, v, k);
    }
    AtPos(pnew, left, 0);
  }

  lemma CellsTail(head: Node, s: seq<Node>)
    requires s != []
    ensures Cells(head, Without(s, 0)) <= Cells(head, s)
  {
  }

  /** The first loop, beside the ring of new programs. */
  method FinishBeside(sched: Sched, policy: Policy, pfinished: Node, ghost fin: seq<Node>, rs: int -> Reading,
                      now: Times,
                      ghost pnew: Node, ghost new': seq<Node>)
    returns (next: seq<Spawn>)
    requires Awaiting(sched, policy, pfinished, fin, rs) && sched.Beside(pnew, new')
    requires Cells(pfinished, fin) !! Cells(pnew, new')
    modifies Cells(pfinished, fin)`next, Cells(pfinished, fin)`prev, Cells(pfinished, fin)`pd
    modifies sched`progs_nr, sched.target_instr
    ensures sched.Beside(pnew, new') && View(new') == old(View(new')) && sched.Repr() == old(sched.Repr())
    ensures |old(Killed(fin))| == |old(View(fin))| && Slotted(old(View(fin)), |old(Q(sched)).target|)
    ensures
      var q := old(Q(sched));
      var b := SettledAll(policy, old(View(fin)), old(Killed(fin)), rs, now, Books(q.target, q.nr, []));
      Q(sched) == q.(target := b.target, nr := b.nr) && next == b.next
  {
    hide IsRing, View, Killed, Slotted, AllDivide, SettledAll, sched.A, sched.S;
    QIs(sched);
    ViewApart(pfinished, fin, pnew, new');
    next := FinishAll(sched, policy, pfinished, fin, rs, now);
    QIs(sched);
  }

  lemma ViewApart(head: Node, s: seq<Node>, head': Node, s': seq<Node>)
    requires Cells(head, s) !! Cells(head', s')
    ensures forall n :: n in s' ==> n !in Cells(head, s)
  {
    forall n | n in s'
      ensures n !in Cells(head, s)
    {
      assert n in Cells(head', s');
    }
  }

  /** `rebalance`: finished programs are accounted for, perhaps started again, and new programs are added. */
  method Rebalance(sched: Sched, policy: Policy, pfinished: Node, ghost fin: seq<Node>, pnew: Node,
                   ghost new': seq<Node>,
                   rs: int -> Reading, apps: int -> App, now: Times)
    returns (next: seq<Spawn>)
    requires Awaiting(sched, policy, pfinished, fin, rs) && sched.Beside(pnew, new')
    requires Cells(pfinished, fin) !! Cells(pnew, new')
    requires sched.target_instr.Length > 0 && FromUsers(View(new'))
    modifies sched`all, sched`progs_nr, sched.target_instr, sched.Repr()`next, sched.Repr()`prev
    modifies Cells(pfinished, fin)`next, Cells(pfinished, fin)`prev, Cells(pfinished, fin)`pd
    modifies Cells(pnew, new')`next, Cells(pnew, new')`prev, Cells(pnew, new')`pd
    ensures sched.Beside(pnew, [])
    ensures |old(Killed(fin))| == |old(View(fin))| && Slotted(old(View(fin)), |old(Q(sched)).target|)
    ensures
      var q := old(Q(sched));
      var b := SettledAll(policy, old(View(fin)), old(Killed(fin)), rs, now, Books(q.target, q.nr, []));
      && next == b.next
      && Q(sched) == q.(target := b.target, nr := b.nr + |new'|,
                        all := q.all + AddedAll(old(View(new')), apps, sched.target_instr.Length, now))
  {
    hide *;
    next := FinishBeside(sched, policy, pfinished, fin, rs, now, pnew, new');
    AddAll(sched, pnew, new', apps, now);
  }
}
