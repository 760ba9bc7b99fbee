/** The in-place quicksort of a ring, src/scheds/c_qsort.c. */
module QSort {
  import opened Programs
  import opened Rings
  import opened Seqs

  datatype SortType = ASC | DESC

  /** Key under which the ring is to be nondecreasing. */
  function Rank(qtype: SortType, n: Node): int
    requires n.entry
    reads n`pd
  {
    PivotRank(qtype, GetVal(n))
  }

  function PivotRank(qtype: SortType, pivot: int): int {
    if qtype == ASC then pivot else -pivot
  }

  ghost predicate Sorted(qtype: SortType, s: seq<Node>)
    requires Entries(s)
    reads (set n | n in s)`pd
  {
    forall i, j :: 0 <= i < j < |s| ==> Rank(qtype, s[i]) <= Rank(qtype, s[j])
  }

  /** The four relinkings of a swap, on the sequence of nodes. */
  lemma SwapSteps<T>(s: seq<T>, a: nat, b: nat)
    requires a < b < |s|
    ensures
      var t := Inserted(Without(s, a), b, s[a]);
      && t[b - 1] == s[b]
      && var u := Without(t, b - 1);
      && (forall m :: 0 <= m < a ==> u[m] == s[m])
      && Inserted(u, a, s[b]) == s[a := s[b]][b := s[a]]
  {
    var t := Inserted(Without(s, a), b, s[a]);
    assert t == s[..a] + s[a + 1..b + 1] + [s[a]] + s[b + 1..];
    var u := Without(t, b - 1);
    assert u == s[..a] + s[a + 1..b] + [s[a]] + s[b + 1..];
  }

  /** Each node is unlinked and linked in again behind another one: two moves. */
  method Swap(i: Node, j: Node, ghost head: Node, ghost s: seq<Node>, ghost a: nat, ghost b: nat)
    requires IsRing(head, s)
    requires a < b < |s| && s[a] == i && s[b] == j
    modifies Cells(head, s)`next, Cells(head, s)`prev
    ensures IsRing(head, s[a := j][b := i])
    ensures Cells(head, s[a := j][b := i]) == Cells(head, s)
  {
    assert i == Nth(head, s, a + 1) && i.prev == Nth(head, s, a);
    hide IsRing, NoDup;
    var prev := i.prev;
    SwapSteps(s, a, b);
    Move(i, j, head, s, a, b);
    Move(j, prev, head, Inserted(Without(s, a), b, i), b - 1, a);
  }

  /** The cursor i moves from cell a to a + 1: what it reads, and what its crossing test says of j at cell b. */
  lemma StepRight(list: Node, r: seq<Node>, a: nat, b: nat)
    requires IsRing(list, r) && a < |r| && 1 <= b <= |r| + 1
    ensures
      var (i, j) := (Nth(list, r, a + 1), Nth(list, r, b));
      && Nth(list, r, a).next == i == r[a]
      && ((i.prev == j || i == j) && j != list <==> b <= |r| && (b == a || b == a + 1))
  {
    assert Nth(list, r, a + 1).prev == Nth(list, r, a);
  }

  /** The cursor j moves from cell b to b - 1, and tests against i at cell a. */
  lemma StepLeft(list: Node, r: seq<Node>, a: nat, b: nat)
    requires IsRing(list, r) && 1 <= a <= |r| && 2 <= b <= |r| + 1
    ensures
      var (i, j) := (Nth(list, r, a), Nth(list, r, b - 1));
      && Nth(list, r, b).prev == j == r[b - 2]
      && ((j.next == i || i == j) && i != list <==> a == b || a == b - 1)
  {
    assert Nth(list, r, b - 1).next == Nth(list, r, b);
  }

  /** `v` holds the ranks of the nodes of `r`, cells 1..a are at most the pivot and cells b.. at least. */
  ghost predicate Split(v: seq<int>, p: int, a: int, b: int) {
    && (forall m :: 0 <= m < a && m < |v| ==> v[m] <= p)
    && (forall m :: 0 <= b - 1 <= m < |v| ==> p <= v[m])
  }

  ghost predicate Ranks(qtype: SortType, r: seq<Node>, v: seq<int>)
    reads (set n | n in r)`pd
  {
    && |v| == |r|
    && forall m :: 0 <= m < |r| ==> r[m].entry && v[m] == Rank(qtype, r[m])
  }

  ghost function Keys(qtype: SortType, r: seq<Node>): (v: seq<int>)
    requires Entries(r)
    reads (set n | n in r)`pd
    ensures Ranks(qtype, r, v)
  {
    if r == [] then [] else Keys(qtype, r[..|r| - 1]) + [Rank(qtype, r[|r| - 1])]
  }

  lemma SwapSplit(v: seq<int>, p: int, a0: nat, b0: nat, a: nat, b: nat)
    requires a0 < a < b < b0 <= |v| + 1
    requires Split(v, p, a0, b0)
    requires forall m :: a0 <= m < a - 1 ==> v[m] < p
    requires forall m :: b <= m < b0 - 1 && m < |v| ==> p < v[m]
    requires v[b - 1] <= p <= v[a - 1]
    ensures Split(v[a - 1 := v[b - 1]][b - 1 := v[a - 1]], p, a, b)
  {
  }

  lemma SwapRanks(qtype: SortType, r: seq<Node>, v: seq<int>, a: nat, b: nat)
    requires a < b < |r| && Ranks(qtype, r, v)
    ensures Ranks(qtype, r[a := r[b]][b := r[a]], v[a := v[b]][b := v[a]])
  {
  }

  /** The exchange of two nodes that stand on the wrong sides of the pivot. */
  method Exchange(i: Node, j: Node, list: Node, qtype: SortType, ghost r: seq<Node>, ghost v: seq<int>,
                  ghost p: int, ghost a0: nat, ghost b0: nat, ghost a: nat, ghost b: nat)
    returns (ghost r': seq<Node>, ghost v': seq<int>)
    requires IsRing(list, r) && Ranks(qtype, r, v) && |v| == |r|
    requires a0 < a < b < b0 <= |r| + 1 && r[a - 1] == i && r[b - 1] == j
    requires Split(v, p, a0, b0) && v[b - 1] <= p <= v[a - 1]
    requires forall m :: a0 <= m < a - 1 ==> v[m] < p
    requires forall m :: b <= m < b0 - 1 && m < |v| ==> p < v[m]
    modifies Cells(list, r)`next, Cells(list, r)`prev
    ensures |v'| == |v| && r' == r[a - 1 := j][b - 1 := i]
    ensures IsRing(list, r') && Cells(list, r') == Cells(list, r) && multiset(r') == multiset(r)
    ensures Ranks(qtype, r', v') && Split(v', p, a, b)
  {
    hide IsRing, NoDup, Ranks, Split;
    SwapPerm(r, a - 1, b - 1);
    SwapSplit(v, p, a0, b0, a, b);
    Swap(i, j, list, r, a - 1, b - 1);
    SwapRanks(qtype, r, v, a - 1, b - 1);
    r', v' := r[a - 1 := j][b - 1 := i], v[a - 1 := v[b - 1]][b - 1 := v[a - 1]];
  }

  /** Once the cursors have crossed, the node of j ends the part that is at most the pivot. */
  lemma Crossed(qtype: SortType, r: seq<Node>, v: seq<int>, p: int, a0: nat, b0: nat, a: nat, b: nat)
    requires Ranks(qtype, r, v) && Split(v, p, a0, b0)
    requires a0 <= b <= a <= |r| && 1 <= b < b0 <= |r| + 1
    requires forall m :: a0 <= m < a - 1 ==> v[m] < p
    requires forall m :: b <= m < b0 - 1 && m < |v| ==> p < v[m]
    requires v[b - 1] <= p
    ensures Entries(r)
    ensures forall m :: 0 <= m < b ==> Rank(qtype, r[m]) <= p
    ensures forall m :: b <= m < |r| ==> p <= Rank(qtype, r[m])
  {
  }

  /** The first do-while loop: i walks right over ranks below the pivot, and is told if it meets j. */
  method ScanRight(list: Node, i0: Node, j: Node, qtype: SortType, pivot: int,
                   ghost r: seq<Node>, ghost v: seq<int>, ghost a0: nat, ghost b: nat)
    returns (i: Node, flag: bool, ghost a: nat)
    requires IsRing(list, r) && Ranks(qtype, r, v)
    requires a0 < |r| && a0 < b <= |r| + 1
    requires i0 == Nth(list, r, a0) && j == Nth(list, r, b)
    requires Split(v, PivotRank(qtype, pivot), a0, b)
    requires b == |r| + 1 ==> a0 == 0 && v[0] == PivotRank(qtype, pivot)
    ensures a0 < a <= b && a <= |r| && i == r[a - 1]
    ensures b == |r| + 1 ==> a == 1
    ensures forall m :: a0 <= m < a - 1 ==> v[m] < PivotRank(qtype, pivot)
    ensures PivotRank(qtype, pivot) <= v[a - 1]
    ensures flag <==> a == b
  {
    hide IsRing, NoDup;
    i, flag, a := i0, false, a0;
    while true
      invariant IsRing(list, r)
      invariant a0 <= a < b && (b == |r| + 1 ==> a == 0)
      invariant i == Nth(list, r, a)
      invariant forall m :: a0 <= m < a ==> v[m] < PivotRank(qtype, pivot)
      invariant !flag
      decreases b - a
    {
      StepRight(list, r, a, b);
      i := i.next;
      a := a + 1;
      if (i.prev == j || i == j) && j != list { flag := true; }
      if !((qtype == DESC && GetVal(i) > pivot) || (qtype == ASC && GetVal(i) < pivot)) { break; }
    }
  }

  /** The second do-while loop: j walks left over ranks above the pivot, and is told if it reaches or passes i. */
  method ScanLeft(list: Node, i: Node, j0: Node, qtype: SortType, pivot: int, flag0: bool,
                  ghost r: seq<Node>, ghost v: seq<int>, ghost a0: nat, ghost a: nat, ghost b0: nat)
    returns (j: Node, flag: bool, ghost b: nat)
    requires IsRing(list, r) && Ranks(qtype, r, v)
    requires a0 < b0 <= |r| + 1 && 1 <= a <= |r|
    requires i == r[a - 1] && j0 == Nth(list, r, b0)
    requires Split(v, PivotRank(qtype, pivot), a0, b0)
    requires a0 == 0 ==> b0 == |r| + 1 && v[0] == PivotRank(qtype, pivot)
    requires flag0 <==> b0 <= a
    ensures 1 <= b < b0 && a0 <= b && j == r[b - 1]
    ensures forall m :: b <= m < b0 - 1 ==> PivotRank(qtype, pivot) < v[m]
    ensures v[b - 1] <= PivotRank(qtype, pivot)
    ensures flag <==> b <= a
  {
    hide IsRing, NoDup;
    j, flag, b := j0, flag0, b0;
    ghost var low := if a0 == 0 then 1 else a0;
    while true
      invariant IsRing(list, r)
      invariant low < b <= b0
      invariant j == Nth(list, r, b)
      invariant forall m :: b - 1 <= m < b0 - 1 ==> PivotRank(qtype, pivot) < v[m]
      invariant flag <==> b <= a
      decreases b
    {
      StepLeft(list, r, a, b);
      j := j.prev;
      b := b - 1;
      if (j.next == i || i == j) && i != list { flag := true; }
      if !((qtype == DESC && GetVal(j) < pivot) || (qtype == ASC && GetVal(j) > pivot)) { break; }
    }
  }

  lemma FirstRank(qtype: SortType, s: seq<Node>)
    requires Entries(s) && |s| >= 1
    ensures |Keys(qtype, s)| == |s| && Keys(qtype, s)[0] == Rank(qtype, s[0])
    ensures Split(Keys(qtype, s), Rank(qtype, s[0]), 0, |s| + 1)
  {
  }

  method Partition(list: Node, qtype: SortType, ghost s: seq<Node>)
    returns (q: Node, ghost r: seq<Node>, ghost k: nat)
    requires IsRing(list, s) && Entries(s) && |s| >= 2
    modifies Cells(list, s)`next, Cells(list, s)`prev
    ensures IsRing(list, r) && Cells(list, r) == Cells(list, s) && multiset(r) == multiset(s) && Entries(r)
    ensures |r| == |s| && k < |r| - 1 && r[k] == q
    ensures forall m :: 0 <= m <= k ==> Rank(qtype, r[m]) <= Rank(qtype, s[0])
    ensures forall m :: k < m < |r| ==> Rank(qtype, s[0]) <= Rank(qtype, r[m])
  {
    hide IsRing, NoDup, Ranks, Split, Keys;
    StepRight(list, s, 0, 1);
    var pivot := GetVal(list.next);
    var i, j := list, list;
    r := s;
    ghost var a, b := 0, |s| + 1;     // cells of i and j; 0 and |s| + 1 are both the head
    ghost var p := Rank(qtype, s[0]);
    ghost var v := Keys(qtype, s);
    FirstRank(qtype, s);
    while true
      invariant IsRing(list, r) && Cells(list, r) == Cells(list, s) && multiset(r) == multiset(s)
      invariant |v| == |r| == |s| && Ranks(qtype, r, v)
      invariant 0 <= a < b <= |s| + 1
      invariant i == Nth(list, r, a) && j == Nth(list, r, b)
      invariant a == 0 <==> b == |s| + 1
      invariant a == 0 ==> v[0] == p
      invariant Split(v, p, a, b)
      decreases b - a
    {
      ghost var a0, b0 := a, b;
      var flag;
      i, flag, a := ScanRight(list, i, j, qtype, pivot, r, v, a0, b0);
      j, flag, b := ScanLeft(list, i, j, qtype, pivot, flag, r, v, a0, a, b0);
      if flag {
        Crossed(qtype, r, v, p, a0, b0, a, b);
        return j, r, b - 1;
      }
      r, v := Exchange(i, j, list, qtype, r, v, p, a0, b0, a, b);
      i, j := j, i;
    }
  }

  /** Cuts the ring of `list` behind its k-th node and gives each part its own temporary head. */
  method Cut(list: Node, q: Node, head: Node, tail: Node, ghost p: seq<Node>, ghost k: nat)
    requires IsRing(list, p) && k < |p| - 1 && p[k] == q
    requires head !in Cells(list, p) && tail !in Cells(list, p) && head != tail
    modifies Cells(list, p)`next, Cells(list, p)`prev, head`next, head`prev, tail`next, tail`prev
    ensures IsRing(head, p[..k + 1]) && IsRing(tail, p[k + 1..])
    ensures list.next == old(list.next) && list.prev == old(list.prev)
  {
    StepRight(list, p, 0, 1);
    StepRight(list, p, k + 1, 1);
    StepLeft(list, p, 1, |p| + 1);
    head.next := list.next;
    head.prev := q;
    tail.next := q.next;
    tail.prev := list.prev;
    head.next.prev := head;
    head.prev.next := head;
    tail.next.prev := tail;
    tail.prev.next := tail;
    ghost var lo, hi := p[..k + 1], p[k + 1..];
    forall i | 0 <= i <= |lo|
      ensures Nth(head, lo, i).next == Nth(head, lo, i + 1) && Nth(head, lo, i + 1).prev == Nth(head, lo, i)
    {
      assert 1 <= i ==> Nth(head, lo, i) == Nth(list, p, i);
      assert i < |lo| ==> Nth(head, lo, i + 1) == Nth(list, p, i + 1);
    }
    forall i | 0 <= i <= |hi|
      ensures Nth(tail, hi, i).next == Nth(tail, hi, i + 1) && Nth(tail, hi, i + 1).prev == Nth(tail, hi, i)
    {
      assert 1 <= i ==> Nth(tail, hi, i) == Nth(list, p, i + k + 1);
      assert i < |hi| ==> Nth(tail, hi, i + 1) == Nth(list, p, i + k + 2);
    }
  }

  /** Joins the two parts under `list` again; the temporary heads drop out. */
  method Join(list: Node, head: Node, tail: Node, ghost lo: seq<Node>, ghost hi: seq<Node>)
    requires IsRing(head, lo) && IsRing(tail, hi) && lo != [] && hi != []
    requires list !in Cells(head, lo) + Cells(tail, hi) && Cells(head, lo) !! Cells(tail, hi)
    modifies Cells(head, lo)`next, Cells(head, lo)`prev, Cells(tail, hi)`next, Cells(tail, hi)`prev
    modifies list`next, list`prev
    ensures IsRing(list, lo + hi)
  {
    StepRight(head, lo, 0, 1);
    StepLeft(head, lo, 1, |lo| + 1);
    StepRight(tail, hi, 0, 1);
    StepLeft(tail, hi, 1, |hi| + 1);
    list.next := head.next;
    head.next.prev := list;
    tail.next.prev := head.prev;
    head.prev.next := tail.next;
    list.prev := tail.prev;
    tail.prev.next := list;
    ghost var r := lo + hi;
    forall m, n | 0 <= m < |lo| && 0 <= n < |hi|
      ensures lo[m] != hi[n]
    {
      assert lo[m] in Cells(head, lo) && hi[n] in Cells(tail, hi);
    }
    forall i | 0 <= i <= |r|
      ensures Nth(list, r, i).next == Nth(list, r, i + 1) && Nth(list, r, i + 1).prev == Nth(list, r, i)
    {
      if i < |lo| {
        assert Nth(list, r, i + 1) == Nth(head, lo, i + 1);
        assert 1 <= i ==> Nth(list, r, i) == Nth(head, lo, i);
      } else if i == |lo| {
        assert Nth(list, r, i) == Nth(head, lo, i) && Nth(list, r, i + 1) == Nth(tail, hi, 1);
      } else {
        assert Nth(list, r, i) == Nth(tail, hi, i - |lo|);
        assert i < |r| ==> Nth(list, r, i + 1) == Nth(tail, hi, i + 1 - |lo|);
      }
    }
  }

  lemma Singleton(list: Node, s: seq<Node>)
    requires IsRing(list, s)
    ensures list.next.next == list <==> |s| <= 1
  {
    assert Nth(list, s, 0).next == Nth(list, s, 1);
    if |s| >= 1 {
      assert Nth(list, s, 1).next == Nth(list, s, 2);
    }
  }

  ghost predicate AtMost(qtype: SortType, s: seq<Node>, p: int)
    reads (set n | n in s)`pd
  {
    Entries(s) && forall m :: 0 <= m < |s| ==> Rank(qtype, s[m]) <= p
  }

  ghost predicate AtLeast(qtype: SortType, s: seq<Node>, p: int)
    reads (set n | n in s)`pd
  {
    Entries(s) && forall m :: 0 <= m < |s| ==> p <= Rank(qtype, s[m])
  }

  lemma Permuted(list: Node, qtype: SortType, s: seq<Node>, r: seq<Node>, p: int)
    requires multiset(s) == multiset(r)
    ensures Cells(list, r) == Cells(list, s)
    ensures Entries(s) ==> Entries(r)
    ensures AtMost(qtype, s, p) ==> AtMost(qtype, r, p)
    ensures AtLeast(qtype, s, p) ==> AtLeast(qtype, r, p)
  {
    forall n
      ensures n in s <==> n in r
    {
      assert n in s <==> n in multiset(s);
      assert n in r <==> n in multiset(r);
    }
    forall m | 0 <= m < |r|
      ensures exists i :: 0 <= i < |s| && s[i] == r[m]
    {
      assert r[m] in r;
      assert r[m] in s;
    }
  }

  lemma SortedJoin(qtype: SortType, p: int, lo: seq<Node>, hi: seq<Node>)
    requires Entries(lo) && Entries(hi) && Sorted(qtype, lo) && Sorted(qtype, hi)
    requires AtMost(qtype, lo, p) && AtLeast(qtype, hi, p)
    ensures Entries(lo + hi) && Sorted(qtype, lo + hi)
  {
  }

  lemma Parted(qtype: SortType, p: seq<Node>, k: nat, pivot: int)
    requires Entries(p) && k < |p|
    requires forall m :: 0 <= m <= k ==> Rank(qtype, p[m]) <= pivot
    requires forall m :: k < m < |p| ==> pivot <= Rank(qtype, p[m])
    ensures AtMost(qtype, p[..k + 1], pivot) && AtLeast(qtype, p[k + 1..], pivot)
  {
  }

  lemma PartCells(list: Node, head: Node, tail: Node, p: seq<Node>, k: nat)
    requires k <= |p| && IsRing(list, p) && head !in Cells(list, p) && tail !in Cells(list, p)
    requires head != tail
    ensures Cells(head, p[..k]) !! Cells(tail, p[k..])
    ensures list !in Cells(head, p[..k]) + Cells(tail, p[k..])
    ensures Cells(head, p[..k]) + Cells(tail, p[k..]) == Cells(list, p) - {list} + {head, tail}
    ensures multiset(p[..k]) + multiset(p[k..]) == multiset(p)
  {
    assert p == p[..k] + p[k..];
    forall n | n in p[..k]
      ensures n !in p[k..]
    {
      var m :| 0 <= m < k && p[..k][m] == n;
    }
  }

  lemma SortedParts(list: Node, qtype: SortType, s: seq<Node>, lo0: seq<Node>, hi0: seq<Node>,
                    lo: seq<Node>, hi: seq<Node>, pivot: int)
    requires multiset(s) == multiset(lo0) + multiset(hi0)
    requires multiset(lo) == multiset(lo0) && multiset(hi) == multiset(hi0)
    requires Entries(lo) && Entries(hi) && Sorted(qtype, lo) && Sorted(qtype, hi)
    requires AtMost(qtype, lo0, pivot) && AtLeast(qtype, hi0, pivot)
    ensures multiset(lo + hi) == multiset(s) && Cells(list, lo + hi) == Cells(list, s)
    ensures Entries(lo + hi) && Sorted(qtype, lo + hi)
    ensures lo != [] <==> lo0 != []
    ensures hi != [] <==> hi0 != []
  {
    hide AtMost, AtLeast, Sorted;
    Permuted(list, qtype, lo0, lo, pivot);
    Permuted(list, qtype, hi0, hi, pivot);
    SortedJoin(qtype, pivot, lo, hi);
    Permuted(list, qtype, s, lo + hi, pivot);
    assert |multiset(lo)| == |lo| && |multiset(hi)| == |hi|;
  }

  /** The two recursive calls, and the parts joined under `list`. */
  method SortParts(list: Node, head: Node, tail: Node, qtype: SortType,
                   ghost lo0: seq<Node>, ghost hi0: seq<Node>, ghost pivot: int)
    returns (ghost r: seq<Node>)
    requires IsRing(head, lo0) && IsRing(tail, hi0) && lo0 != [] && hi0 != []
    requires list !in Cells(head, lo0) + Cells(tail, hi0) && Cells(head, lo0) !! Cells(tail, hi0)
    requires AtMost(qtype, lo0, pivot) && AtLeast(qtype, hi0, pivot)
    modifies Cells(head, lo0)`next, Cells(head, lo0)`prev, Cells(tail, hi0)`next, Cells(tail, hi0)`prev
    modifies list`next, list`prev
    ensures IsRing(list, r) && multiset(r) == multiset(lo0) + multiset(hi0)
    ensures Entries(r) && Sorted(qtype, r)
    decreases |lo0| + |hi0|, 0
  {
    hide IsRing, NoDup, Sorted;
    ghost var lo := Quicksort(head, qtype, lo0);
    ghost var hi := Quicksort(tail, qtype, hi0);
    SortedParts(list, qtype, lo0 + hi0, lo0, hi0, lo, hi, pivot);
    Join(list, head, tail, lo, hi);
    r := lo + hi;
  }

  method Quicksort(list: Node, qtype: SortType, ghost s: seq<Node>) returns (ghost r: seq<Node>)
    requires IsRing(list, s) && Entries(s)
    modifies Cells(list, s)`next, Cells(list, s)`prev
    ensures IsRing(list, r) && multiset(r) == multiset(s) && Cells(list, r) == Cells(list, s)
    ensures Entries(r) && Sorted(qtype, r)
    decreases |s|, 1
  {
    Singleton(list, s);
    if list.next.next == list {
      return s;
    }
    hide IsRing, NoDup, AtMost, AtLeast, Sorted;
    var head := new Node.Head();
    var tail := new Node.Head();
    var q;
    ghost var p, k;
    q, p, k := Partition(list, qtype, s);
    ghost var pivot := Rank(qtype, s[0]);
    PartCells(list, head, tail, p, k + 1);
    Cut(list, q, head, tail, p, k);
    Parted(qtype, p, k, pivot);
    r := SortParts(list, head, tail, qtype, p[..k + 1], p[k + 1..], pivot);
    Permuted(list, qtype, s, r, pivot);
  }
}
