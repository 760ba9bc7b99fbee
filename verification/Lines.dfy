/** The order of the programs that wait under `perf`: since when they wait, and who may still run before them. */
module Lines {
  import opened Machine
  import opened Programs
  import opened Seqs

  /**
   * The bounds of a run: no quantum takes longer than `d`, the readings of one loop differ by at most
   * `s`, and at most `n` programs are listed.
   */
  datatype Bounds = Bounds(d: nat, s: nat, n: nat)

  /**
   * A waiting program: when it began to wait, and how many programs of the list, itself included, may run before
   * others.
   */
  datatype Place = Place(since: int, reach: nat)

  ghost predicate Since(x: Prog, t: int) {
    x.pd.run_status == RS_STOPED && x.pd.tm_wstart == AsU32(t)
  }

  /**
   * The programs of `all` are listed in the order in which they began to wait, all at `c` or before. Beyond its
   * reach a program sees only programs that began later by the spread; the shorter its reach, the longer it may have
   * waited by `b`, the end of the last quantum.
   */
  ghost predicate Lined(all: seq<Prog>, line: seq<Place>, c: int, b: int, z: Bounds) {
    && |line| == |all|
    && (forall i :: 0 <= i < |all| ==> Since(all[i], line[i].since) && line[i].since <= c)
    && (forall i :: 0 <= i < |all| ==> Reaches(line, i, b, z))
    && (forall i, j :: 0 <= i <= j < |all| ==> line[i].since <= line[j].since)
    && (forall i, j :: 0 <= i < |all| && line[i].reach <= j < |all| ==> line[i].since + z.s <= line[j].since)
  }

  ghost predicate Reaches(line: seq<Place>, i: nat, b: int, z: Bounds)
    requires i < |line|
  {
    && i < line[i].reach <= |line|
    && b - (z.n + 1 - line[i].reach) * z.d <= line[i].since
    && (z.s == 0 ==> line[i].reach == i + 1)
  }

  // ---------- a program leaves the list ----------

  /** The places without the k-th: the reach of the programs that had it in reach is one less. */
  function Cut(line: seq<Place>, k: nat): (r: seq<Place>)
    requires k < |line|
    ensures |r| == |line| - 1
    ensures forall h :: 0 <= h < |r| ==> r[h] == Shorter(line[Old(k, h)], k)
  {
    seq(|line| - 1, h requires 0 <= h < |line| - 1 => Shorter(line[Old(k, h)], k))
  }

  function Shorter(p: Place, k: nat): Place {
    if k < p.reach then p.(reach := p.reach - 1) else p
  }

  /** The old index of what is at `h` now that the k-th element is gone, and the other way round. */
  function Old(k: nat, h: nat): nat {
    if h < k then h else h + 1
  }

  function New(k: nat, i: nat): int {
    if i < k then i else i - 1
  }

  lemma CutReaches(line: seq<Place>, k: nat, i: nat, b: int, z: Bounds)
    requires k < |line| && i < |line| && i != k && Reaches(line, i, b, z)
    ensures 0 <= New(k, i) < |Cut(line, k)| && Old(k, New(k, i)) == i
    ensures Reaches(Cut(line, k), New(k, i), b, z)
    ensures k < line[i].reach ==> Reaches(Cut(line, k), New(k, i), b + z.d, z)
  {
    var r := line[i].reach;
    assert (z.n + 1 - (r - 1)) * z.d == (z.n + 1 - r) * z.d + z.d;
  }

  lemma CutAt(all: seq<Prog>, line: seq<Place>, k: nat, h: nat, b: int, z: Bounds)
    requires |line| == |all| && k < |all| && h < |all| - 1 && Reaches(line, Old(k, h), b, z)
    ensures Old(k, h) != k && Old(k, h) < |all| && Reaches(Cut(line, k), h, b, z)
    ensures Without(all, k)[h] == all[Old(k, h)] && Cut(line, k)[h].since == line[Old(k, h)].since
    ensures k < line[Old(k, h)].reach ==> Reaches(Cut(line, k), h, b + z.d, z)
    ensures forall j :: Cut(line, k)[h].reach <= j ==> line[Old(k, h)].reach <= Old(k, j)
  {
    CutReaches(line, k, Old(k, h), b, z);
  }

  lemma CutLined(all: seq<Prog>, line: seq<Place>, k: nat, c: int, b: int, z: Bounds)
    requires Lined(all, line, c, b, z) && k < |all|
    ensures Lined(Without(all, k), Cut(line, k), c, b, z)
  {
    hide Reaches, Since, Cut, Without;
    var a, r := Without(all, k), Cut(line, k);
    assert |a| == |all| - 1 by { WithoutSize(all, k); }
    forall h | 0 <= h < |r|
      ensures Reaches(r, h, b, z) && Since(a[h], r[h].since) && r[h].since <= c
    {
      CutAt(all, line, k, h, b, z);
    }
    forall h, j | 0 <= h <= j < |r|
      ensures r[h].since <= r[j].since
      ensures r[h].reach <= j ==> r[h].since + z.s <= r[j].since
    {
      CutAt(all, line, k, h, b, z);
      CutAt(all, line, k, j, b, z);
    }
  }

  lemma WithoutSize<T>(s: seq<T>, k: nat)
    requires k < |s|
    ensures |Without(s, k)| == |s| - 1
  {
  }

  /** All programs had the one in reach that leaves: then the list has moved on by the length of a quantum. */
  lemma ChosenLined(all: seq<Prog>, line: seq<Place>, k: nat, c: int, b: int, z: Bounds)
    requires Lined(all, line, c, b, z) && k < |all|
    requires forall i :: 0 <= i < |all| && i != k ==> k < line[i].reach
    ensures Lined(Without(all, k), Cut(line, k), c, b + z.d, z)
  {
    hide Reaches, Since, Cut, Without;
    CutLined(all, line, k, c, b, z);
    WithoutSize(all, k);
    var r, b' := Cut(line, k), b + z.d;
    forall h | 0 <= h < |r|
      ensures Reaches(r, h, b', z)
    {
      CutAt(all, line, k, h, b, z);
    }
  }

  /** The list has not moved on by more than it claims, and the clock has not gone back. */
  lemma Later(all: seq<Prog>, line: seq<Place>, c: int, b: int, c': int, b': int, z: Bounds)
    requires Lined(all, line, c, b, z) && c <= c' && b' <= b
    ensures Lined(all, line, c', b', z)
  {
    hide Since, Reaches;
    forall i | 0 <= i < |line|
      ensures Reaches(line, i, b', z)
    {
      ReachesLater(line, i, b, b', z);
    }
  }

  lemma ReachesLater(line: seq<Place>, i: nat, b: int, b': int, z: Bounds)
    requires i < |line| && Reaches(line, i, b, z) && b' <= b
    ensures Reaches(line, i, b', z)
  {
  }

  // ---------- programs are appended ----------

  /** The places of a list of `m` programs when the programs that come last began to wait at `low` or later. */
  function Joined(line: seq<Place>, news: seq<int>, low: int, s: nat): (r: seq<Place>)
    ensures |r| == |line| + |news|
    ensures forall i :: 0 <= i < |line| ==> r[i] == Further(line[i], |r|, low, s)
    ensures forall i :: 0 <= i < |news| ==> r[|line| + i] == Place(news[i], if s == 0 then |line| + i + 1 else |r|)
  {
    var m := |line| + |news|;
    seq(|line|, i requires 0 <= i < |line| => Further(line[i], m, low, s))
    + seq(|news|, i requires 0 <= i < |news| => Place(news[i], if s == 0 then |line| + i + 1 else m))
  }

  function Further(p: Place, m: nat, low: int, s: nat): Place {
    if p.since + s <= low then p else p.(reach := m)
  }

  ghost predicate News(kept: seq<Prog>, news: seq<int>, low: int, c: int) {
    && |news| == |kept|
    && (forall i :: 0 <= i < |kept| ==> Since(kept[i], news[i]) && low <= news[i] <= c)
    && (forall i, j :: 0 <= i <= j < |kept| ==> news[i] <= news[j])
  }

  lemma JoinReaches(line: seq<Place>, news: seq<int>, i: nat, low: int, c: int, b: int, z: Bounds)
    requires i < |line| && Reaches(line, i, b, z) && line[i].since <= c <= low
    requires b <= low && z.s <= z.d && |line| + |news| <= z.n
    ensures Reaches(Joined(line, news, low, z.s), i, b, z)
  {
    var m := |line| + |news|;
    Once(z.n + 1 - m, z.d);
  }

  lemma NewReaches(line: seq<Place>, news: seq<int>, i: nat, low: int, b: int, z: Bounds)
    requires i < |news| && low <= news[i] && b <= low && |line| + |news| <= z.n
    ensures Reaches(Joined(line, news, low, z.s), |line| + i, b, z)
  {
    var r := Joined(line, news, low, z.s)[|line| + i].reach;
    Once(z.n + 1 - r, z.d);
  }

  lemma Once(k: int, d: nat)
    requires k >= 1
    ensures k * d >= d
  {
    assert k * d == (k - 1) * d + d;
    Never(k - 1, d);
  }

  lemma Never(k: nat, d: nat)
    ensures k * d >= 0
  {
  }

  lemma JoinLined(all: seq<Prog>, line: seq<Place>, kept: seq<Prog>, news: seq<int>, low: int, c: int, c': int, b: int,
                  z: Bounds)
    requires Lined(all, line, c, b, z) && News(kept, news, low, c') && c <= low <= c'
    requires b <= low && z.s <= z.d && |all| + |kept| <= z.n
    ensures Lined(all + kept, Joined(line, news, low, z.s), c', b, z)
  {
    hide Reaches, Since;
    var r := Joined(line, news, low, z.s);
    forall i | 0 <= i < |r|
      ensures Reaches(r, i, b, z) && Since((all + kept)[i], r[i].since) && r[i].since <= c'
    {
      if i < |line| {
        JoinReaches(line, news, i, low, c, b, z);
      } else {
        NewReaches(line, news, i - |line|, low, b, z);
      }
    }
    JoinSpread(all, line, kept, news, low, c, c', b, z);
  }

  lemma JoinedAt(line: seq<Place>, news: seq<int>, low: int, s: nat, i: nat)
    requires i < |line| + |news|
    ensures
      var p := Joined(line, news, low, s)[i];
      && p.since == (if i < |line| then line[i].since else news[i - |line|])
      && (p.reach < |line| + |news| ==>
            if i < |line| then p.reach == line[i].reach && p.since + s <= low else s == 0 && p.reach == i + 1)
  {
    if i >= |line| {
      var k := i - |line|;
      assert Joined(line, news, low, s)[|line| + k].since == news[k];
    }
  }

  lemma JoinPair(all: seq<Prog>, line: seq<Place>, kept: seq<Prog>, news: seq<int>, low: int, c: int, c': int,
                 b: int, z: Bounds, i: nat, j: nat)
    requires Lined(all, line, c, b, z) && News(kept, news, low, c') && c <= low && i <= j < |line| + |news|
    ensures
      var r := Joined(line, news, low, z.s);
      r[i].since <= r[j].since && (r[i].reach <= j ==> r[i].since + z.s <= r[j].since)
  {
    hide Since, Reaches, Joined;
    JoinedAt(line, news, low, z.s, i);
    JoinedAt(line, news, low, z.s, j);
  }

  lemma JoinSpread(all: seq<Prog>, line: seq<Place>, kept: seq<Prog>, news: seq<int>, low: int, c: int, c': int,
                   b: int, z: Bounds)
    requires Lined(all, line, c, b, z) && News(kept, news, low, c') && c <= low
    requires forall i :: 0 <= i < |line| + |news| ==> Reaches(Joined(line, news, low, z.s), i, b, z)
    ensures
      var r := Joined(line, news, low, z.s);
      && (forall i, j :: 0 <= i <= j < |r| ==> r[i].since <= r[j].since)
      && (forall i, j :: 0 <= i < |r| && r[i].reach <= j < |r| ==> r[i].since + z.s <= r[j].since)
  {
    hide Since, Lined, News, Joined;
    var r := Joined(line, news, low, z.s);
    forall i, j | 0 <= i < |r| && 0 <= j < |r|
      ensures i <= j ==> r[i].since <= r[j].since
      ensures r[i].reach <= j ==> r[i].since + z.s <= r[j].since
    {
      assert Reaches(r, i, b, z);
      if i <= j {
        JoinPair(all, line, kept, news, low, c, c', b, z, i, j);
      }
    }
  }
}
