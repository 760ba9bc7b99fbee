/** Sequences and multisets: what removing, inserting and exchanging elements keeps. */
module Seqs {

  function Without<T>(s: seq<T>, k: nat): seq<T>
    requires k < |s|
  {
    s[..k] + s[k + 1..]
  }

  function Inserted<T>(s: seq<T>, k: nat, x: T): seq<T>
    requires k <= |s|
  {
    s[..k] + [x] + s[k..]
  }

  lemma TakeFrom<T>(s: seq<T>, k: nat)
    requires k < |s|
    ensures multiset(s) == multiset(Without(s, k)) + multiset{s[k]}
  {
    assert s == s[..k] + [s[k]] + s[k + 1..];
  }

  lemma TakeHead<T>(s: seq<T>, t: seq<T>)
    requires s != []
    ensures multiset(t + [s[0]]) + multiset(s[1..]) == multiset(t) + multiset(s)
  {
    assert s == [s[0]] + s[1..];
  }

  lemma Regroup<T>(a: multiset<T>, b: multiset<T>, c: multiset<T>, b': multiset<T>, c': multiset<T>)
    requires b + c == b' + c'
    ensures a + b + c == a + b' + c' == b' + a + c'
    ensures b + a + c == a + b + c
  {
    assert a + b + c == a + (b + c) && a + b' + c' == a + (b' + c');
  }

  lemma Append<T>(s: seq<T>, x: T)
    ensures multiset(s + [x]) == multiset(s) + multiset{x}
  {
  }

  lemma Across<T>(a: multiset<T>, b: multiset<T>, x: multiset<T>, c: multiset<T>)
    ensures a + (b + x) + c == a + b + (x + c)
    ensures (a + x) + b + c == a + b + (x + c)
  {
  }

  lemma Cancel<T>(a: multiset<T>, b: multiset<T>, x: multiset<T>)
    requires a + x == b + x
    ensures a == b
  {
    assert a == (a + x) - x && b == (b + x) - x;
  }

  lemma SwapPerm<T>(s: seq<T>, i: nat, j: nat)
    requires i < |s| && j < |s|
    ensures multiset(s[i := s[j]][j := s[i]]) == multiset(s)
  {
  }

  /** A list that is visited from the front: `kept` is behind the visitor, `todo` before it. */
  lemma Middle<T>(kept: seq<T>, todo: seq<T>)
    requires todo != []
    ensures (kept + todo)[|kept|] == todo[0]
    ensures Without(kept + todo, |kept|) == kept + todo[1..]
    ensures (kept + [todo[0]]) + todo[1..] == kept + todo
  {
  }
}
