/** What the loops of src/heap.c compute on the sequence of slots, and the order they keep. */
module HeapOrder {
  import opened Seqs

  ghost predicate TotalPreorder<E(!new)>(leq: (E, E) -> bool) {
    && (forall a, b :: leq(a, b) || leq(b, a))
    && (forall a, b, c :: leq(a, b) && leq(b, c) ==> leq(a, c))
  }

  function Up(pos: nat): (p: nat)
    requires pos > 0
    ensures p < pos
  {
    (pos - 1) / 2
  }

  // ---------- what the loops compute ----------

  /** `siftdown`: the hole at `pos` climbs until `e` fits below its parent. */
  function Lift<E>(leq: (E, E) -> bool, h: seq<E>, pos: nat, e: E): (r: seq<E>)
    requires pos < |h|
    ensures |r| == |h|
    decreases pos
  {
    if pos > 0 && !leq(h[Up(pos)], e) then Lift(leq, h[pos := h[Up(pos)]], Up(pos), e)
    else h[pos := e]
  }

  /** The child that the hole at `pos` swaps with. */
  function Child<E>(leq: (E, E) -> bool, h: seq<E>, pos: nat, size: nat): (c: nat)
    requires 2 * pos + 1 < size <= |h|
    ensures pos < c < size && Up(c) == pos
  {
    if 2 * pos + 2 < size && leq(h[2 * pos + 2], h[2 * pos + 1]) then 2 * pos + 2 else 2 * pos + 1
  }

  /** The first loop of `__heap_pop`: the hole at `pos` sinks to a leaf. */
  function Sink<E>(leq: (E, E) -> bool, h: seq<E>, pos: nat, size: nat): (r: (seq<E>, nat))
    requires pos <= size <= |h|
    ensures |r.0| == |h| && pos <= r.1 <= size && (pos < size ==> r.1 < size)
    decreases size - pos
  {
    if 2 * pos + 1 < size then
      var c := Child(leq, h, pos, size);
      Sink(leq, h[pos := h[c]], c, size)
    else (h, pos)
  }

  lemma SinkStep<E>(leq: (E, E) -> bool, h: seq<E>, pos: nat, size: nat)
    requires pos <= size <= |h|
    ensures Sink(leq, h, pos, size) ==
            if 2 * pos + 1 < size then Sink(leq, h[pos := h[Child(leq, h, pos, size)]], Child(leq, h, pos, size), size)
            else (h, pos)
  {
  }

  function PopAt<E>(leq: (E, E) -> bool, h: seq<E>, pos: nat): (r: seq<E>)
    requires pos < |h|
  {
    var size := |h| - 1;
    var (g, leaf) := Sink(leq, h, pos, size);
    Lift(leq, g, leaf, h[size])[..size]
  }

  function Push<E>(leq: (E, E) -> bool, h: seq<E>, e: E): (r: seq<E>)
  {
    Lift(leq, h + [e], |h|, e)
  }

  /** The old value of the slot being filled plays no part. */
  lemma {:induction false} LiftIgnoresSlot<E>(leq: (E, E) -> bool, h: seq<E>, pos: nat, x: E, e: E)
    requires pos < |h|
    ensures Lift(leq, h[pos := x], pos, e) == Lift(leq, h, pos, e)
  {
    if pos > 0 {
      assert h[pos := x][pos := h[Up(pos)]] == h[pos := h[Up(pos)]];
    }
    assert h[pos := x][pos := e] == h[pos := e];
  }

  // ---------- multisets ----------

  lemma {:induction false} LiftPerm<E>(leq: (E, E) -> bool, h: seq<E>, pos: nat, e: E)
    requires pos < |h|
    ensures multiset(Lift(leq, h, pos, e)) == multiset(h[pos := e])
    decreases pos
  {
    if pos > 0 && !leq(h[Up(pos)], e) {
      LiftPerm(leq, h[pos := h[Up(pos)]], Up(pos), e);
      SwapPerm(h[pos := e], pos, Up(pos));
      assert h[pos := e][pos := h[Up(pos)]][Up(pos) := e] == h[pos := h[Up(pos)]][Up(pos) := e];
    }
  }

  /** Sinking moves the hole without losing anything: with any `e` in the hole the elements are the same. */
  lemma {:induction false} SinkPerm<E>(leq: (E, E) -> bool, h: seq<E>, pos: nat, size: nat, e: E)
    requires pos < size <= |h|
    ensures
      var (g, leaf) := Sink(leq, h, pos, size);
      multiset(g[..size][leaf := e]) == multiset(h[..size][pos := e]) && g[size..] == h[size..]
    decreases size - pos
  {
    if 2 * pos + 1 < size {
      var c := Child(leq, h, pos, size);
      var k := h[pos := h[c]];
      SinkPerm(leq, k, c, size, e);
      SwapPerm(h[..size][pos := e], pos, c);
      assert h[..size][pos := e][pos := h[c]][c := e] == k[..size][c := e];
    }
  }

  // ---------- heap order ----------

  ghost predicate Ordered<E>(leq: (E, E) -> bool, h: seq<E>) {
    forall k :: 1 <= k < |h| ==> leq(h[Up(k)], h[k])
  }

  /** Heap order of the first `size` slots around a hole: every edge away from it, and the edges that skip it. */
  ghost predicate OrderedAround<E>(leq: (E, E) -> bool, h: seq<E>, pos: nat, size: nat) {
    && size <= |h|
    && (forall k :: 1 <= k < size && k != pos && Up(k) != pos ==> leq(h[Up(k)], h[k]))
    && (forall k :: 1 <= k < size && pos > 0 && Up(k) == pos ==> leq(h[Up(pos)], h[k]))
  }

  /** The child that moves up goes before its sibling. */
  lemma ChildFirst<E(!new)>(leq: (E, E) -> bool, h: seq<E>, pos: nat, size: nat, k: nat)
    requires TotalPreorder(leq) && 2 * pos + 1 < size <= |h| && 1 <= k < size && Up(k) == pos
    ensures leq(h[Child(leq, h, pos, size)], h[k])
  {
    assert k == 2 * pos + 1 || k == 2 * pos + 2;
    assert leq(h[2 * pos + 1], h[k]) || leq(h[k], h[2 * pos + 1]);
  }

  lemma SinkOnce<E(!new)>(leq: (E, E) -> bool, h: seq<E>, pos: nat, size: nat)
    requires TotalPreorder(leq) && 2 * pos + 1 < size && OrderedAround(leq, h, pos, size)
    ensures
      var c := Child(leq, h, pos, size);
      OrderedAround(leq, h[pos := h[c]], c, size)
  {
    hide TotalPreorder, Child;
    var c := Child(leq, h, pos, size);
    var g := h[pos := h[c]];
    forall k | 1 <= k < size && k != c && Up(k) != c
      ensures leq(g[Up(k)], g[k])
    {
      if Up(k) == pos {
        ChildFirst(leq, h, pos, size, k);
      }
    }
  }

  lemma {:induction false} SinkOrdered<E(!new)>(leq: (E, E) -> bool, h: seq<E>, pos: nat, size: nat)
    requires TotalPreorder(leq) && pos < size && OrderedAround(leq, h, pos, size)
    ensures
      var (g, leaf) := Sink(leq, h, pos, size);
      OrderedAround(leq, g, leaf, size) && 2 * leaf + 1 >= size
    decreases size - pos
  {
    hide TotalPreorder, OrderedAround;
    AroundSize(leq, h, pos, size);
    if 2 * pos + 1 < size {
      var c := Child(leq, h, pos, size);
      SinkOnce(leq, h, pos, size);
      SinkOrdered(leq, h[pos := h[c]], c, size);
    }
  }

  lemma AroundSize<E>(leq: (E, E) -> bool, h: seq<E>, pos: nat, size: nat)
    requires OrderedAround(leq, h, pos, size)
    ensures size <= |h|
  {
  }

  lemma LiftOnce<E(!new)>(leq: (E, E) -> bool, h: seq<E>, pos: nat, size: nat, e: E)
    requires TotalPreorder(leq) && 0 < pos < size && OrderedAround(leq, h, pos, size) && !leq(h[Up(pos)], e)
    ensures
      var g, p := h[pos := h[Up(pos)]], Up(pos);
      OrderedAround(leq, g, p, size) && forall k :: 1 <= k < size && Up(k) == p ==> leq(e, g[k])
  {
    var p := Up(pos);
    forall k | 1 <= k < size && Up(k) == p && k != pos
      ensures leq(e, h[k])
    {
      assert leq(h[p], h[k]) && leq(e, h[p]);
    }
  }

  lemma {:induction false} LiftOrdered<E(!new)>(leq: (E, E) -> bool, h: seq<E>, pos: nat, size: nat, e: E)
    requires TotalPreorder(leq) && pos < size && OrderedAround(leq, h, pos, size)
    requires forall k :: 1 <= k < size && Up(k) == pos ==> leq(e, h[k])
    ensures Ordered(leq, Lift(leq, h, pos, e)[..size])
    decreases pos
  {
    if pos > 0 && !leq(h[Up(pos)], e) {
      LiftOnce(leq, h, pos, size, e);
      LiftOrdered(leq, h[pos := h[Up(pos)]], Up(pos), size, e);
    }
  }

  // ---------- push and pop ----------

  lemma {:induction false} RootLeast<E(!new)>(leq: (E, E) -> bool, h: seq<E>, k: nat)
    requires TotalPreorder(leq) && Ordered(leq, h) && k < |h|
    ensures leq(h[0], h[k])
    decreases k
  {
    if k > 0 {
      RootLeast(leq, h, Up(k));
    }
  }

  lemma PushKeeps<E(!new)>(leq: (E, E) -> bool, h: seq<E>, e: E)
    requires TotalPreorder(leq) && Ordered(leq, h)
    ensures Ordered(leq, Push(leq, h, e)) && multiset(Push(leq, h, e)) == multiset(h) + multiset{e}
  {
    var g := h + [e];
    LiftOrdered(leq, g, |h|, |g|, e);
    assert Lift(leq, g, |h|, e)[..|g|] == Lift(leq, g, |h|, e);
    LiftPerm(leq, g, |h|, e);
    assert g[|h| := e] == g;
  }

  /** What `__heap_pop` needs of the rest of the heap; the key of the element at `pos` itself may have changed. */
  ghost predicate Poppable<E>(leq: (E, E) -> bool, h: seq<E>, pos: nat)
    requires pos < |h|
  {
    OrderedAround(leq, h, pos, |h| - 1)
  }

  /** The one case in which it goes wrong: the last slot, holding a key that has dropped below its parent's. */
  predicate LostBelow<E>(leq: (E, E) -> bool, h: seq<E>, pos: nat)
    requires pos < |h|
  {
    pos == |h| - 1 && pos > 0 && !leq(h[Up(pos)], h[pos])
  }

  lemma PopOrdered<E(!new)>(leq: (E, E) -> bool, h: seq<E>, pos: nat)
    requires TotalPreorder(leq) && pos < |h| && Poppable(leq, h, pos) && !LostBelow(leq, h, pos)
    ensures Ordered(leq, PopAt(leq, h, pos))
  {
    hide TotalPreorder, OrderedAround, Sink, Lift;
    var size := |h| - 1;
    if pos < size {
      SinkOrdered(leq, h, pos, size);
      var (g, leaf) := Sink(leq, h, pos, size);
      LiftOrdered(leq, g, leaf, size, h[size]);
    } else {
      PopLastSlot(leq, h);
      FrontOrdered(leq, h);
    }
  }

  lemma FrontOrdered<E>(leq: (E, E) -> bool, h: seq<E>)
    requires h != [] && Poppable(leq, h, |h| - 1)
    ensures Ordered(leq, h[..|h| - 1])
  {
  }

  lemma PopLastSlot<E>(leq: (E, E) -> bool, h: seq<E>)
    requires h != [] && !LostBelow(leq, h, |h| - 1)
    ensures PopAt(leq, h, |h| - 1) == h[..|h| - 1]
  {
    assert h[|h| - 1 := h[|h| - 1]] == h;
  }

  lemma PopPerm<E(!new)>(leq: (E, E) -> bool, h: seq<E>, pos: nat)
    requires pos < |h| && !LostBelow(leq, h, pos)
    ensures multiset(PopAt(leq, h, pos)) + multiset{h[pos]} == multiset(h)
  {
    var size := |h| - 1;
    assert h == h[..size] + [h[size]];
    if pos < size {
      PopPermInner(leq, h, pos);
      assert multiset(h[..size][pos := h[size]]) + multiset{h[pos]} == multiset(h[..size]) + multiset{h[size]};
    } else {
      PopLastSlot(leq, h);
    }
  }

  lemma PopPermInner<E>(leq: (E, E) -> bool, h: seq<E>, pos: nat)
    requires pos < |h| - 1
    ensures multiset(PopAt(leq, h, pos)) == multiset(h[..|h| - 1][pos := h[|h| - 1]])
  {
    var size := |h| - 1;
    var last := h[size];
    SinkPerm(leq, h, pos, size, last);
    var (g, leaf) := Sink(leq, h, pos, size);
    LiftPerm(leq, g, leaf, last);
    LiftTail(leq, g, leaf, last, size);
    var r := Lift(leq, g, leaf, last);
    TakePerm(r, g[leaf := last], size);
    assert g[leaf := last][..size] == g[..size][leaf := last];
  }

  lemma TakePerm<E>(r: seq<E>, s: seq<E>, size: nat)
    requires size <= |r| == |s| && r[size..] == s[size..] && multiset(r) == multiset(s)
    ensures multiset(r[..size]) == multiset(s[..size])
  {
    assert r == r[..size] + r[size..];
    assert s == s[..size] + s[size..];
    assert multiset(r[..size]) == multiset(r) - multiset(r[size..]);
  }

  lemma {:induction false} LiftTail<E>(leq: (E, E) -> bool, h: seq<E>, pos: nat, e: E, size: nat)
    requires pos < size <= |h|
    ensures Lift(leq, h, pos, e)[size..] == h[size..]
    ensures e in Lift(leq, h, pos, e)[..size]
    decreases pos
  {
    if pos > 0 && !leq(h[Up(pos)], e) {
      LiftTail(leq, h[pos := h[Up(pos)]], Up(pos), e, size);
    } else {
      assert Lift(leq, h, pos, e)[..size][pos] == e;
    }
  }

  /** An element that occurs once is gone after `__heap_pop` exactly when it was not the lowered last slot. */
  lemma PopRemoves<E(!new)>(leq: (E, E) -> bool, h: seq<E>, pos: nat)
    requires pos < |h| && multiset(h)[h[pos]] == 1
    ensures h[pos] !in PopAt(leq, h, pos) <==> !LostBelow(leq, h, pos)
  {
    var r := PopAt(leq, h, pos);
    if LostBelow(leq, h, pos) {
      LiftTail(leq, h[pos := h[Up(pos)]], Up(pos), h[pos], pos);
    } else {
      PopPerm(leq, h, pos);
      assert multiset(r)[h[pos]] == 0;
      assert h[pos] !in multiset(r);
    }
  }

  // ---------- a key that changes while its element is in the heap ----------

  /** `leq` compares the elements other than `e` as `leq0` does. */
  ghost predicate OnlyKeyOf<E(!new)>(e: E, leq0: (E, E) -> bool, leq: (E, E) -> bool) {
    forall a, b :: a != e && b != e ==> leq(a, b) == leq0(a, b)
  }

  lemma ChangedKeyPoppable<E(!new)>(e: E, leq0: (E, E) -> bool, leq: (E, E) -> bool, h: seq<E>, pos: nat)
    requires TotalPreorder(leq0) && OnlyKeyOf(e, leq0, leq)
    requires Ordered(leq0, h) && pos < |h| && h[pos] == e
    requires forall k :: 0 <= k < |h| && k != pos ==> h[k] != e
    ensures Poppable(leq, h, pos)
  {
    forall k | 1 <= k < |h| - 1 && pos > 0 && Up(k) == pos
      ensures leq(h[Up(pos)], h[k])
    {
      assert leq0(h[Up(pos)], h[pos]) && leq0(h[Up(k)], h[k]);
    }
  }

  /** Pop and push again after the key of `e` has changed: nothing is lost exactly unless `LostBelow`. */
  lemma ResetKey<E(!new)>(e: E, leq0: (E, E) -> bool, leq: (E, E) -> bool, h: seq<E>, pos: nat)
    requires TotalPreorder(leq0) && TotalPreorder(leq) && OnlyKeyOf(e, leq0, leq)
    requires Ordered(leq0, h) && pos < |h| && h[pos] == e
    requires forall k :: 0 <= k < |h| && k != pos ==> h[k] != e
    ensures
      var r := Push(leq, PopAt(leq, h, pos), e);
      && (multiset(r) == multiset(h) <==> !LostBelow(leq, h, pos))
      && (!LostBelow(leq, h, pos) ==> Ordered(leq, r))
  {
    ChangedKeyPoppable(e, leq0, leq, h, pos);
    OccursOnce(h, pos);
    var p := PopAt(leq, h, pos);
    LiftPerm(leq, p + [e], |p|, e);
    assert (p + [e])[|p| := e] == p + [e];
    if LostBelow(leq, h, pos) {
      PopRemoves(leq, h, pos);
      assert multiset(p)[e] >= 1;
    } else {
      PopOrdered(leq, h, pos);
      PopPerm(leq, h, pos);
      PushKeeps(leq, p, e);
    }
  }

  /** A raised key is never lost; this is the quantum reset, whose new expiry is not before the old one. */
  lemma RaisedKey<E(!new)>(e: E, leq0: (E, E) -> bool, leq: (E, E) -> bool, h: seq<E>, pos: nat)
    requires Ordered(leq0, h) && pos < |h| && h[pos] == e
    requires forall x :: leq0(x, e) ==> leq(x, e)
    ensures !LostBelow(leq, h, pos)
  {
  }

  lemma {:induction false} OccursOnce<E>(h: seq<E>, pos: nat)
    requires pos < |h| && forall k :: 0 <= k < |h| && k != pos ==> h[k] != h[pos]
    ensures multiset(h)[h[pos]] == 1
  {
    assert h == h[..pos] + [h[pos]] + h[pos + 1..];
    assert h[pos] !in multiset(h[..pos]) && h[pos] !in multiset(h[pos + 1..]);
  }
}
