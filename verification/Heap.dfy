/** The event heap, src/heap.c: a binary heap with removal from any position. */
module Heaps {
  import opened DynArrays
  import opened HeapOrder

  class Heap<E(0, ==)> {
    const da: DynArray<E>

    ghost predicate Valid()
      reads this, da
    {
      da.Valid()
    }

    ghost function Contents(): (s: seq<E>)
      requires Valid()
      reads this, da, da.elems
    {
      da.Contents()
    }

    constructor Init()
      ensures Valid() && Contents() == [] && fresh(da) && fresh(da.elems)
    {
      da := new DynArray<E>.Create(128);
    }

    method SiftDown(leq: (E, E) -> bool, pos0: nat, elem: E)
      requires Valid() && pos0 < da.next_idx
      modifies da.elems
      ensures Contents() == Lift(leq, old(Contents()), pos0, elem)
    {
      var h := da.elems;
      var pos: nat := pos0;
      while pos > 0
        invariant pos <= pos0
        invariant Lift(leq, Contents(), pos, elem) == Lift(leq, old(Contents()), pos0, elem)
      {
        var parentpos := (pos - 1) / 2;
        var parent := h[parentpos];
        if leq(parent, elem) { break; }
        ghost var before := Contents();
        h[pos] := parent;
        assert Contents() == before[pos := parent] && Up(pos) == parentpos;
        pos := parentpos;
      }
      ghost var before := Contents();
      h[pos] := elem;
      assert Contents() == before[pos := elem];
    }

    method Push(leq: (E, E) -> bool, elem: E)
      requires Valid()
      modifies da, da.elems
      ensures Valid() && Contents() == HeapOrder.Push(leq, old(Contents()), elem)
      ensures da.elems == old(da.elems) || fresh(da.elems)
    {
      da.Alloc();
      assert Contents() == (old(Contents()) + [elem])[old(da.next_idx) := Contents()[old(da.next_idx)]];
      LiftIgnoresSlot(leq, old(Contents()) + [elem], old(da.next_idx), Contents()[old(da.next_idx)], elem);
      SiftDown(leq, da.next_idx - 1, elem);
    }

    method Peek() returns (ok: bool, ret: E)
      requires Valid()
      ensures ok == (Contents() != []) && (ok ==> ret == Contents()[0])
    {
      ret := *;
      ok := da.next_idx != 0;
      if ok {
        ret := da.Get(0);
      }
    }

    /** The first loop of `__heap_pop`. */
    method SinkHole(leq: (E, E) -> bool, pos0: nat, size: nat) returns (pos: nat)
      requires Valid() && pos0 <= size < da.next_idx
      modifies da.elems
      ensures (Contents(), pos) == Sink(leq, old(Contents()), pos0, size)
    {
      hide Sink;
      var h := da.elems;
      pos := pos0;
      ghost var g := Contents();
      while true
        invariant pos <= size && g == Contents()
        invariant Sink(leq, g, pos, size) == Sink(leq, old(Contents()), pos0, size)
        decreases size - pos
      {
        SinkStep(leq, g, pos, size);
        var ch_pos := 2 * pos + 1;
        var rch_pos := ch_pos + 1;
        if ch_pos >= size { break; }
        if rch_pos < size && leq(h[rch_pos], h[ch_pos]) {
          ch_pos := rch_pos;
        }
        h[pos] := h[ch_pos];
        g := g[pos := g[ch_pos]];
        pos := ch_pos;
      }
    }

    method PopAt(leq: (E, E) -> bool, pos0: nat) returns (ok: bool, ret: E)
      requires Valid()
      modifies da, da.elems
      ensures Valid() && da.elems == old(da.elems)
      ensures ok == (pos0 < |old(Contents())|)
      ensures ok ==> ret == old(Contents())[pos0] && Contents() == HeapOrder.PopAt(leq, old(Contents()), pos0)
      ensures !ok ==> Contents() == old(Contents())
    {
      var size := da.next_idx;
      if size == 0 || pos0 >= size {
        ret := *;
        return false, ret;
      }
      ret := da.elems[pos0];
      var last := da.elems[size - 1];
      size := size - 1;
      var pos := SinkHole(leq, pos0, size);
      SiftDown(leq, pos, last);
      da.Dealloc();
      ok := true;
    }

    method Pop(leq: (E, E) -> bool) returns (ok: bool, ret: E)
      requires Valid()
      modifies da, da.elems
      ensures Valid() && da.elems == old(da.elems)
      ensures ok == (old(Contents()) != [])
      ensures ok ==> ret == old(Contents())[0] && Contents() == HeapOrder.PopAt(leq, old(Contents()), 0)
      ensures !ok ==> Contents() == old(Contents())
    {
      ok, ret := PopAt(leq, 0);
    }

    /** The first occurrence; reading slot 0 of an empty heap ends the program, so it must not be empty. */
    method PopElem(leq: (E, E) -> bool, elem: E) returns (ok: bool, ghost at: nat)
      requires Valid() && Contents() != []
      modifies da, da.elems
      ensures Valid() && da.elems == old(da.elems)
      ensures ok == (elem in old(Contents()))
      ensures ok ==> at < |old(Contents())| && old(Contents())[at] == elem && elem !in old(Contents())[..at]
                     && Contents() == HeapOrder.PopAt(leq, old(Contents()), at)
      ensures !ok ==> Contents() == old(Contents())
    {
      var size, h := da.next_idx, da.elems;
      at := 0;
      for pos := 0 to size
        invariant Valid() && da.elems == h && da.next_idx == size && Contents() == old(Contents())
        invariant elem !in Contents()[..pos]
      {
        if elem == h[pos] {
          var e;
          at := pos;
          ok, e := PopAt(leq, pos);
          return;
        }
      }
      ok := false;
    }
  }
}
