/** The growing array under the event heap, src/dynarray.c. */
module DynArrays {

  class DynArray<T(0)> {
    var elems: array<T>
    var next_idx: nat
    const alloc_grain: nat

    ghost predicate Valid()
      reads this
    {
      next_idx <= elems.Length && alloc_grain > 0
    }

    ghost function Contents(): (s: seq<T>)
      requires Valid()
      reads this, elems
    {
      elems[..next_idx]
    }

    constructor Create(grain: nat)
      requires grain > 0
      ensures Valid() && Contents() == [] && fresh(elems)
    {
      alloc_grain := grain;
      elems := new T[grain];
      next_idx := 0;
    }

    function Get(idx: nat): (r: T)
      requires Valid() && idx < next_idx
      reads this, elems
      ensures r == Contents()[idx]
    {
      elems[idx]
    }

    method Expand()
      requires Valid()
      modifies this`elems
      ensures Valid() && Contents() == old(Contents())
      ensures fresh(elems) && elems.Length == old(elems.Length) + alloc_grain
    {
      var bigger := new T[elems.Length + alloc_grain];
      forall i | 0 <= i < elems.Length {
        bigger[i] := elems[i];
      }
      elems := bigger;
    }

    /** One more slot at the end; its value is whatever the buffer holds there. */
    method Alloc()
      requires Valid()
      modifies this
      ensures Valid() && next_idx == old(next_idx) + 1
      ensures Contents()[..old(next_idx)] == old(Contents())
      ensures elems == old(elems) || fresh(elems)
    {
      if next_idx >= elems.Length {
        Expand();
      }
      next_idx := next_idx + 1;
    }

    method Dealloc()
      requires Valid() && next_idx > 0
      modifies this`next_idx
      ensures Valid() && Contents() == old(Contents())[..old(next_idx) - 1]
    {
      next_idx := next_idx - 1;
    }
  }
}
