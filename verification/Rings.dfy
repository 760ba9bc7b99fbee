/** Circular doubly linked lists, src/list.h. */
module Rings {
  import opened Programs
  import opened Seqs

  function Nth(head: Node, s: seq<Node>, i: int): Node {
    if 1 <= i <= |s| then s[i - 1] else head
  }

  function Cells(head: Node, s: seq<Node>): set<Node> {
    {head} + set n | n in s
  }

  ghost predicate NoDup(s: seq<Node>) {
    forall i, j :: 0 <= i < j < |s| ==> s[i] != s[j]
  }

  ghost predicate IsRing(head: Node, s: seq<Node>)
    reads Cells(head, s)`next, Cells(head, s)`prev
  {
    && head !in s
    && NoDup(s)
    && (forall i {:trigger Nth(head, s, i).next} :: 0 <= i <= |s| ==> Nth(head, s, i).next == Nth(head, s, i + 1))
    && (forall i {:trigger Nth(head, s, i).prev} :: 1 <= i <= |s| + 1 ==> Nth(head, s, i).prev == Nth(head, s, i - 1))
  }

  lemma WithoutCells(head: Node, s: seq<Node>, k: nat)
    requires k < |s| && NoDup(s) && head !in s
    ensures Cells(head, Without(s, k)) == Cells(head, s) - {s[k]}
  {
    forall n | n in Cells(head, s) && n != s[k]
      ensures n in Cells(head, Without(s, k))
    {
      if n != head {
        var m :| 0 <= m < |s| && s[m] == n;
        assert Without(s, k)[if m < k then m else m - 1] == n;
      }
    }
  }

  lemma InsertedCells(head: Node, s: seq<Node>, k: nat, x: Node)
    requires k <= |s|
    ensures Cells(head, Inserted(s, k, x)) == Cells(head, s) + {x}
  {
    forall n | n in s
      ensures n in Inserted(s, k, x)
    {
      var m :| 0 <= m < |s| && s[m] == n;
      assert Inserted(s, k, x)[if m < k then m else m + 1] == n;
    }
    assert Inserted(s, k, x)[k] == x;
  }

  method AddTail(newp: Node, head: Node, ghost s: seq<Node>)
    requires IsRing(head, s) && newp !in Cells(head, s)
    modifies Cells(head, s)`next, Cells(head, s)`prev, newp`next, newp`prev
    ensures IsRing(head, s + [newp])
    ensures Cells(head, s + [newp]) == Cells(head, s) + {newp}
  {
    assert Nth(head, s, |s| + 1).prev == Nth(head, s, |s|);
    head.prev.next := newp;
    newp.next := head;
    newp.prev := head.prev;
    head.prev := newp;
    ghost var r := s + [newp];
    forall i | 0 <= i <= |r|
      ensures Nth(head, r, i).next == Nth(head, r, i + 1)
      ensures Nth(head, r, i + 1).prev == Nth(head, r, i)
    {
      assert i < |r| ==> Nth(head, r, i) == Nth(head, s, i);
      assert i < |s| ==> Nth(head, r, i + 1) == Nth(head, s, i + 1);
    }
  }

  method Del(elem: Node, ghost head: Node, ghost s: seq<Node>, ghost k: nat)
    requires IsRing(head, s) && k < |s| && s[k] == elem
    modifies Cells(head, s)`next, Cells(head, s)`prev
    ensures IsRing(head, Without(s, k))
    ensures Cells(head, Without(s, k)) == Cells(head, s) - {elem}
    ensures elem.next == old(elem.next) && elem.prev == old(elem.prev)
  {
    assert Nth(head, s, k + 1) == elem;
    assert elem.next == Nth(head, s, k + 2) && elem.prev == Nth(head, s, k);
    elem.next.prev := elem.prev;
    elem.prev.next := elem.next;
    ghost var r := Without(s, k);
    WithoutCells(head, s, k);
    forall i | 0 <= i <= |r|
      ensures Nth(head, r, i).next == Nth(head, r, i + 1)
      ensures Nth(head, r, i + 1).prev == Nth(head, r, i)
    {
      assert Nth(head, r, i) == Nth(head, s, if i <= k then i else i + 1);
      assert Nth(head, r, i + 1) == Nth(head, s, if i + 1 <= k then i + 1 else i + 2);
    }
  }

  /** Insert after the k-th cell (0 is the head). */
  method Add(newp: Node, at: Node, ghost head: Node, ghost s: seq<Node>, ghost k: nat)
    requires IsRing(head, s) && newp !in Cells(head, s)
    requires k <= |s| && Nth(head, s, k) == at
    modifies Cells(head, s)`next, Cells(head, s)`prev, newp`next, newp`prev
    ensures IsRing(head, Inserted(s, k, newp))
    ensures Cells(head, Inserted(s, k, newp)) == Cells(head, s) + {newp}
  {
    assert at.next == Nth(head, s, k + 1);
    at.next.prev := newp;
    newp.next := at.next;
    newp.prev := at;
    at.next := newp;
    ghost var r := Inserted(s, k, newp);
    InsertedCells(head, s, k, newp);
    forall i | 0 <= i <= |r|
      ensures Nth(head, r, i).next == Nth(head, r, i + 1)
      ensures Nth(head, r, i + 1).prev == Nth(head, r, i)
    {
      assert i != k + 1 ==> Nth(head, r, i) == Nth(head, s, if i <= k then i else i - 1);
      assert i != k ==> Nth(head, r, i + 1) == Nth(head, s, if i + 1 <= k then i + 1 else i);
    }
  }

  /** Delete from the ring and insert behind cell `j` of what is left. */
  method Move(elem: Node, at: Node, ghost head: Node, ghost s: seq<Node>, ghost k: nat, ghost j: nat)
    requires IsRing(head, s) && k < |s| && s[k] == elem
    requires j < |s| && Nth(head, Without(s, k), j) == at
    modifies Cells(head, s)`next, Cells(head, s)`prev
    ensures IsRing(head, Inserted(Without(s, k), j, elem))
    ensures Cells(head, Inserted(Without(s, k), j, elem)) == Cells(head, s)
  {
    hide IsRing, NoDup;
    Del(elem, head, s, k);
    Add(elem, at, head, Without(s, k), j);
  }
}
