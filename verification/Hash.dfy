/** The chained hash table, src/hash.c and src/hash.h. */
module Hashes {
  import opened Machine
  import opened Seqs

  const NOT_FOUND: U64 := 0xFFFF_FFFF_FFFF_FFFF

  class Entry {
    const key: U64
    var val: U64
    var next: Entry?

    constructor (key: U64, val: U64, next: Entry?)
      ensures this.key == key && this.val == val && this.next == next
    {
      this.key, this.val, this.next := key, val, next;
    }
  }

  function At(s: seq<Entry>, i: nat): Entry? {
    if i < |s| then s[i] else null
  }

  ghost predicate HasKey(s: seq<Entry>, key: U64) {
    exists i :: 0 <= i < |s| && s[i].key == key
  }

  /** `head` starts a null-terminated chain of the entries `s`. */
  ghost predicate Linked(head: Entry?, s: seq<Entry>)
    reads (set e | e in s)`next
  {
    head == At(s, 0) && forall i :: 0 <= i < |s| ==> s[i].next == At(s, i + 1)
  }

  /** The chain `s` holds exactly the keys of `ks` that hash to `b`, each once. */
  ghost predicate Holds(s: seq<Entry>, b: nat, size: nat, ks: set<U64>)
    requires size > 0
  {
    && (forall i, j :: 0 <= i < j < |s| ==> s[i].key != s[j].key)
    && (forall i :: 0 <= i < |s| ==> s[i].key % size == b && s[i].key in ks)
    && (forall k :: k in ks && k % size == b ==> HasKey(s, k))
  }

  ghost predicate Valued(s: seq<Entry>, m: map<U64, U64>)
    reads (set e | e in s)`val
  {
    forall i :: 0 <= i < |s| ==> s[i].key in m && m[s[i].key] == s[i].val
  }

  // ---------- one bucket ----------

  lemma LinkedCons(e: Entry, s: seq<Entry>)
    requires Linked(At(s, 0), s) && e.next == At(s, 0)
    ensures Linked(e, [e] + s)
  {
    forall i | 0 <= i < |[e] + s|
      ensures ([e] + s)[i].next == At([e] + s, i + 1)
    {
      assert i >= 1 ==> ([e] + s)[i] == s[i - 1];
    }
  }

  lemma LinkedTail(head: Entry?, s: seq<Entry>)
    requires Linked(head, s) && s != []
    ensures Linked(s[0].next, Without(s, 0))
  {
    forall j | 0 <= j < |s| - 1
      ensures Without(s, 0)[j].next == At(Without(s, 0), j + 1)
    {
      assert Without(s, 0)[j] == s[j + 1];
    }
  }

  lemma LinkedSkip(head: Entry?, s: seq<Entry>, i: nat)
    requires 0 < i < |s| && head == s[0] && s[i - 1].next == At(s, i + 1)
    requires forall m :: 0 <= m < |s| && m + 1 != i ==> s[m].next == At(s, m + 1)
    ensures Linked(head, Without(s, i))
  {
    forall j | 0 <= j < |s| - 1
      ensures Without(s, i)[j].next == At(Without(s, i), j + 1)
    {
      assert Without(s, i)[j] == s[if j < i then j else j + 1];
    }
  }

  lemma HoldsCons(e: Entry, s: seq<Entry>, b: nat, size: nat, ks: set<U64>)
    requires size > 0 && Holds(s, b, size, ks) && e.key % size == b && e.key !in ks
    ensures Holds([e] + s, b, size, ks + {e.key})
  {
    forall k | k in ks + {e.key} && k % size == b
      ensures HasKey([e] + s, k)
    {
      if k == e.key {
        assert ([e] + s)[0].key == k;
      } else {
        var i :| 0 <= i < |s| && s[i].key == k;
        assert ([e] + s)[i + 1].key == k;
      }
    }
  }

  lemma HoldsDropped(s: seq<Entry>, i: nat, b: nat, size: nat, ks: set<U64>)
    requires size > 0 && i < |s| && Holds(s, b, size, ks)
    ensures Holds(Without(s, i), b, size, ks - {s[i].key})
  {
    forall k | k in ks - {s[i].key} && k % size == b
      ensures HasKey(Without(s, i), k)
    {
      var j :| 0 <= j < |s| && s[j].key == k;
      assert Without(s, i)[if j < i then j else j - 1].key == k;
    }
  }

  lemma KeyIsThere(s: seq<Entry>, b: nat, size: nat, ks: set<U64>, key: U64)
    requires size > 0 && Holds(s, b, size, ks) && key % size == b
    ensures key in ks <==> HasKey(s, key)
  {
  }

  /** Adding or removing a key of another bucket is not noticed. */
  lemma HoldsElsewhere(s: seq<Entry>, b: nat, size: nat, ks: set<U64>, key: U64)
    requires size > 0 && Holds(s, b, size, ks) && key % size != b
    ensures Holds(s, b, size, ks + {key}) && Holds(s, b, size, ks - {key})
  {
  }

  class Hash {
    const table: array<Entry?>
    const size: nat
    ghost var chains: seq<seq<Entry>>   // the entries of each bucket, in order
    ghost var M: map<U64, U64>          // the map the table stands for

    function Bucket(key: U64): (b: nat)
      requires size > 0
      ensures b < size
    {
      key % size
    }

    ghost function Entries(): set<Entry>
      reads this
    {
      set b, i | 0 <= b < |chains| && 0 <= i < |chains[b]| :: chains[b][i]
    }

    ghost predicate Shape()
      reads this
    {
      size > 0 && table.Length == |chains| == size
    }

    ghost predicate BucketOk(b: nat)
      requires Shape() && b < size
      reads this, table, (set e | e in chains[b])
    {
      Linked(table[b], chains[b]) && Holds(chains[b], b, size, M.Keys) && Valued(chains[b], M)
    }

    ghost predicate Valid()
      reads this, table, Entries()
    {
      && Shape()
      && forall b :: 0 <= b < size ==> BucketOk(b)
    }

    constructor Init(size: nat)
      requires size > 0
      ensures Valid() && M == map[] && Entries() == {} && fresh(table)
    {
      this.size := size;
      table := new Entry?[size](_ => null);
      chains := seq(size, _ => []);
      M := map[];
    }

    lemma EntryTells(b: nat, i: nat)
      requires Valid() && b < size && i < |chains[b]|
      ensures chains[b][i] in Entries() && chains[b][i].key in M && M[chains[b][i].key] == chains[b][i].val
    {
      assert BucketOk(b);
    }

    /** The walk shared by all operations: the entry of `key` and its predecessor in the bucket. */
    method Find(key: U64) returns (curr: Entry?, prev: Entry?, ghost i: nat)
      requires Valid()
      ensures i <= |chains[Bucket(key)]| && curr == At(chains[Bucket(key)], i)
      ensures curr == null <==> key !in M
      ensures curr != null ==> curr.key == key && curr in Entries() && curr.val == M[key]
      ensures prev == if i == 0 then curr else At(chains[Bucket(key)], i - 1)
    {
      hide Holds, Valued;
      var bucket := Bucket(key);
      ghost var s := chains[bucket];
      assert BucketOk(bucket);
      KeyIsThere(s, bucket, size, M.Keys, key);
      curr := table[bucket];
      prev := curr;
      i := 0;
      while curr != null && curr.key != key
        invariant i <= |s| && curr == At(s, i)
        invariant prev == if i == 0 then curr else At(s, i - 1)
        invariant forall j :: 0 <= j < i ==> s[j].key != key
        decreases |s| - i
      {
        prev := curr;
        curr := curr.next;
        i := i + 1;
      }
      if curr != null {
        EntryTells(bucket, i);
      }
    }

    method Lookup(key: U64) returns (r: U64)
      requires Valid()
      ensures r == if key in M then M[key] else NOT_FOUND
    {
      var curr, prev, i := Find(key);
      if curr == null { return NOT_FOUND; }
      return curr.val;
    }

    lemma KeysTell(b: nat, ks: set<U64>)
      requires Shape() && b < size && Holds(chains[b], b, size, ks)
      ensures forall i :: 0 <= i < |chains[b]| ==> Bucket(chains[b][i].key) == b
      ensures forall i, j :: 0 <= i < j < |chains[b]| ==> chains[b][i].key != chains[b][j].key
    {
    }

    method SetVal(e: Entry, val: U64, ghost i: nat)
      requires Valid() && e.key in M && i < |chains[Bucket(e.key)]| && e == chains[Bucket(e.key)][i]
      modifies this`M, e`val
      ensures Valid() && M == old(M)[e.key := val]
    {
      hide Holds;
      e.val := val;
      M := M[e.key := val];
      assert M.Keys == old(M.Keys);
      forall b | 0 <= b < size
        ensures BucketOk(b)
      {
        assert old(BucketOk(b));
        KeysTell(b, old(M.Keys));
      }
    }



    method Insert(key: U64, val: U64)
      requires Valid()
      modifies this, table, Entries()`val
      ensures Valid() && M == old(M)[key := val]
      ensures fresh(Entries() - old(Entries()))
    {
      var curr, prev, i := Find(key);
      var bucket := Bucket(key);
      if curr != null {
        SetVal(curr, val, i);
        return;
      }
      var e := new Entry(key, val, table[bucket]);
      Prepend(e, bucket);
    }

    /** The new entry becomes the first of its bucket. */
    method Prepend(e: Entry, bucket: nat)
      requires Valid() && e.key !in M && bucket == Bucket(e.key) && e !in Entries() && e.next == table[bucket]
      modifies this, table
      ensures Valid() && M == old(M)[e.key := e.val]
      ensures Entries() == old(Entries()) + {e}
    {
      hide Holds;
      ghost var s, ks := chains[bucket], M.Keys;
      assert BucketOk(bucket);
      LinkedCons(e, s);
      HoldsCons(e, s, bucket, size, ks);
      KeysTell(bucket, ks);
      table[bucket] := e;
      chains := chains[bucket := [e] + s];
      M := M[e.key := e.val];
      assert M.Keys == ks + {e.key};
      forall b | 0 <= b < size
        ensures BucketOk(b)
      {
        assert old(BucketOk(b));
        if b != bucket {
          HoldsElsewhere(chains[b], b, size, ks, e.key);
          KeysTell(b, ks);
        }
      }
      EntriesGrow(old(chains), bucket, e);
    }

    lemma EntriesGrow(cs: seq<seq<Entry>>, bucket: nat, e: Entry)
      requires bucket < |cs| == |chains| && chains == cs[bucket := [e] + cs[bucket]]
      ensures Entries() == (set b, i | 0 <= b < |cs| && 0 <= i < |cs[b]| :: cs[b][i]) + {e}
    {
      forall x | x in (set b, i | 0 <= b < |cs| && 0 <= i < |cs[b]| :: cs[b][i])
        ensures x in Entries()
      {
        var b, i :| 0 <= b < |cs| && 0 <= i < |cs[b]| && cs[b][i] == x;
        assert chains[b][if b == bucket then i + 1 else i] == x;
      }
      assert chains[bucket][0] == e;
    }

    /** The entry `curr`, the i-th of its bucket, is taken out of the chain. */
    method Unlink(curr: Entry, prev: Entry, bucket: nat, ghost i: nat)
      requires Valid() && bucket == Bucket(curr.key) && i < |chains[bucket]| && curr == chains[bucket][i]
      requires prev == if i == 0 then curr else chains[bucket][i - 1]
      modifies table, Entries()`next
      ensures Linked(table[bucket], Without(chains[bucket], i))
      ensures forall b :: 0 <= b < size && b != bucket ==> Linked(table[b], chains[b])
    {
      hide Holds, Valued;
      ghost var s := chains[bucket];
      assert BucketOk(bucket);
      KeysTell(bucket, M.Keys);
      forall b | 0 <= b < size && b != bucket
        ensures Linked(table[b], chains[b]) && prev !in chains[b]
      {
        assert BucketOk(b);
        KeysTell(b, M.Keys);
      }
      hide Linked;
      if curr == table[bucket] {
        assert i == 0 by { FirstOnly(bucket, i); }
        LinkedTail(table[bucket], s);
        table[bucket] := curr.next;
      } else {
        assert i != 0 by { FirstOnly(bucket, i); }
        SkipLink(prev, curr, bucket, i);
      }
    }

    lemma FirstOnly(bucket: nat, i: nat)
      requires Valid() && bucket < size && i < |chains[bucket]|
      ensures chains[bucket][i] == table[bucket] <==> i == 0
    {
      assert BucketOk(bucket);
      KeysTell(bucket, M.Keys);
    }

    method SkipLink(prev: Entry, curr: Entry, bucket: nat, ghost i: nat)
      requires Valid() && bucket < size && 0 < i < |chains[bucket]|
      requires prev == chains[bucket][i - 1] && curr == chains[bucket][i]
      modifies prev`next
      ensures Linked(table[bucket], Without(chains[bucket], i))
    {
      hide Holds, Valued;
      ghost var s := chains[bucket];
      assert BucketOk(bucket);
      KeysTell(bucket, M.Keys);
      assert forall m :: 0 <= m < |s| && m + 1 != i ==> s[m] != prev;
      prev.next := curr.next;
      LinkedSkip(table[bucket], s, i);
    }

    lemma EntriesShrink(cs: seq<seq<Entry>>, bucket: nat, i: nat)
      requires bucket < |cs| == |chains| && i < |cs[bucket]| && chains == cs[bucket := Without(cs[bucket], i)]
      ensures Entries() <= (set b, j | 0 <= b < |cs| && 0 <= j < |cs[b]| :: cs[b][j])
    {
      forall x | x in Entries()
        ensures x in (set b, j | 0 <= b < |cs| && 0 <= j < |cs[b]| :: cs[b][j])
      {
        var b, j :| 0 <= b < |chains| && 0 <= j < |chains[b]| && chains[b][j] == x;
        assert cs[b][if b == bucket && j >= i then j + 1 else j] == x;
      }
    }

    method Delete(key: U64) returns (r: U64)
      requires Valid()
      modifies this, table, Entries()`next
      ensures Valid() && M == old(M) - {key} && Entries() <= old(Entries())
      ensures r == if key in old(M) then old(M)[key] else NOT_FOUND
    {
      hide Holds, Linked;
      var curr, prev, i := Find(key);
      if curr == null { return NOT_FOUND; }
      r := curr.val;
      var bucket := Bucket(key);
      ghost var s, ks := chains[bucket], M.Keys;
      Unlink(curr, prev, bucket, i);
      assert old(BucketOk(bucket));
      HoldsDropped(s, i, bucket, size, ks);
      KeysTell(bucket, ks);
      ghost var cs := chains;
      chains := chains[bucket := Without(s, i)];
      M := M - {key};
      EntriesShrink(cs, bucket, i);
      assert M.Keys == ks - {key};
      forall b | 0 <= b < size
        ensures BucketOk(b)
      {
        assert old(BucketOk(b));
        if b != bucket {
          HoldsElsewhere(chains[b], b, size, ks, key);
          KeysTell(b, ks);
        }
      }
    }

    method Swap(key1: U64, key2: U64) returns (r: int)
      requires Valid()
      modifies this`M, Entries()`val
      ensures Valid()
      ensures if key1 in old(M) && key2 in old(M)
              then r == 0 && M == old(M)[key1 := old(M)[key2]][key2 := old(M)[key1]]
              else r == -1 && M == old(M)
    {
      var entry1, prev1, i1 := Find(key1);
      if entry1 == null { return -1; }
      var entry2, prev2, i2 := Find(key2);
      if entry2 == null { return -1; }
      var tmp := entry1.val;
      SetVal(entry1, entry2.val, i1);
      SetVal(entry2, tmp, i2);
      return 0;
    }
  }
}
