/** Items grouped into batches by key, in their order: the map of slices that a grouping loop fills. */
module Batches {
  import opened Seqs

  /** A map lookup, with the zero value for a missing key. */
  function Batch<K, T>(batches: map<K, seq<T>>, k: K): seq<T> {
    if k in batches then batches[k] else []
  }

  /** The batches with one more item. */
  function AddTo<K, T>(batches: map<K, seq<T>>, k: K, x: T): map<K, seq<T>> {
    batches[k := Batch(batches, k) + [x]]
  }

  /** The batches after the first n items. */
  function GroupOf<K, T>(keys: seq<K>, items: seq<T>, n: nat): map<K, seq<T>>
    requires |keys| == |items| && n <= |items|
  {
    if n == 0 then map[] else AddTo(GroupOf(keys, items, n - 1), keys[n - 1], items[n - 1])
  }

  // ----- each batch holds its items in order ----------------------------------------------------

  /** Those of the first n items with key k, in their order. */
  function Under<K(==), T>(keys: seq<K>, items: seq<T>, k: K, n: nat): seq<T>
    requires |keys| == |items| && n <= |items|
  {
    if n == 0 then []
    else if keys[n - 1] == k then Under(keys, items, k, n - 1) + [items[n - 1]]
    else Under(keys, items, k, n - 1)
  }

  lemma {:induction false} UnderMembers<K, T>(keys: seq<K>, items: seq<T>, k: K, n: nat, x: T)
    requires |keys| == |items| && n <= |items|
    ensures x in Under(keys, items, k, n) <==> exists i :: 0 <= i < n && items[i] == x && keys[i] == k
  {
    if n > 0 {
      UnderMembers(keys, items, k, n - 1, x);
    }
  }

  /** The i-th item stands in its batch behind those before it with the same key, so order is kept. */
  lemma {:induction false} UnderAt<K, T>(keys: seq<K>, items: seq<T>, n: nat, i: nat)
    requires |keys| == |items| && i < n <= |items|
    ensures var batch, before := Under(keys, items, keys[i], n), Under(keys, items, keys[i], i);
            |before| < |batch| && batch[|before|] == items[i] && before <= batch
  {
    if i < n - 1 {
      UnderAt(keys, items, n - 1, i);
    }
  }

  lemma {:induction false} GroupUnder<K, T>(keys: seq<K>, items: seq<T>, n: nat, k: K)
    requires |keys| == |items| && n <= |items|
    ensures Batch(GroupOf(keys, items, n), k) == Under(keys, items, k, n)
    ensures k in GroupOf(keys, items, n) ==> GroupOf(keys, items, n)[k] != []
  {
    if n > 0 {
      GroupUnder(keys, items, n - 1, k);
    }
  }

  // ----- conservation ---------------------------------------------------------------------------

  /** All items of all batches. */
  ghost function Union<K(!new), T>(batches: map<K, seq<T>>): multiset<T> {
    if batches == map[] then multiset{}
    else
      var k :| k in batches;
      multiset(batches[k]) + Union(batches - {k})
  }

  lemma {:induction false} UnionRemove<K(!new), T>(batches: map<K, seq<T>>, k: K)
    requires k in batches
    ensures Union(batches) == multiset(batches[k]) + Union(batches - {k})
    decreases batches
  {
    var c :| c in batches && Union(batches) == multiset(batches[c]) + Union(batches - {c});
    if c != k {
      UnionRemove(batches - {c}, k);
      UnionRemove(batches - {k}, c);
      assert batches - {c} - {k} == batches - {k} - {c};
    }
  }

  lemma {:induction false} UnionSplit<K(!new), T>(batches: map<K, seq<T>>, k: K)
    ensures Union(batches) == multiset(Batch(batches, k)) + Union(batches - {k})
  {
    if k in batches {
      UnionRemove(batches, k);
    } else {
      assert batches - {k} == batches;
      assert multiset{} + Union(batches) == Union(batches);
    }
  }

  lemma {:induction false} UnionAppend<K(!new), T>(batches: map<K, seq<T>>, k: K, x: T)
    ensures Union(AddTo(batches, k, x)) == Union(batches) + multiset{x}
  {
    var before, after := batches, AddTo(batches, k, x);
    UnionSplit(before, k);
    UnionSplit(after, k);
    assert after - {k} == before - {k};
    assert multiset(Batch(before, k) + [x]) == multiset(Batch(before, k)) + multiset{x};
    Exchange(multiset(Batch(before, k)), multiset{x}, Union(before - {k}));
  }

  /** The first n items. */
  function Bag<T>(items: seq<T>, n: nat): multiset<T>
    requires n <= |items|
  {
    if n == 0 then multiset{} else Bag(items, n - 1) + multiset{items[n - 1]}
  }

  lemma {:induction false} BagIs<T>(items: seq<T>, n: nat)
    requires n <= |items|
    ensures Bag(items, n) == multiset(items[..n])
  {
    if n > 0 {
      BagIs(items, n - 1);
      assert items[..n] == items[..n - 1] + [items[n - 1]];
    }
  }

  lemma {:induction false} GroupConserves<K(!new), T>(keys: seq<K>, items: seq<T>, n: nat)
    requires |keys| == |items| && n <= |items|
    ensures Union(GroupOf(keys, items, n)) == Bag(items, n)
  {
    if n > 0 {
      GroupConserves(keys, items, n - 1);
      UnionAppend(GroupOf(keys, items, n - 1), keys[n - 1], items[n - 1]);
    }
  }

  // ----- both -----------------------------------------------------------------------------------

  /** The batches are exactly the items, each under its key, in order, and no batch is empty. */
  ghost predicate Partitioned<K(!new), T>(batches: map<K, seq<T>>, keys: seq<K>, items: seq<T>)
    requires |keys| == |items|
  {
    && (forall k :: k in batches ==> batches[k] != [])
    && (forall k :: Batch(batches, k) == Under(keys, items, k, |items|))
    && Union(batches) == multiset(items)
  }

  lemma {:induction false} GroupPartitioned<K(!new), T>(keys: seq<K>, items: seq<T>)
    requires |keys| == |items|
    ensures Partitioned(GroupOf(keys, items, |items|), keys, items)
    ensures Union(GroupOf(keys, items, |items|)) == multiset(items)
  {
    var n := |items|;
    forall k ensures Batch(GroupOf(keys, items, n), k) == Under(keys, items, k, n) {
      GroupUnder(keys, items, n, k);
    }
    forall k | k in GroupOf(keys, items, n) ensures GroupOf(keys, items, n)[k] != [] {
      GroupUnder(keys, items, n, k);
    }
    GroupConserves(keys, items, n);
    BagIs(items, n);
    assert items[..n] == items;
  }

  /** An item whose occurrences all have key k is in the batch of k and in no other. */
  lemma {:induction false} InOwnBatch<K(!new), T>(batches: map<K, seq<T>>, keys: seq<K>, items: seq<T>, x: T, k: K)
    requires |keys| == |items| && Partitioned(batches, keys, items) && x in items
    requires forall i :: 0 <= i < |items| && items[i] == x ==> keys[i] == k
    ensures forall h :: h in batches && x in batches[h] <==> h == k
  {
    var i :| 0 <= i < |items| && items[i] == x;
    forall h ensures h in batches && x in batches[h] <==> h == k {
      UnderMembers(keys, items, h, |items|, x);
      assert Batch(batches, h) == Under(keys, items, h, |items|);
    }
  }
}
