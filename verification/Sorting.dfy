/**
  The contract of Go's sort.Sort and sort.Search, on which the whole program leans:
  sort.Sort is not stable, so a caller may only rely on "an ordered permutation", and
  sort.Search returns the least index at which a monotone predicate holds.
 */
module Sorting {

  /** less is a strict weak order: the only thing sort.Sort asks of a Less method. */
  ghost predicate StrictWeak<T(!new)>(less: (T, T) -> bool) {
    && (forall a, b :: less(a, b) ==> !less(b, a))
    && (forall a, b, c :: !less(b, a) && !less(c, b) ==> !less(c, a))
  }

  ghost predicate Ordered<T>(s: seq<T>, less: (T, T) -> bool) {
    forall i, j :: 0 <= i < j < |s| ==> !less(s[j], s[i])
  }

  ghost predicate SortOf<T>(r: seq<T>, s: seq<T>, less: (T, T) -> bool) {
    Ordered(r, less) && multiset(r) == multiset(s)
  }

  lemma {:induction false} SplitMultiset<T>(s: seq<T>, i: nat)
    requires i <= |s|
    ensures multiset(s) == multiset(s[..i]) + multiset(s[i..])
  {
    assert s == s[..i] + s[i..];
  }

  /** One element placed into an ordered sequence, before the first element above it. */
  method Insert<T(!new)>(s: seq<T>, x: T, less: (T, T) -> bool) returns (r: seq<T>)
    requires StrictWeak(less) && Ordered(s, less)
    ensures SortOf(r, s + [x], less)
  {
    var i := |s|;
    while i > 0 && less(x, s[i - 1])
      invariant 0 <= i <= |s|
      invariant forall k :: i <= k < |s| ==> less(x, s[k])
    {
      i := i - 1;
    }
    r := s[..i] + [x] + s[i..];
    SplitMultiset(s, i);
    forall k | 0 <= k < i ensures !less(x, s[k]) {
      assert !less(s[i - 1], s[k]);
    }
  }

  /** sort.Sort: callers see an ordered permutation and nothing about ties. */
  method Sort<T(!new)>(s: seq<T>, less: (T, T) -> bool) returns (r: seq<T>)
    requires StrictWeak(less)
    ensures SortOf(r, s, less)
  {
    r := [];
    for i := 0 to |s|
      invariant SortOf(r, s[..i], less)
    {
      assert s[..i + 1] == s[..i] + [s[i]];
      r := Insert(r, s[i], less);
    }
    assert s[..|s|] == s;
  }

  /** The order in which concurrent workers report: any permutation. */
  method Shuffle<T>(s: seq<T>) returns (r: seq<T>)
    ensures multiset(r) == multiset(s)
  {
    r := [];
    var rest := s;
    while rest != []
      invariant multiset(r) + multiset(rest) == multiset(s)
      decreases |rest|
    {
      var k :| 0 <= k < |rest|;
      SplitMultiset(rest, k);
      SplitMultiset(rest[k..], 1);
      assert rest[k..][..1] == [rest[k]] && rest[k..][1..] == rest[k + 1..];
      r, rest := r + [rest[k]], rest[..k] + rest[k + 1..];
    }
  }

  /** A permutation has the same length and the same members. */
  lemma {:induction false} SameMembers<T>(r: seq<T>, s: seq<T>)
    requires multiset(r) == multiset(s)
    ensures |r| == |s|
    ensures forall x :: x in r <==> x in s
  {
    assert |r| == |multiset(r)| && |s| == |multiset(s)|;
    forall x ensures x in r <==> x in s {
      assert x in multiset(r) <==> x in r;
      assert x in multiset(s) <==> x in s;
    }
  }

  /** Elements that neither precede the other are equal. */
  ghost predicate TiesEqual<T>(s: seq<T>, less: (T, T) -> bool) {
    forall i, j :: 0 <= i < |s| && 0 <= j < |s| && !less(s[i], s[j]) && !less(s[j], s[i]) ==> s[i] == s[j]
  }

  lemma {:induction false} SameHead<T>(r: seq<T>, s: seq<T>, less: (T, T) -> bool)
    requires Ordered(r, less) && Ordered(s, less) && multiset(r) == multiset(s)
    requires TiesEqual(r, less) && r != []
    ensures s != [] && r[0] == s[0]
  {
    SameMembers(r, s);
    assert r[0] in s;
    assert s[0] in r;
    var i :| 0 <= i < |r| && r[i] == s[0];
    var j :| 0 <= j < |s| && s[j] == r[0];
    if i != 0 && j != 0 {
      assert !less(r[i], r[0]) && !less(s[j], s[0]);
      assert r[i] == r[0];
    }
  }

  /** Two ordered permutations of one another coincide when ties are between equal elements only. */
  lemma {:induction false} SortUnique<T>(r: seq<T>, s: seq<T>, less: (T, T) -> bool)
    requires Ordered(r, less) && Ordered(s, less) && multiset(r) == multiset(s)
    requires TiesEqual(r, less)
    ensures r == s
  {
    SameMembers(r, s);
    if r != [] {
      SameHead(r, s, less);
      SplitMultiset(r, 1);
      SplitMultiset(s, 1);
      assert r[..1] == s[..1];
      assert multiset(r[1..]) == multiset(r) - multiset(r[..1]);
      assert multiset(s[1..]) == multiset(s) - multiset(s[..1]);
      SortUnique(r[1..], s[1..], less);
      assert r == r[..1] + r[1..] && s == s[..1] + s[1..];
    }
  }

  /** sort.Search: binary search for the least index in [0, n] from which f holds. */
  method Search(n: nat, f: nat -> bool) returns (i: nat)
    requires forall a, b :: 0 <= a <= b < n && f(a) ==> f(b)
    ensures i <= n
    ensures forall k :: 0 <= k < i ==> !f(k)
    ensures forall k :: i <= k < n ==> f(k)
  {
    i := 0;
    var j := n;
    while i < j
      invariant 0 <= i <= j <= n
      invariant forall k :: 0 <= k < i ==> !f(k)
      invariant forall k :: j <= k < n ==> f(k)
    {
      var h := (i + j) / 2;
      if !f(h) {
        i := h + 1;
      } else {
        j := h;
      }
    }
  }
}
