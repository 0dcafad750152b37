/** Concatenation, removal and filtering of sequences, and what they do to the elements. */
module Seqs {

  function Flatten<T>(ss: seq<seq<T>>): seq<T> {
    if ss == [] then [] else ss[0] + Flatten(ss[1..])
  }

  lemma {:induction false} Exchange<T>(a: multiset<T>, b: multiset<T>, c: multiset<T>)
    ensures a + b + c == a + c + b
  {
  }

  lemma {:induction false} Associative<T>(a: seq<T>, b: seq<T>, c: seq<T>)
    ensures a + b + c == a + (b + c)
  {
  }

  lemma {:induction false} FlattenAppend<T>(ss: seq<seq<T>>, s: seq<T>)
    ensures Flatten(ss + [s]) == Flatten(ss) + s
  {
    if ss == [] {
      assert ss + [s] == [s] && [s][1..] == [];
      assert Flatten([s]) == s + Flatten<T>([]);
    } else {
      assert (ss + [s])[1..] == ss[1..] + [s];
      FlattenAppend(ss[1..], s);
    }
  }

  lemma {:induction false} FlattenMember<T>(ss: seq<seq<T>>, x: T)
    ensures x in Flatten(ss) <==> exists s :: s in ss && x in s
  {
    if ss != [] {
      FlattenMember(ss[1..], x);
      assert ss == [ss[0]] + ss[1..];
    }
  }

  /** The elements of all parts together. */
  lemma {:induction false} FlattenSnoc<T>(ss: seq<seq<T>>, i: nat, x: T)
    requires i < |ss|
    ensures multiset(Flatten(ss[i := ss[i] + [x]])) == multiset(Flatten(ss)) + multiset{x}
  {
    var ss' := ss[i := ss[i] + [x]];
    if i == 0 {
      assert ss'[1..] == ss[1..];
    } else {
      assert ss'[1..] == ss[1..][i - 1 := ss[1..][i - 1] + [x]];
      FlattenSnoc(ss[1..], i - 1, x);
    }
  }

  /** s without its k-th element. */
  function Without<T>(s: seq<T>, k: nat): seq<T>
    requires k < |s|
  {
    s[..k] + s[k + 1..]
  }

  lemma {:induction false} WithoutMultiset<T>(s: seq<T>, k: nat)
    requires k < |s|
    ensures multiset(s) == multiset(Without(s, k)) + multiset{s[k]}
  {
    assert s == s[..k] + [s[k]] + s[k + 1..];
  }

  lemma {:induction false} FlattenRemove<T>(ss: seq<seq<T>>, i: nat, k: nat)
    requires i < |ss| && k < |ss[i]|
    ensures multiset(Flatten(ss)) == multiset(Flatten(ss[i := Without(ss[i], k)])) + multiset{ss[i][k]}
  {
    var ss' := ss[i := Without(ss[i], k)];
    if i == 0 {
      assert ss'[1..] == ss[1..];
      WithoutMultiset(ss[0], k);
    } else {
      assert ss'[1..] == ss[1..][i - 1 := Without(ss[1..][i - 1], k)];
      FlattenRemove(ss[1..], i - 1, k);
    }
  }

  /** Appends what is left of s from index k on. */
  method Drain<T>(front: seq<T>, s: seq<T>, k: nat) returns (result: seq<T>)
    requires k <= |s|
    ensures result == front + s[k..]
  {
    result := front;
    for i := k to |s|
      invariant result == front + s[k..i]
    {
      result := result + [s[i]];
    }
  }

  // ----- filtering ------------------------------------------------------------------------

  function Filter<T>(s: seq<T>, keep: T -> bool): seq<T> {
    if s == [] then []
    else if keep(s[0]) then [s[0]] + Filter(s[1..], keep)
    else Filter(s[1..], keep)
  }

  lemma {:induction false} FilterConcat<T>(a: seq<T>, b: seq<T>, keep: T -> bool)
    ensures Filter(a + b, keep) == Filter(a, keep) + Filter(b, keep)
  {
    if a == [] {
      assert a + b == b;
    } else {
      assert (a + b)[1..] == a[1..] + b;
      FilterConcat(a[1..], b, keep);
    }
  }

  /** How often an element occurs in a filtered sequence. */
  lemma {:induction false} FilterCount<T>(s: seq<T>, keep: T -> bool, x: T)
    ensures multiset(Filter(s, keep))[x] == if keep(x) then multiset(s)[x] else 0
  {
    if s != [] {
      FilterCount(s[1..], keep, x);
      assert s == [s[0]] + s[1..];
      assert multiset(s) == multiset{s[0]} + multiset(s[1..]);
      var f := Filter(s[1..], keep);
      assert multiset([s[0]] + f) == multiset{s[0]} + multiset(f);
    }
  }

  lemma {:induction false} FilterMembers<T>(s: seq<T>, keep: T -> bool)
    ensures forall x :: x in Filter(s, keep) <==> x in s && keep(x)
  {
    forall x ensures x in Filter(s, keep) <==> x in s && keep(x) {
      FilterCount(s, keep, x);
      assert x in Filter(s, keep) <==> x in multiset(Filter(s, keep));
      assert x in s <==> x in multiset(s);
    }
  }

  lemma {:induction false} FilterFirst<T>(x: T, b: seq<T>, keep: T -> bool)
    ensures Filter([x] + b, keep) == if keep(x) then [x] + Filter(b, keep) else Filter(b, keep)
  {
    assert ([x] + b)[1..] == b;
  }

  lemma {:induction false} FilterWithout<T>(s: seq<T>, k: nat, keep: T -> bool)
    requires k < |s|
    ensures multiset(Filter(s, keep)) ==
            multiset(Filter(Without(s, k), keep)) + if keep(s[k]) then multiset{s[k]} else multiset{}
  {
    var a, x, b := s[..k], s[k], s[k + 1..];
    assert s == a + ([x] + b);
    FilterConcat(a, [x] + b, keep);
    FilterConcat(a, b, keep);
    FilterFirst(x, b, keep);
    if keep(x) {
      var f, g := Filter(a, keep), Filter(b, keep);
      assert multiset(f + ([x] + g)) == multiset(f) + multiset{x} + multiset(g);
      Exchange(multiset(f), multiset{x}, multiset(g));
    }
  }

  /** Filtering respects permutation. */
  lemma {:induction false} FilterPermutation<T>(r: seq<T>, s: seq<T>, keep: T -> bool)
    requires multiset(r) == multiset(s)
    ensures multiset(Filter(r, keep)) == multiset(Filter(s, keep))
  {
    assert |r| == |multiset(r)| && |s| == |multiset(s)|;
    if r != [] {
      assert r[0] in multiset(s);
      var k :| 0 <= k < |s| && s[k] == r[0];
      WithoutMultiset(s, k);
      WithoutMultiset(r, 0);
      assert multiset(Without(r, 0)) == multiset(r) - multiset{r[0]};
      assert multiset(Without(s, k)) == multiset(s) - multiset{s[k]};
      FilterPermutation(Without(r, 0), Without(s, k), keep);
      FilterWithout(r, 0, keep);
      FilterWithout(s, k, keep);
    }
  }

  lemma {:induction false} FilterAll<T>(s: seq<T>, keep: T -> bool)
    requires forall x :: x in s ==> keep(x)
    ensures Filter(s, keep) == s
  {
    if s != [] {
      assert s == [s[0]] + s[1..] && s[0] in s;
      FilterAll(s[1..], keep);
    }
  }

  lemma {:induction false} FilterNone<T>(s: seq<T>, keep: T -> bool)
    requires forall x :: x in s ==> !keep(x)
    ensures Filter(s, keep) == []
  {
    if s != [] {
      assert s[0] in s;
      FilterNone(s[1..], keep);
    }
  }

  /** Filtering for a stronger property forgets an earlier weaker filter. */
  lemma {:induction false} FilterTwice<T>(s: seq<T>, p: T -> bool, q: T -> bool)
    requires forall x :: x in s && q(x) ==> p(x)
    ensures Filter(Filter(s, p), q) == Filter(s, q)
  {
    if s != [] {
      assert s[0] in s;
      FilterTwice(s[1..], p, q);
      var rest := Filter(s[1..], p);
      assert ([s[0]] + rest)[1..] == rest;
    }
  }
}
