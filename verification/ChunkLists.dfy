/**
  Chunks and the list operations by which Get combines the answers of its index scans:
  deduplicate, merge over hours, intersect over matchers.  All lists are ordered by chunk ID.
 */
module ChunkLists {
  import opened ByteStrings
  import opened Seqs
  import Sorting

  type Metric = map<Bytes, Bytes>

  datatype Chunk = Chunk(id: Bytes, from: int, through: int, metric: Metric, data: Bytes)

  predicate ById(a: Chunk, b: Chunk) {
    Less(a.id, b.id)
  }

  function Ids(s: seq<Chunk>): set<Bytes> {
    set c | c in s :: c.id
  }

  /** Strictly ascending IDs: ordered and free of duplicates. */
  ghost predicate Strict(s: seq<Chunk>) {
    forall i, j :: 0 <= i < j < |s| ==> Less(s[i].id, s[j].id)
  }

  ghost predicate AllAbove(x: Bytes, s: seq<Chunk>) {
    forall c :: c in s ==> Less(x, c.id)
  }

  lemma {:induction false} StrictTail(s: seq<Chunk>)
    requires Strict(s) && s != []
    ensures Strict(s[1..]) && AllAbove(s[0].id, s[1..])
    ensures forall c :: c in s <==> c == s[0] || c in s[1..]
    ensures Ids(s) == {s[0].id} + Ids(s[1..])
    ensures s[0].id !in Ids(s[1..])
  {
    assert s == [s[0]] + s[1..];
    forall c | c in s[1..] ensures c.id != s[0].id {
      LessAsymmetric(s[0].id, c.id);
    }
  }

  lemma {:induction false} StrictCons(x: Chunk, s: seq<Chunk>)
    requires Strict(s) && AllAbove(x.id, s)
    ensures Strict([x] + s)
  {
  }

  lemma {:induction false} StrictSnoc(s: seq<Chunk>, x: Chunk)
    requires Strict(s) && s != [] && Less(s[|s| - 1].id, x.id)
    ensures Strict(s + [x])
  {
    forall i | 0 <= i < |s| ensures Less(s[i].id, x.id) {
      if i < |s| - 1 {
        LessTransitive(s[i].id, s[|s| - 1].id, x.id);
      }
    }
  }

  /** What is below the head of a strict list is below all of it. */
  lemma {:induction false} BelowAll(x: Bytes, s: seq<Chunk>)
    requires Strict(s) && s != [] && Less(x, s[0].id)
    ensures AllAbove(x, s) && x !in Ids(s)
  {
    forall i | 0 <= i < |s| ensures Less(x, s[i].id) && s[i].id != x {
      if i > 0 {
        LessTransitive(x, s[0].id, s[i].id);
      }
      LessAsymmetric(x, s[i].id);
    }
  }

  lemma {:induction false} Inhabited(s: seq<Chunk>)
    ensures s != [] <==> exists c :: c in s
  {
    if s != [] {
      assert s[0] in s;
    }
  }

  lemma {:induction false} SameHead(a: seq<Chunk>, b: seq<Chunk>)
    requires Strict(a) && Strict(b) && a != [] && b != [] && forall c :: c in a <==> c in b
    ensures a[0] == b[0]
  {
    assert a[0] in a && b[0] in b;
    StrictTail(a);
    StrictTail(b);
    LessAsymmetric(a[0].id, b[0].id);
  }

  lemma {:induction false} SameTail(a: seq<Chunk>, b: seq<Chunk>)
    requires Strict(a) && Strict(b) && a != [] && b != [] && a[0] == b[0] && forall c :: c in a <==> c in b
    ensures forall c :: c in a[1..] <==> c in b[1..]
  {
    StrictTail(a);
    StrictTail(b);
    forall c ensures (c in a[1..] ==> c != a[0]) && (c in b[1..] ==> c != b[0]) {
      assert c in a[1..] ==> c.id in Ids(a[1..]);
      assert c in b[1..] ==> c.id in Ids(b[1..]);
    }
  }

  /** A strict list is determined by its members. */
  lemma {:induction false} StrictDetermined(a: seq<Chunk>, b: seq<Chunk>)
    requires Strict(a) && Strict(b)
    requires forall c :: c in a <==> c in b
    ensures a == b
  {
    Inhabited(a);
    Inhabited(b);
    if a != [] {
      SameHead(a, b);
      SameTail(a, b);
      StrictTail(a);
      StrictTail(b);
      StrictDetermined(a[1..], b[1..]);
      assert a == [a[0]] + a[1..] && b == [b[0]] + b[1..];
    }
  }

  /** sort.Sort(ByID(...)) of a list without duplicate IDs: strict, with the same members. */
  method SortById(s: seq<Chunk>) returns (r: seq<Chunk>)
    ensures Sorting.SortOf(r, s, ById)
    ensures forall c :: c in r <==> c in s
    ensures |Ids(s)| == |s| ==> Strict(r)
  {
    LessTotalOrder();
    assert Sorting.StrictWeak(ById);
    r := Sorting.Sort(s, ById);
    Sorting.SameMembers(r, s);
    if |Ids(s)| == |s| {
      assert Ids(r) == Ids(s);
      DistinctIds(r);
      forall i, j | 0 <= i < j < |r| ensures Less(r[i].id, r[j].id) {
        LessAsymmetric(r[i].id, r[j].id);
        assert !ById(r[j], r[i]);
      }
    }
  }

  lemma {:induction false} IdsAppend(s: seq<Chunk>, x: Chunk)
    ensures Ids(s + [x]) == Ids(s) + {x.id}
  {
    var t := s + [x];
    assert forall c :: c in t <==> c in s || c == x;
  }

  /** As many IDs as elements means no ID twice. */
  lemma {:induction false} DistinctIds(s: seq<Chunk>)
    ensures |Ids(s)| <= |s|
    ensures |Ids(s)| == |s| ==> forall i, j :: 0 <= i < j < |s| ==> s[i].id != s[j].id
  {
    if s != [] {
      var p, x := s[..|s| - 1], s[|s| - 1];
      DistinctIds(p);
      assert s == p + [x];
      IdsAppend(p, x);
      assert x.id in Ids(p) ==> Ids(s) == Ids(p);
      forall i | 0 <= i < |p| ensures s[i] == p[i] && s[i].id in Ids(p) {
        assert p[i] in p;
      }
    }
  }

  lemma {:induction false} StrictDistinct(s: seq<Chunk>)
    requires Strict(s)
    ensures |Ids(s)| == |s|
  {
    if s != [] {
      var p, x := s[..|s| - 1], s[|s| - 1];
      StrictDistinct(p);
      assert s == p + [x];
      IdsAppend(p, x);
      forall c | c in p ensures c.id != x.id {
        LessAsymmetric(c.id, x.id);
      }
    }
  }

  // ----- unique -------------------------------------------------------------------

  /** The first chunk of every run of equal IDs. */
  function UniqueOf(s: seq<Chunk>): (u: seq<Chunk>)
    ensures s != [] ==> u != []
  {
    if |s| <= 1 then s
    else
      var u := UniqueOf(s[..|s| - 1]);
      if u[|u| - 1].id == s[|s| - 1].id then u else u + [s[|s| - 1]]
  }

  /** No ID is lost and no element invented. */
  lemma {:induction false} UniqueIds(s: seq<Chunk>)
    ensures Ids(UniqueOf(s)) == Ids(s)
    ensures forall c :: c in UniqueOf(s) ==> c in s
  {
    if |s| > 1 {
      var p, x := s[..|s| - 1], s[|s| - 1];
      UniqueIds(p);
      assert s == p + [x];
      IdsAppend(p, x);
      var u := UniqueOf(p);
      IdsAppend(u, x);
      assert u[|u| - 1] in u;
      assert u[|u| - 1].id in Ids(u);
    }
  }

  /** An ordered list comes out free of duplicates. */
  /** Of every run of equal IDs the first chunk is kept ... */
  lemma {:induction false} UniqueKeepsFirst(s: seq<Chunk>, k: nat)
    requires k < |s| && (k == 0 || s[k - 1].id != s[k].id)
    ensures s[k] in UniqueOf(s)
  {
    if |s| > 1 {
      var n := |s| - 1;
      if k < n {
        UniqueKeepsFirst(s[..n], k);
      } else {
        UniqueLast(s[..n]);
      }
    }
  }

  /** ... and no other. */
  lemma {:induction false} UniqueKeepsOnlyFirst(s: seq<Chunk>, c: Chunk) returns (i: nat)
    requires c in UniqueOf(s)
    ensures i < |s| && s[i] == c && (i == 0 || s[i - 1].id != c.id)
  {
    if |s| == 1 {
      i := 0;
    } else {
      var n := |s| - 1;
      if c in UniqueOf(s[..n]) {
        i := UniqueKeepsOnlyFirst(s[..n], c);
      } else {
        UniqueLast(s[..n]);
        i := n;
      }
    }
  }

  lemma {:induction false} UniqueLast(s: seq<Chunk>)
    requires s != []
    ensures UniqueOf(s) != [] && UniqueOf(s)[|UniqueOf(s)| - 1].id == s[|s| - 1].id
  {
    if |s| > 1 {
      UniqueLast(s[..|s| - 1]);
    }
  }

  lemma {:induction false} UniqueStrict(s: seq<Chunk>)
    requires Sorting.Ordered(s, ById)
    ensures Strict(UniqueOf(s))
    ensures s != [] ==> UniqueOf(s)[|UniqueOf(s)| - 1].id == s[|s| - 1].id
  {
    if |s| > 1 {
      var p, x := s[..|s| - 1], s[|s| - 1];
      UniqueStrict(p);
      var u := UniqueOf(p);
      assert !ById(x, p[|p| - 1]);
      LessAsymmetric(x.id, p[|p| - 1].id);
      if u[|u| - 1].id != x.id {
        StrictSnoc(u, x);
      }
    }
  }

  /** unique: the index loop, a nil list for an empty one. */
  method Unique(cs: seq<Chunk>) returns (result: seq<Chunk>)
    ensures result == UniqueOf(cs)
  {
    if |cs| == 0 {
      return [];
    }
    result := [cs[0]];
    var i, j := 0, 1;
    assert cs[..1] == [cs[0]];
    while j < |cs|
      invariant 1 <= j <= |cs| && i == |result| - 1
      invariant result == UniqueOf(cs[..j]) && result != []
    {
      assert cs[..j + 1][..j] == cs[..j];
      if result[i].id != cs[j].id {
        result := result + [cs[j]];
        i := i + 1;
      }
      j := j + 1;
    }
    assert cs[..|cs|] == cs;
  }

  // ----- merge --------------------------------------------------------------------

  function MergeOf(a: seq<Chunk>, b: seq<Chunk>): seq<Chunk>
    decreases |a| + |b|
  {
    if a == [] then b
    else if b == [] then a
    else if Less(a[0].id, b[0].id) then [a[0]] + MergeOf(a[1..], b)
    else if Less(b[0].id, a[0].id) then [b[0]] + MergeOf(a, b[1..])
    else [a[0]] + MergeOf(a[1..], b[1..])
  }

  /** Merging is a union of strict lists in which the left list wins ties. */
  lemma {:induction false} MergeProperties(a: seq<Chunk>, b: seq<Chunk>)
    requires Strict(a) && Strict(b)
    ensures Strict(MergeOf(a, b))
    ensures forall c :: c in MergeOf(a, b) <==> c in a || (c in b && c.id !in Ids(a))
    decreases |a| + |b|
  {
    if a != [] && b != [] {
      StrictTail(a);
      StrictTail(b);
      if Less(a[0].id, b[0].id) {
        MergeProperties(a[1..], b);
        BelowAll(a[0].id, b);
        StrictCons(a[0], MergeOf(a[1..], b));
      } else if Less(b[0].id, a[0].id) {
        MergeProperties(a, b[1..]);
        BelowAll(b[0].id, a);
        StrictCons(b[0], MergeOf(a, b[1..]));
      } else {
        LessAsymmetric(a[0].id, b[0].id);
        MergeProperties(a[1..], b[1..]);
        StrictCons(a[0], MergeOf(a[1..], b[1..]));
        forall c ensures c in MergeOf(a, b) <==> c in a || (c in b && c.id !in Ids(a)) {
          if c in b[1..] {
            assert c.id in Ids(b[1..]);
          }
        }
      }
    }
  }

  /** One turn of merge's loop moves the head of the remaining merge to the result. */
  lemma {:induction false} MergeStep(front: seq<Chunk>, a: seq<Chunk>, b: seq<Chunk>, i: nat, j: nat)
    requires i < |a| && j < |b|
    ensures front + MergeOf(a[i..], b[j..]) ==
            if Less(a[i].id, b[j].id) then front + [a[i]] + MergeOf(a[i + 1..], b[j..])
            else if Less(b[j].id, a[i].id) then front + [b[j]] + MergeOf(a[i..], b[j + 1..])
            else front + [a[i]] + MergeOf(a[i + 1..], b[j + 1..])
  {
    assert a[i..][1..] == a[i + 1..] && b[j..][1..] == b[j + 1..];
    if Less(a[i].id, b[j].id) {
      Associative(front, [a[i]], MergeOf(a[i + 1..], b[j..]));
    } else if Less(b[j].id, a[i].id) {
      Associative(front, [b[j]], MergeOf(a[i..], b[j + 1..]));
    } else {
      Associative(front, [a[i]], MergeOf(a[i + 1..], b[j + 1..]));
    }
  }

  /** merge: two indices, then the two remainders. */
  method Merge(a: seq<Chunk>, b: seq<Chunk>) returns (result: seq<Chunk>)
    ensures result == MergeOf(a, b)
  {
    result := [];
    var i, j := 0, 0;
    assert a[0..] == a && b[0..] == b;
    while i < |a| && j < |b|
      invariant i <= |a| && j <= |b|
      invariant result + MergeOf(a[i..], b[j..]) == MergeOf(a, b)
      decreases |a| - i + |b| - j
    {
      MergeStep(result, a, b, i, j);
      if Less(a[i].id, b[j].id) {
        result := result + [a[i]];
        i := i + 1;
      } else if Less(b[j].id, a[i].id) {
        result := result + [b[j]];
        j := j + 1;
      } else {
        result := result + [a[i]];
        i := i + 1;
        j := j + 1;
      }
    }
    MergeRest(result, a, b, i, j);
    result := Drain(result, a, i);
    result := Drain(result, b, j);
  }

  /** When one list is used up, what is left of the other follows. */
  lemma {:induction false} MergeRest(front: seq<Chunk>, a: seq<Chunk>, b: seq<Chunk>, i: nat, j: nat)
    requires i <= |a| && j <= |b| && (i == |a| || j == |b|)
    ensures front + MergeOf(a[i..], b[j..]) == front + a[i..] + b[j..]
  {
    Associative(front, a[i..], b[j..]);
    assert a[i..] + b[j..] == if i == |a| then b[j..] else a[i..];
  }

  // ----- intersection -------------------------------------------------------------

  function IntersectOf(l: seq<Chunk>, r: seq<Chunk>): seq<Chunk>
    decreases |l| + |r|
  {
    if l == [] || r == [] then []
    else if l[0].id == r[0].id then [l[0]] + IntersectOf(l, r[1..])
    else if Less(l[0].id, r[0].id) then IntersectOf(l[1..], r)
    else IntersectOf(l, r[1..])
  }

  /** The left elements whose ID is also on the right, each once although the left index lags behind. */
  lemma {:induction false} IntersectProperties(l: seq<Chunk>, r: seq<Chunk>)
    requires Strict(l) && Strict(r)
    ensures Strict(IntersectOf(l, r))
    ensures forall c :: c in IntersectOf(l, r) <==> c in l && c.id in Ids(r)
    decreases |l| + |r|
  {
    if l != [] && r != [] {
      StrictTail(l);
      StrictTail(r);
      LessAsymmetric(l[0].id, r[0].id);
      if l[0].id == r[0].id {
        IntersectProperties(l, r[1..]);
        assert forall c :: c in IntersectOf(l, r[1..]) ==> c in l[1..];
        assert AllAbove(l[0].id, IntersectOf(l, r[1..]));
        StrictCons(l[0], IntersectOf(l, r[1..]));
        forall c | c in l && c.id in Ids(r) ensures c in IntersectOf(l, r) {
          if c in l[1..] {
            LessAsymmetric(l[0].id, c.id);
          }
        }
      } else if Less(l[0].id, r[0].id) {
        IntersectProperties(l[1..], r);
        BelowAll(l[0].id, r);
      } else {
        IntersectProperties(l, r[1..]);
        BelowAll(r[0].id, l);
        forall c | c in l && c.id in Ids(r) ensures c.id in Ids(r[1..]) {
          assert c.id in Ids(l);
        }
      }
    }
  }

  /** The two-list case of nWayIntersect: an index loop that advances one side at a time. */
  method Intersect(left: seq<Chunk>, right: seq<Chunk>) returns (result: seq<Chunk>)
    ensures result == IntersectOf(left, right)
  {
    result := [];
    var i, j := 0, 0;
    assert left[0..] == left && right[0..] == right;
    while i < |left| && j < |right|
      invariant i <= |left| && j <= |right|
      invariant result + IntersectOf(left[i..], right[j..]) == IntersectOf(left, right)
      decreases |left| - i + |right| - j
    {
      assert left[i..][1..] == left[i + 1..] && right[j..][1..] == right[j + 1..];
      LessAsymmetric(left[i].id, left[i].id);
      if left[i].id == right[j].id {
        result := result + [left[i]];
      }
      if Less(left[i].id, right[j].id) {
        i := i + 1;
      } else {
        j := j + 1;
      }
    }
  }

  /** c is taken from the first list and its ID occurs in every list. */
  ghost predicate InEvery(c: Chunk, sets: seq<seq<Chunk>>) {
    sets != [] && c in sets[0] && forall k :: 0 <= k < |sets| ==> c.id in Ids(sets[k])
  }

  lemma {:induction false} InEverySplit(c: Chunk, sets: seq<seq<Chunk>>, split: nat, right: seq<Chunk>)
    requires 0 < split < |sets|
    requires forall d :: d in right <==> InEvery(d, sets[split..])
    ensures InEvery(c, sets) <==> InEvery(c, sets[..split]) && c.id in Ids(right)
  {
    var l, r := sets[..split], sets[split..];
    if InEvery(c, sets) {
      assert c.id in Ids(sets[split]);
      var d :| d in sets[split] && d.id == c.id;
      assert forall k :: 0 <= k < |r| ==> r[k] == sets[split + k];
      assert InEvery(d, r);
    }
    if InEvery(c, l) && c.id in Ids(right) {
      var d :| d in right && d.id == c.id;
      forall k | 0 <= k < |sets| ensures c.id in Ids(sets[k]) {
        assert sets[k] == if k < split then l[k] else r[k - split];
      }
    }
  }

  /** nWayIntersect, by halves, for any number of strict lists. */
  method NWayIntersect(sets: seq<seq<Chunk>>) returns (result: seq<Chunk>)
    requires forall k :: 0 <= k < |sets| ==> Strict(sets[k])
    ensures Strict(result)
    ensures forall c :: c in result <==> InEvery(c, sets)
    decreases |sets|
  {
    match |sets|
    case 0 =>
      result := [];
    case 1 =>
      result := sets[0];
      assert forall c :: c in result ==> c.id in Ids(sets[0]);
    case 2 =>
      result := Intersect(sets[0], sets[1]);
      IntersectProperties(sets[0], sets[1]);
      assert forall c :: c in result ==> c.id in Ids(sets[0]);
    case _ =>
      var split := |sets| / 2;
      var left := NWayIntersect(sets[..split]);
      var right := NWayIntersect(sets[split..]);
      result := NWayIntersect([left, right]);
      forall c ensures c in result <==> InEvery(c, sets) {
        InEverySplit(c, sets, split, right);
        var halves := [left, right];
        assert halves[0] == left && halves[1] == right;
        assert c in result <==> InEvery(c, halves);
        assert c in left ==> c.id in Ids(left);
      }
  }

  /** When equal IDs mean equal chunks, the order of the lists does not matter. */
  lemma {:induction false} InEveryUnordered(c: Chunk, sets: seq<seq<Chunk>>, other: seq<seq<Chunk>>)
    requires multiset(sets) == multiset(other)
    requires forall s, t, x, y :: s in sets && t in sets && x in s && y in t && x.id == y.id ==> x == y
    ensures InEvery(c, sets) <==> InEvery(c, other)
  {
    Sorting.SameMembers(sets, other);
    if InEvery(c, sets) {
      InEveryElsewhere(c, sets, other);
    }
    if InEvery(c, other) {
      InEveryElsewhere(c, other, sets);
    }
  }

  /** So any permutation of the lists gives the same list. */
  lemma {:induction false} IntersectionUnordered(
    sets: seq<seq<Chunk>>, other: seq<seq<Chunk>>, r: seq<Chunk>, r': seq<Chunk>)
    requires multiset(sets) == multiset(other)
    requires forall s, t, x, y :: s in sets && t in sets && x in s && y in t && x.id == y.id ==> x == y
    requires Strict(r) && Strict(r')
    requires (forall c :: c in r <==> InEvery(c, sets)) && (forall c :: c in r' <==> InEvery(c, other))
    ensures r == r'
  {
    forall c ensures c in r <==> c in r' {
      InEveryUnordered(c, sets, other);
    }
    StrictDetermined(r, r');
  }

  lemma {:induction false} InEveryElsewhere(c: Chunk, sets: seq<seq<Chunk>>, other: seq<seq<Chunk>>)
    requires InEvery(c, sets) && |sets| == |other| && (forall s :: s in sets <==> s in other)
    requires forall s, t, x, y :: s in sets && t in sets && x in s && y in t && x.id == y.id ==> x == y
    ensures InEvery(c, other)
  {
    forall k | 0 <= k < |other| ensures c.id in Ids(other[k]) && c in other[k] {
      assert other[k] in other;
      var i :| 0 <= i < |sets| && sets[i] == other[k];
      var d :| d in sets[i] && d.id == c.id;
      assert sets[0] in sets && c in sets[0] && d in sets[i];
    }
  }
}
