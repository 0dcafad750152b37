/**
  tools/scheduler/main.py: tests are placed on shards, most expensive first, each on the shard
  with the least load so far.  Costs are real numbers.
 */
module Scheduler {
  import opened Seqs
  import Sorting

  // ----- loads under an assignment ----------------------------------------------------

  /** The weight that assignment a of the first |a| jobs puts on machine i. */
  function Load(p: seq<real>, a: seq<nat>, i: nat): real
    requires |a| <= |p|
  {
    if a == [] then 0.0
    else
      var k := |a| - 1;
      Load(p, a[..k], i) + if a[k] == i then p[k] else 0.0
  }

  function Total(p: seq<real>, n: nat): real
    requires n <= |p|
  {
    if n == 0 then 0.0 else Total(p, n - 1) + p[n - 1]
  }

  function SumLoads(p: seq<real>, a: seq<nat>, m: nat): real
    requires |a| <= |p|
  {
    if m == 0 then 0.0 else SumLoads(p, a, m - 1) + Load(p, a, m - 1)
  }

  predicate OnMachines(a: seq<nat>, m: nat) {
    forall k :: 0 <= k < |a| ==> a[k] < m
  }

  predicate NonNegative(p: seq<real>) {
    forall k :: 0 <= k < |p| ==> p[k] >= 0.0
  }

  predicate Descending(p: seq<real>) {
    forall j, k :: 0 <= j < k < |p| ==> p[j] >= p[k]
  }

  /** One job adds its weight to the sum over machines exactly once. */
  lemma {:induction false} SumLoadsStep(p: seq<real>, a: seq<nat>, m: nat)
    requires 0 < |a| <= |p|
    ensures SumLoads(p, a, m) ==
            SumLoads(p, a[..|a| - 1], m) + if a[|a| - 1] < m then p[|a| - 1] else 0.0
  {
    if m > 0 {
      SumLoadsStep(p, a, m - 1);
    }
  }

  /** Counting by machines and counting by jobs agree. */
  lemma {:induction false} LoadsAddUp(p: seq<real>, a: seq<nat>, m: nat)
    requires |a| <= |p| && OnMachines(a, m)
    ensures SumLoads(p, a, m) == Total(p, |a|)
  {
    if a == [] {
      NoLoads(p, m);
    } else {
      LoadsAddUp(p, a[..|a| - 1], m);
      SumLoadsStep(p, a, m);
    }
  }

  lemma {:induction false} NoLoads(p: seq<real>, m: nat)
    ensures SumLoads(p, [], m) == 0.0
  {
    if m > 0 {
      NoLoads(p, m - 1);
    }
  }

  lemma {:induction false} SumAtMost(p: seq<real>, a: seq<nat>, m: nat, t: real)
    requires |a| <= |p| && forall i :: 0 <= i < m ==> Load(p, a, i) <= t
    ensures SumLoads(p, a, m) <= m as real * t
  {
    if m > 0 {
      SumAtMost(p, a, m - 1, t);
      assert m as real * t == (m - 1) as real * t + t;
    }
  }

  lemma {:induction false} SumAtLeast(p: seq<real>, a: seq<nat>, m: nat, t: real)
    requires |a| <= |p| && forall i :: 0 <= i < m ==> Load(p, a, i) >= t
    ensures SumLoads(p, a, m) >= m as real * t
  {
    if m > 0 {
      SumAtLeast(p, a, m - 1, t);
      assert m as real * t == (m - 1) as real * t + t;
    }
  }

  /** If the sum is below m times t, some machine is below t. */
  lemma {:induction false} SomeBelow(p: seq<real>, a: seq<nat>, m: nat, t: real) returns (i: nat)
    requires |a| <= |p| && SumLoads(p, a, m) < m as real * t
    ensures i < m && Load(p, a, i) < t
  {
    if Load(p, a, m - 1) < t {
      i := m - 1;
    } else {
      assert m as real * t == (m - 1) as real * t + t;
      i := SomeBelow(p, a, m - 1, t);
    }
  }

  lemma {:induction false} PrefixLoad(p: seq<real>, a: seq<nat>, n: nat, i: nat)
    requires n <= |a| <= |p| && NonNegative(p)
    ensures Load(p, a[..n], i) <= Load(p, a, i)
  {
    if n == |a| {
      assert a[..n] == a;
    } else {
      PrefixLoad(p, a[..|a| - 1], n, i);
      assert a[..|a| - 1][..n] == a[..n];
    }
  }

  // ----- Graham's argument ------------------------------------------------------------

  /** Jobs up to k count double if they do not fit beside job k below t. */
  function Weights(p: seq<real>, k: nat, t: real): (w: seq<real>)
    requires k < |p|
    ensures |w| == k + 1
    ensures forall j :: 0 <= j <= k ==> w[j] == if p[j] + p[k] > t then 2.0 else 1.0
  {
    seq(k + 1, j requires 0 <= j <= k => if p[j] + p[k] > t then 2.0 else 1.0)
  }

  /** How weight bounds load, for jobs none of which is below job k and job k above t/3. */
  lemma {:induction false} WeightAndLoad(p: seq<real>, k: nat, t: real, a: seq<nat>, i: nat)
    requires k < |p| && Descending(p) && p[k] <= t < 3.0 * p[k]
    requires |a| <= k + 1
    ensures var w, l := Load(Weights(p, k, t), a, i), Load(p, a, i);
            && (w == 0.0 || w == 1.0 || w == 2.0 || w >= 3.0)
            && (w == 0.0 ==> l == 0.0)
            && (w == 1.0 ==> p[k] <= l <= t - p[k])
            && (w == 2.0 ==> l > t - p[k])
            && (w >= 3.0 ==> l > t)
  {
    if a != [] {
      WeightAndLoad(p, k, t, a[..|a| - 1], i);
      assert |a| - 1 < k ==> p[|a| - 1] >= p[k];
    }
  }

  /** l is at most 4/3 - 1/(3m) times t. */
  ghost predicate WithinGraham(l: real, m: nat, t: real) {
    3.0 * m as real * l <= (4.0 * m as real - 1.0) * t
  }

  /** No machine is loaded above t. */
  ghost predicate Fits(p: seq<real>, a: seq<nat>, m: nat, t: real)
    requires |a| <= |p|
  {
    forall i :: 0 <= i < m ==> Load(p, a, i) <= t
  }

  /** No machine is loaded less than low. */
  ghost predicate Filled(p: seq<real>, a: seq<nat>, m: nat, low: real)
    requires |a| <= |p|
  {
    forall i :: 0 <= i < m ==> low <= Load(p, a, i)
  }

  lemma {:induction false} PrefixFits(p: seq<real>, a: seq<nat>, n: nat, m: nat, t: real)
    requires n <= |a| <= |p| && NonNegative(p) && Fits(p, a, m, t)
    ensures Fits(p, a[..n], m, t)
  {
    forall i | 0 <= i < m ensures Load(p, a[..n], i) <= t {
      PrefixLoad(p, a, n, i);
    }
  }

  lemma {:induction false} LoadsNonNegative(p: seq<real>, a: seq<nat>, i: nat)
    requires |a| <= |p| && NonNegative(p)
    ensures Load(p, a, i) >= 0.0
  {
    if a != [] {
      LoadsNonNegative(p, a[..|a| - 1], i);
    }
  }

  lemma {:induction false} LastJobFits(p: seq<real>, a: seq<nat>, m: nat, t: real)
    requires 0 < |a| <= |p| && NonNegative(p) && OnMachines(a, m) && Fits(p, a, m, t)
    ensures p[|a| - 1] <= t
  {
    var k := |a| - 1;
    LoadsNonNegative(p, a[..k], a[k]);
    assert Load(p, a, a[k]) == Load(p, a[..k], a[k]) + p[k];
  }

  /** If the jobs up to k fit below t, their weights add up to at most two per machine. */
  lemma {:induction false} WeightsFit(p: seq<real>, h: seq<nat>, m: nat, t: real)
    requires 0 < |h| <= |p| && OnMachines(h, m) && Descending(p) && NonNegative(p)
    requires t < 3.0 * p[|h| - 1] && Fits(p, h, m, t)
    ensures Total(Weights(p, |h| - 1, t), |h|) <= m as real * 2.0
  {
    var k := |h| - 1;
    var w := Weights(p, k, t);
    LastJobFits(p, h, m, t);
    forall i | 0 <= i < m ensures Load(w, h, i) <= 2.0 {
      WeightAndLoad(p, k, t, h, i);
    }
    SumAtMost(w, h, m, 2.0);
    LoadsAddUp(w, h, m);
  }

  /** A large job k fits below t on the least loaded machine if all jobs up to k fit below t at all. */
  lemma {:induction false} LargeJobFits(p: seq<real>, a: seq<nat>, g: seq<nat>, m: nat, t: real, low: real)
    requires |a| < |g| <= |p| && OnMachines(a, m) && OnMachines(g, m)
    requires Descending(p) && NonNegative(p) && t < 3.0 * p[|a|]
    requires Fits(p, g, m, t) && Filled(p, a, m, low)
    ensures low + p[|a|] <= t
  {
    var k := |a|;
    var w, h := Weights(p, k, t), g[..k + 1];
    PrefixFits(p, g, k + 1, m, t);
    LastJobFits(p, h, m, t);
    WeightsFit(p, h, m, t);
    LoadsAddUp(w, a, m);
    assert Total(w, k + 1) == Total(w, k) + w[k];
    var i := SomeBelow(w, a, m, 2.0);
    WeightAndLoad(p, k, t, a, i);
  }

  /** A small job exceeds the average by little. */
  lemma {:induction false} SmallJobFits(p: seq<real>, a: seq<nat>, g: seq<nat>, m: nat, t: real, low: real)
    requires |a| < |g| <= |p| && OnMachines(a, m) && OnMachines(g, m) && m > 0
    requires NonNegative(p) && 3.0 * p[|a|] <= t
    requires Fits(p, g, m, t) && Filled(p, a, m, low)
    ensures WithinGraham(low + p[|a|], m, t)
  {
    var k := |a|;
    var h := g[..k + 1];
    PrefixFits(p, g, k + 1, m, t);
    SumAtMost(p, h, m, t);
    LoadsAddUp(p, h, m);
    SumAtLeast(p, a, m, low);
    LoadsAddUp(p, a, m);
    assert Total(p, k + 1) == Total(p, k) + p[k];
    Slack(m as real, low, p[k], t);
  }

  lemma {:induction false} Slack(x: real, low: real, q: real, t: real)
    requires x >= 1.0 && x * low + q <= x * t && 3.0 * q <= t
    ensures 3.0 * x * (low + q) <= (4.0 * x - 1.0) * t
  {
    var xl, xq, xt := x * low, x * q, x * t;
    Product(x - 1.0, t - 3.0 * q);
    assert (x - 1.0) * (t - 3.0 * q) == xt - 3.0 * xq - t + 3.0 * q;
    assert 3.0 * x * (low + q) == 3.0 * xl + 3.0 * xq;
    assert (4.0 * x - 1.0) * t == 4.0 * xt - t;
  }

  lemma {:induction false} Product(a: real, b: real)
    requires a >= 0.0 && b >= 0.0
    ensures a * b >= 0.0
  {
  }

  /** Each job was put on a machine that was least loaded at that time. */
  ghost predicate Greedy(p: seq<real>, a: seq<nat>, m: nat)
    requires |a| <= |p|
  {
    OnMachines(a, m) && forall k :: 0 <= k < |a| ==> Filled(p, a[..k], m, Load(p, a[..k], a[k]))
  }

  /** Graham 1969: largest-first greedy is within 4/3 - 1/(3m) of every assignment g. */
  lemma {:induction false} GrahamBound(p: seq<real>, a: seq<nat>, g: seq<nat>, m: nat, t: real, i: nat)
    requires |a| <= |g| == |p| && m > 0 && i < m
    requires Greedy(p, a, m) && OnMachines(g, m) && Descending(p) && NonNegative(p) && Fits(p, g, m, t)
    ensures WithinGraham(Load(p, a, i), m, t)
  {
    if a == [] {
      LoadsNonNegative(p, g, 0);
      Scale(m, 0.0, t);
    } else {
      var k := |a| - 1;
      var b := a[..k];
      if a[k] == i {
        GreedyStep(p, a, g, m, t);
      } else {
        assert forall j :: 0 <= j < k ==> b[..j] == a[..j];
        GrahamBound(p, b, g, m, t, i);
      }
    }
  }

  lemma {:induction false} GreedyStep(p: seq<real>, a: seq<nat>, g: seq<nat>, m: nat, t: real)
    requires 0 < |a| <= |g| == |p| && m > 0
    requires Greedy(p, a, m) && OnMachines(g, m) && Descending(p) && NonNegative(p) && Fits(p, g, m, t)
    ensures WithinGraham(Load(p, a, a[|a| - 1]), m, t)
  {
    var k := |a| - 1;
    var b, low := a[..k], Load(p, a[..k], a[k]);
    assert Load(p, a, a[k]) == low + p[k];
    if t < 3.0 * p[k] {
      LargeJobFits(p, b, g, m, t, low);
      LoadsNonNegative(p, g, 0);
      Scale(m, low + p[k], t);
    } else {
      SmallJobFits(p, b, g, m, t, low);
    }
  }

  lemma {:induction false} Scale(m: nat, l: real, t: real)
    requires m > 0 && l <= t && t >= 0.0
    ensures WithinGraham(l, m, t)
  {
    var x := m as real;
    Product(x, t - l);
    Product(x - 1.0, t);
    assert x * (t - l) == x * t - x * l;
    assert (x - 1.0) * t == x * t - t;
    assert 3.0 * x * l == 3.0 * (x * l);
    assert (4.0 * x - 1.0) * t == 4.0 * (x * t) - t;
  }

  // ----- schedules of named tests -------------------------------------------------------

  type Name = string

  /** avg: the recorded cost of a test, one for a test never recorded. */
  function Cost(records: map<Name, real>, n: Name): real {
    if n in records then records[n] else 1.0
  }

  /** The recorded times of these tests together, with one for a test never recorded. */
  function TimeOf(records: map<Name, real>, s: seq<Name>): real {
    if s == [] then 0.0
    else if s[0] in records then records[s[0]] + TimeOf(records, s[1..])
    else 1.0 + TimeOf(records, s[1..])
  }

  lemma {:induction false} TimeSnoc(records: map<Name, real>, s: seq<Name>, n: Name)
    ensures TimeOf(records, s + [n]) == TimeOf(records, s) + if n in records then records[n] else 1.0
  {
    if s == [] {
      assert s + [n] == [n] && [n][1..] == [];
    } else {
      assert (s + [n])[1..] == s[1..] + [n];
      TimeSnoc(records, s[1..], n);
    }
  }

  lemma {:induction false} SumCostIsTime(records: map<Name, real>, s: seq<Name>)
    ensures SumCost(records, s) == TimeOf(records, s)
  {
    if s != [] {
      var front := s[..|s| - 1];
      SumCostIsTime(records, front);
      TimeSnoc(records, front, s[|s| - 1]);
      assert s == front + [s[|s| - 1]];
    }
  }

  lemma {:induction false} TimesAreCosts(records: map<Name, real>, shards: seq<seq<Name>>, t: real)
    requires forall j :: 0 <= j < |shards| ==> TimeOf(records, shards[j]) <= t
    ensures CostsAtMost(records, shards, t)
  {
    forall j | 0 <= j < |shards| ensures SumCost(records, shards[j]) <= t {
      SumCostIsTime(records, shards[j]);
      assert TimeOf(records, shards[j]) <= t;
    }
  }

  /** Within Graham's bound means at most 4/3 - 1/(3m) times as much. */
  lemma {:induction false} GrahamPlainly(l: real, m: nat, t: real)
    requires m > 0
    ensures WithinGraham(l, m, t) <==> l <= (4.0 / 3.0 - 1.0 / (3.0 * m as real)) * t
  {
    var x := m as real;
    var bound := (4.0 / 3.0 - 1.0 / (3.0 * x)) * t;
    assert 3.0 * x * bound == (4.0 * x - 1.0) * t;
    if l <= bound {
      Product(3.0 * x, bound - l);
    } else {
      assert 3.0 * x * (l - bound) > 0.0;
    }
    assert 3.0 * x * (bound - l) == 3.0 * x * bound - 3.0 * x * l;
  }

  lemma {:induction false} NearlyOptimalPlainly(
    records: map<Name, real>, shards: seq<seq<Name>>, names: seq<Name>, m: nat)
    requires NearlyOptimal(records, shards, names) && |shards| == m
    ensures forall other: seq<seq<Name>>, t: real, i ::
      && |other| == m && multiset(Flatten(other)) == multiset(names) && 0 <= i < m
      && (forall j :: 0 <= j < m ==> TimeOf(records, other[j]) <= t)
      ==> WithinGraham(TimeOf(records, shards[i]), m, t)
  {
    forall other: seq<seq<Name>>, t: real, i |
      && |other| == m && multiset(Flatten(other)) == multiset(names) && 0 <= i < m
      && (forall j :: 0 <= j < m ==> TimeOf(records, other[j]) <= t)
      ensures WithinGraham(TimeOf(records, shards[i]), m, t)
    {
      TimesAreCosts(records, other, t);
      SumCostIsTime(records, shards[i]);
    }
  }

  function SumCost(records: map<Name, real>, s: seq<Name>): real {
    if s == [] then 0.0 else SumCost(records, s[..|s| - 1]) + Cost(records, s[|s| - 1])
  }

  function Costs(records: map<Name, real>, s: seq<Name>): (p: seq<real>)
    ensures |p| == |s| && forall k :: 0 <= k < |s| ==> p[k] == Cost(records, s[k])
  {
    seq(|s|, k requires 0 <= k < |s| => Cost(records, s[k]))
  }

  predicate Cheaper(records: map<Name, real>, a: Name, b: Name) {
    Cost(records, a) < Cost(records, b)
  }

  /** A placement of exactly these tests, each as often as it is listed. */
  ghost predicate Places(shards: seq<seq<Name>>, names: seq<Name>) {
    multiset(Flatten(shards)) == multiset(names)
  }

  lemma {:induction false} SumCostWithout(records: map<Name, real>, s: seq<Name>, k: nat)
    requires k < |s|
    ensures SumCost(records, s) == SumCost(records, Without(s, k)) + Cost(records, s[k])
  {
    var n := |s| - 1;
    var u := Without(s, k);
    if k == n {
      assert u == s[..n];
    } else {
      SumCostWithout(records, s[..n], k);
      assert u[..|u| - 1] == Without(s[..n], k) && u[|u| - 1] == s[n];
    }
  }

  /** Assignment g of names puts on every machine what the placement puts on it. */
  ghost predicate SameLoads(records: map<Name, real>, placement: seq<seq<Name>>, names: seq<Name>, g: seq<nat>) {
    && |g| == |names| && OnMachines(g, |placement|)
    && forall i :: 0 <= i < |placement| ==> Load(Costs(records, names), g, i) == SumCost(records, placement[i])
  }

  lemma {:induction false} Locate(placement: seq<seq<Name>>, names: seq<Name>, x: Name) returns (i: nat, k: nat)
    requires Places(placement, names) && x in names
    ensures i < |placement| && k < |placement[i]| && placement[i][k] == x
  {
    Sorting.SameMembers(Flatten(placement), names);
    FlattenMember(placement, x);
    var part :| part in placement && x in part;
    i :| 0 <= i < |placement| && placement[i] == part;
    k :| 0 <= k < |part| && part[k] == x;
  }

  lemma {:induction false} SameLoadsStep(
    records: map<Name, real>, placement: seq<seq<Name>>, names: seq<Name>, x: Name, g: seq<nat>, i: nat, k: nat)
    requires i < |placement| && k < |placement[i]| && placement[i][k] == x
    requires SameLoads(records, placement[i := Without(placement[i], k)], names, g)
    ensures SameLoads(records, placement, names + [x], g + [i])
  {
    var p, q := Costs(records, names + [x]), Costs(records, names);
    var rest := placement[i := Without(placement[i], k)];
    assert (g + [i])[..|g|] == g && p[..|q|] == q;
    SumCostWithout(records, placement[i], k);
    forall j | 0 <= j < |placement| ensures Load(p, g + [i], j) == SumCost(records, placement[j]) {
      LoadPrefix(p, q, g, j);
      assert Load(q, g, j) == SumCost(records, rest[j]);
    }
  }

  /** Every placement of the tests is an assignment of the list of tests with the same loads. */
  lemma {:induction false} AsAssignment(records: map<Name, real>, placement: seq<seq<Name>>, names: seq<Name>)
    returns (g: seq<nat>)
    requires Places(placement, names)
    ensures SameLoads(records, placement, names, g)
    decreases |names|
  {
    if names == [] {
      g := [];
      forall i | 0 <= i < |placement| ensures placement[i] == [] {
        EmptyParts(placement, i);
      }
    } else {
      var front, x := names[..|names| - 1], names[|names| - 1];
      assert names == front + [x];
      var i, k := Locate(placement, names, x);
      FlattenRemove(placement, i, k);
      var rest := placement[i := Without(placement[i], k)];
      assert multiset(Flatten(rest)) == multiset(names) - multiset{x} == multiset(front);
      g := AsAssignment(records, rest, front);
      SameLoadsStep(records, placement, front, x, g, i, k);
      g := g + [i];
    }
  }

  lemma {:induction false} EmptyParts<T>(ss: seq<seq<T>>, i: nat)
    requires i < |ss| && multiset(Flatten(ss)) == multiset{}
    ensures ss[i] == []
  {
    assert |Flatten(ss)| == |multiset(Flatten(ss))| == 0;
    if i > 0 {
      EmptyParts(ss[1..], i - 1);
    }
  }

  lemma {:induction false} LoadPrefix(p: seq<real>, q: seq<real>, a: seq<nat>, i: nat)
    requires |a| <= |q| <= |p| && p[..|q|] == q
    ensures Load(p, a, i) == Load(q, a, i)
  {
    if a != [] {
      LoadPrefix(p, q, a[..|a| - 1], i);
      assert p[..|q|][|a| - 1] == p[|a| - 1];
    }
  }

  /** The first shard of least total cost. */
  method ShortestShard(records: map<Name, real>, shards: seq<seq<Name>>) returns (s: nat)
    requires shards != []
    ensures s < |shards|
    ensures forall i :: 0 <= i < |shards| ==> SumCost(records, shards[s]) <= SumCost(records, shards[i])
    ensures forall i :: 0 <= i < s ==> SumCost(records, shards[s]) < SumCost(records, shards[i])
  {
    s := 0;
    for j := 1 to |shards|
      invariant s < j
      invariant forall i :: 0 <= i < j ==> SumCost(records, shards[s]) <= SumCost(records, shards[i])
      invariant forall i :: 0 <= i < s ==> SumCost(records, shards[s]) < SumCost(records, shards[i])
    {
      if SumCost(records, shards[j]) < SumCost(records, shards[s]) {
        s := j;
      }
    }
  }

  /** shards hold the first k tests of order, as assigned by a. */
  ghost predicate Holds(records: map<Name, real>, shards: seq<seq<Name>>, order: seq<Name>, a: seq<nat>) {
    && |a| <= |order| && OnMachines(a, |shards|) && Places(shards, order[..|a|])
    && forall i :: 0 <= i < |shards| ==> SumCost(records, shards[i]) == Load(Costs(records, order), a, i)
  }

  lemma {:induction false} HoldsStep(
    records: map<Name, real>, shards: seq<seq<Name>>, order: seq<Name>, a: seq<nat>, s: nat)
    requires Holds(records, shards, order, a) && |a| < |order| && s < |shards|
    ensures Holds(records, shards[s := shards[s] + [order[|a|]]], order, a + [s])
  {
    var x, a' := order[|a|], a + [s];
    var shards' := shards[s := shards[s] + [x]];
    assert order[..|a'|] == order[..|a|] + [x];
    FlattenSnoc(shards, s, x);
    assert Places(shards', order[..|a'|]);
    assert (shards[s] + [x])[..|shards[s]|] == shards[s];
    forall i | 0 <= i < |shards| ensures SumCost(records, shards'[i]) == Load(Costs(records, order), a', i) {
      LoadSnoc(Costs(records, order), a, s, i);
    }
  }

  lemma {:induction false} LoadSnoc(p: seq<real>, a: seq<nat>, s: nat, i: nat)
    requires |a| < |p|
    ensures Load(p, a + [s], i) == Load(p, a, i) + if s == i then p[|a|] else 0.0
  {
    assert (a + [s])[..|a|] == a;
  }

  lemma {:induction false} GreedyStepHolds(p: seq<real>, a: seq<nat>, m: nat, s: nat)
    requires |a| < |p| && Greedy(p, a, m) && s < m && Filled(p, a, m, Load(p, a, s))
    ensures Greedy(p, a + [s], m)
  {
    var a' := a + [s];
    assert forall k :: 0 <= k <= |a| ==> a'[..k] == a[..k];
    assert a[..|a|] == a;
  }

  function NewShards(m: nat): (s: seq<seq<Name>>)
    ensures |s| == m && Flatten(s) == [] && forall i :: 0 <= i < m ==> s[i] == []
  {
    if m == 0 then [] else [[]] + NewShards(m - 1)
  }

  /** A finished greedy schedule against any other placement of the same tests. */
  lemma {:induction false} NearOptimal(
    records: map<Name, real>, shards: seq<seq<Name>>, order: seq<Name>, a: seq<nat>,
    other: seq<seq<Name>>, t: real, i: nat)
    requires Holds(records, shards, order, a) && |a| == |order| && Greedy(Costs(records, order), a, |shards|)
    requires Descending(Costs(records, order)) && NonNegative(Costs(records, order))
    requires |other| == |shards| && Places(other, order) && i < |shards|
    requires CostsAtMost(records, other, t)
    ensures WithinGraham(SumCost(records, shards[i]), |shards|, t)
  {
    var g := AsAssignment(records, other, order);
    GrahamBound(Costs(records, order), a, g, |shards|, t, i);
  }

  datatype Result = Ok(shards: seq<seq<Name>>) | ValueError

  /** No shard of shards costs more than 4/3 - 1/(3m) times the most expensive one of any placement. */
  ghost predicate NearlyOptimal(records: map<Name, real>, shards: seq<seq<Name>>, names: seq<Name>) {
    forall other: seq<seq<Name>>, t: real, i ::
      |other| == |shards| && Places(other, names) && 0 <= i < |shards| && CostsAtMost(records, other, t) ==>
        WithinGraham(SumCost(records, shards[i]), |shards|, t)
  }

  ghost predicate CostsAtMost(records: map<Name, real>, shards: seq<seq<Name>>, t: real) {
    forall j :: 0 <= j < |shards| ==> SumCost(records, shards[j]) <= t
  }

  lemma {:induction false} DistributeStep(
    records: map<Name, real>, shards: seq<seq<Name>>, order: seq<Name>, a: seq<nat>, s: nat)
    requires Holds(records, shards, order, a) && |a| < |order| && s < |shards|
    requires Greedy(Costs(records, order), a, |shards|)
    requires forall i :: 0 <= i < |shards| ==> SumCost(records, shards[s]) <= SumCost(records, shards[i])
    ensures Holds(records, shards[s := shards[s] + [order[|a|]]], order, a + [s])
    ensures Greedy(Costs(records, order), a + [s], |shards|)
  {
    var p := Costs(records, order);
    assert Filled(p, a, |shards|, Load(p, a, s));
    GreedyStepHolds(p, a, |shards|, s);
    HoldsStep(records, shards, order, a, s);
  }

  /** The while loop of schedule: pop the most expensive test, append it to the shortest shard. */
  method Distribute(records: map<Name, real>, sorted: seq<Name>, m: nat)
    returns (shards: seq<seq<Name>>, ghost a: seq<nat>)
    requires m > 0
    ensures |shards| == m && |a| == |sorted|
    ensures Holds(records, shards, Reversed(sorted), a) && Greedy(Costs(records, Reversed(sorted)), a, m)
  {
    ghost var order := Reversed(sorted);
    ghost var p := Costs(records, order);
    var times := sorted;
    a := [];
    shards := NewShards(m);
    while times != []
      invariant |shards| == m && |times| + |a| == |sorted|
      invariant times == sorted[..|times|]
      invariant Holds(records, shards, order, a) && Greedy(p, a, m)
      decreases |times|
    {
      times, shards, a := Place(records, sorted, times, shards, a);
    }
  }

  /** One turn: the last test is popped and appended to the shortest shard. */
  method Place(
    records: map<Name, real>, ghost sorted: seq<Name>, times: seq<Name>, shards: seq<seq<Name>>, ghost a: seq<nat>)
    returns (times': seq<Name>, shards': seq<seq<Name>>, ghost a': seq<nat>)
    requires times != [] && shards != [] && |times| + |a| == |sorted| && times == sorted[..|times|]
    requires Holds(records, shards, Reversed(sorted), a) && Greedy(Costs(records, Reversed(sorted)), a, |shards|)
    ensures |shards'| == |shards| && |times'| == |times| - 1 && |a'| == |a| + 1
    ensures times' == sorted[..|times'|]
    ensures Holds(records, shards', Reversed(sorted), a') && Greedy(Costs(records, Reversed(sorted)), a', |shards|)
  {
    var name := times[|times| - 1];
    assert name == Reversed(sorted)[|a|];
    var s := ShortestShard(records, shards);
    DistributeStep(records, shards, Reversed(sorted), a, s);
    times' := times[..|times| - 1];
    shards' := shards[s := shards[s] + [name]];
    a' := a + [s];
  }

  /**
    schedule: the tests sorted by cost, then distributed.  Every listed test is placed exactly once,
    and with costs that are not negative the schedule is nearly optimal.  With no shards, min() of
    nothing is an error as soon as there is a test.
   */
  method Schedule(records: map<Name, real>, names: seq<Name>, m: nat) returns (res: Result)
    ensures res.ValueError? <==> m == 0 && names != []
    ensures res.Ok? ==> |res.shards| == m && Places(res.shards, names)
    ensures res.Ok? && (forall n :: n in names && n in records ==> records[n] >= 0.0) ==>
      && NearlyOptimal(records, res.shards, names)
      && forall other: seq<seq<Name>>, t: real, i ::
           && |other| == m && multiset(Flatten(other)) == multiset(names) && 0 <= i < m
           && (forall j :: 0 <= j < m ==> TimeOf(records, other[j]) <= t)
           ==> WithinGraham(TimeOf(records, res.shards[i]), m, t)
  {
    if m == 0 {
      res := if names == [] then Ok([]) else ValueError;
      return;
    }
    var less := (a, b) => Cheaper(records, a, b);
    var sorted := Sorting.Sort(names, less);
    var shards;
    ghost var a;
    shards, a := Distribute(records, sorted, m);
    ghost var order := Reversed(sorted);
    ReversedMultiset(sorted);
    Sorting.SameMembers(order, names);
    assert order[..|a|] == order;
    res := Ok(shards);
    assert Descending(Costs(records, order)) by {
      forall j, k | 0 <= j < k < |order| ensures Cost(records, order[j]) >= Cost(records, order[k]) {
        assert !less(sorted[|sorted| - 1 - j], sorted[|sorted| - 1 - k]);
      }
    }
    if forall n :: n in names && n in records ==> records[n] >= 0.0 {
      AgainstAll(records, shards, order, a, names);
      NearlyOptimalPlainly(records, shards, names, m);
    }
  }

  lemma {:induction false} AgainstAll(
    records: map<Name, real>, shards: seq<seq<Name>>, order: seq<Name>, a: seq<nat>, names: seq<Name>)
    requires Holds(records, shards, order, a) && |a| == |order| && Greedy(Costs(records, order), a, |shards|)
    requires Descending(Costs(records, order)) && multiset(order) == multiset(names)
    requires forall n :: n in order ==> Cost(records, n) >= 0.0
    ensures NearlyOptimal(records, shards, names)
  {
    forall other: seq<seq<Name>>, t: real, i |
      |other| == |shards| && Places(other, names) && 0 <= i < |shards| && CostsAtMost(records, other, t)
      ensures WithinGraham(SumCost(records, shards[i]), |shards|, t)
    {
      NearOptimal(records, shards, order, a, other, t, i);
    }
  }

  function Reversed<T>(s: seq<T>): (r: seq<T>)
    ensures |r| == |s| && forall k :: 0 <= k < |s| ==> r[k] == s[|s| - 1 - k]
  {
    seq(|s|, k requires 0 <= k < |s| => s[|s| - 1 - k])
  }

  lemma {:induction false} ReversedMultiset<T>(s: seq<T>)
    ensures multiset(Reversed(s)) == multiset(s)
  {
    if s != [] {
      var n := |s| - 1;
      ReversedMultiset(s[..n]);
      assert s == s[..n] + [s[n]];
      assert Reversed(s) == [s[n]] + Reversed(s[..n]);
    }
  }

  // ----- one schedule for all shards of a run ------------------------------------------------

  datatype Answer = Tests(tests: seq<Name>) | KeyError | NoShards

  datatype Made = Made(names: seq<Name>, records: map<Name, real>)

  ghost predicate Serves(shards: seq<seq<Name>>, made: Made) {
    && Places(shards, made.names)
    && ((forall n :: n in made.names && n in made.records ==> made.records[n] >= 0.0) ==>
      NearlyOptimal(made.records, shards, made.names))
  }

  /**
    The stored schedules, by test run and shard count.  The shards of a run ask independently, and the
    recorded costs may change between their requests.
   */
  class Service {
    var stored: map<(string, nat), seq<seq<Name>>>
    /** For each stored schedule the test list and the recorded costs it was made from. */
    ghost var made: map<(string, nat), Made>

    /** Every stored schedule places its tests, nearly optimally for the costs recorded then. */
    ghost predicate Valid()
      reads this
    {
      stored.Keys == made.Keys && forall k :: k in stored ==> |stored[k]| == k.1 && Serves(stored[k], made[k])
    }

    constructor ()
      ensures Valid() && stored == map[]
    {
      stored, made := map[], map[];
    }

    /** Other requests insert schedules; none is ever replaced. */
    method Interfere()
      requires Valid()
      modifies this
      ensures Valid()
      ensures forall k :: k in old(stored) ==> k in stored && stored[k] == old(stored)[k] && made[k] == old(made)[k]
    {
    }

    /** get_or_insert: atomic, and the first one stays. */
    method GetOrInsert(id: (string, nat), shards: seq<seq<Name>>, ghost origin: Made)
      requires Valid() && |shards| == id.1 && Serves(shards, origin)
      modifies this
      ensures Valid() && id in stored
      ensures forall k :: k in old(stored) ==> k in stored && stored[k] == old(stored)[k] && made[k] == old(made)[k]
    {
      if id !in stored {
        stored, made := stored[id := shards], made[id := origin];
      }
    }

    /**
      schedule, the request handler: whoever comes first decides, so all shards of a run answer from
      one and the same placement of the whole test list.
     */
    method Handle(run: string, m: nat, shard: nat, names: seq<Name>, records: map<Name, real>) returns (res: Answer)
      requires Valid()
      modifies this
      ensures Valid()
      ensures forall k :: k in old(stored) ==> k in stored && stored[k] == old(stored)[k] && made[k] == old(made)[k]
      ensures res.Tests? <==> shard < m
      ensures res.Tests? ==>
        && (run, m) in stored && Serves(stored[(run, m)], made[(run, m)]) && res.tests == stored[(run, m)][shard]
        && |stored[(run, m)]| == m && multiset(Flatten(stored[(run, m)])) == multiset(made[(run, m)].names)
    {
      Interfere();
      var id := (run, m);
      if id !in stored {
        var computed := Schedule(records, names, m);
        if computed.ValueError? {
          return NoShards;
        }
        Interfere();
        GetOrInsert(id, computed.shards, Made(names, records));
      }
      if shard >= m {
        return KeyError;
      }
      res := Tests(stored[id][shard]);
    }
  }
}
