/** ring/ring.go: routing keys to ingesters, and the ownership gauge. */
module Ring {
  import opened Options
  import opened RingDesc
  import opened Seqs
  import Sorting

  const MAX_UINT32 := 0xFFFF_FFFF

  // ----- routing --------------------------------------------------------------------------

  /** The index of the first token above key, the length if there is none. */
  function FirstAbove(ts: seq<TokenDesc>, key: uint32): (i: nat)
    ensures i <= |ts| && (i < |ts| ==> ts[i].token > key)
    ensures forall k :: 0 <= k < i ==> ts[k].token <= key
  {
    if ts == [] || ts[0].token > key then 0 else 1 + FirstAbove(ts[1..], key)
  }

  /** search: the next token around the ring. */
  function Successor(ts: seq<TokenDesc>, key: uint32): TokenDesc
    requires ts != []
  {
    var i := FirstAbove(ts, key);
    ts[if i < |ts| then i else 0]
  }

  function Owner(ts: seq<TokenDesc>, key: uint32): Id
    requires ts != []
  {
    Successor(ts, key).ingester
  }

  /** x is the nearest token above key, or the least of all when none is above. */
  ghost predicate Follows(ts: seq<TokenDesc>, key: uint32, x: TokenDesc) {
    && x in ts
    && (forall y :: y in ts && y.token > key ==> x.token > key && x.token <= y.token)
    && (x.token <= key ==> forall y :: y in ts ==> x.token <= y.token)
  }

  lemma {:induction false} SuccessorFollows(ts: seq<TokenDesc>, key: uint32)
    requires ts != [] && Sorted(ts)
    ensures Follows(ts, key, Successor(ts, key))
  {
    var i := FirstAbove(ts, key);
    forall y | y in ts ensures
      (y.token > key ==> i < |ts| && ts[i].token <= y.token) && ts[0].token <= y.token
    {
      var k :| 0 <= k < |ts| && ts[k] == y;
      assert k > 0 ==> !TokenLess(ts[k], ts[0]);
      assert k > i ==> !TokenLess(ts[k], ts[i]);
    }
  }

  lemma {:induction false} FollowsUnique(ts: seq<TokenDesc>, key: uint32, x: TokenDesc, y: TokenDesc)
    requires Clean(ts) && Follows(ts, key, x) && Follows(ts, key, y)
    ensures x == y
  {
    assert x.token == y.token;
  }

  /** What follows key in a larger ring follows it in the smaller one, if it is there. */
  lemma {:induction false} FollowsInPart(part: seq<TokenDesc>, ts: seq<TokenDesc>, key: uint32, x: TokenDesc)
    requires Follows(ts, key, x) && x in part && forall y :: y in part ==> y in ts
    ensures Follows(part, key, x)
  {
  }

  /** Between two clean sorted rings, one inside the other, a key moves only from or to a token that only one has. */
  lemma {:induction false} OwnerInPart(part: seq<TokenDesc>, ts: seq<TokenDesc>, key: uint32)
    requires part != [] && Sorted(part) && Sorted(ts) && Clean(ts)
    requires forall y :: y in part ==> y in ts
    ensures ts != []
    ensures Successor(ts, key) in part ==> Successor(part, key) == Successor(ts, key)
  {
    assert part[0] in ts;
    SuccessorFollows(ts, key);
    SuccessorFollows(part, key);
    var x := Successor(ts, key);
    if x in part {
      FollowsInPart(part, ts, key, x);
      FollowsUnique(part, key, x, Successor(part, key));
    }
  }

  /** Adding an ingester with tokens of its own moves keys to the newcomer only. */
  lemma {:induction false} AddMovesToNewcomer(
    d: Desc, id: Id, hostname: string, now: int, toks: seq<uint32>, d': Desc, key: uint32)
    requires d.tokens != [] && Sorted(d.tokens) && Clean(d.tokens) && Added(d, id, hostname, now, toks, d')
    requires forall x, t :: x in d.tokens && t in toks ==> x.token != t
    ensures d'.tokens != []
    ensures Owner(d'.tokens, key) == Owner(d.tokens, key) || Owner(d'.tokens, key) == id
  {
    AddedMembers(d, id, hostname, now, toks, d');
    AddedClean(d, id, hostname, now, toks, d');
    OwnerInPart(d.tokens, d'.tokens, key);
    SuccessorFollows(d'.tokens, key);
  }

  /** Removing an ingester moves only the keys it held. */
  lemma {:induction false} RemoveMovesOwnKeys(d: Desc, id: Id, toks: seq<uint32>, key: uint32)
    requires Sorted(d.tokens) && Clean(d.tokens) && TokensOf(d.tokens, id) == TokensFor(id, toks)
    requires Removed(d, id, toks).tokens != []
    ensures d.tokens != []
    ensures Owner(d.tokens, key) != id ==> Owner(Removed(d, id, toks).tokens, key) == Owner(d.tokens, key)
    ensures Owner(Removed(d, id, toks).tokens, key) != id
  {
    var rest := Removed(d, id, toks).tokens;
    StripOwn(d.tokens, id, toks);
    FilterMembers(d.tokens, NotMine(id));
    FilterSorted(d.tokens, NotMine(id));
    OwnerInPart(rest, d.tokens, key);
    SuccessorFollows(d.tokens, key);
    SuccessorFollows(rest, key);
  }

  /** Go's zero value, which a map lookup yields for a missing key. */
  const ZERO := IngesterDesc("", 0)

  /** Get: ErrEmptyRing, or the entry of the owner. */
  function Route(d: Desc, key: uint32): Option<IngesterDesc> {
    if d.tokens == [] then None
    else
      var id := Owner(d.tokens, key);
      Some(if id in d.ingesters then d.ingesters[id] else ZERO)
  }

  /** On a ring whose tokens are registered, a key is routed to an entry of the map, never the zero value. */
  lemma {:induction false} RouteRegistered(d: Desc, key: uint32)
    requires Registered(d) && d.tokens != []
    ensures exists id :: id in d.ingesters && Route(d, key) == Some(d.ingesters[id]) && Owner(d.tokens, key) == id
  {
    assert Successor(d.tokens, key) in d.tokens;
    assert Owner(d.tokens, key) in d.ingesters;
  }

  /**
    What Get returns, in plain terms: the entry of the ingester of a token x that is the nearest above the
    key or, if none is above, the least of all; Go's zero value if that ingester has no entry.
   */
  lemma {:induction false} RouteMeans(d: Desc, key: uint32) returns (x: TokenDesc)
    requires Sorted(d.tokens) && d.tokens != []
    ensures x in d.tokens
    ensures forall y :: y in d.tokens && y.token > key ==> x.token > key && x.token <= y.token
    ensures x.token <= key ==> forall y :: y in d.tokens ==> x.token <= y.token
    ensures x.ingester in d.ingesters ==> Route(d, key) == Some(d.ingesters[x.ingester])
    ensures x.ingester !in d.ingesters ==> Route(d, key) == Some(IngesterDesc("", 0))
  {
    x := Successor(d.tokens, key);
    SuccessorFollows(d.tokens, key);
  }

  /** Token i is the first of its value. */
  predicate FirstOfRun(ts: seq<TokenDesc>, i: nat)
    requires i < |ts|
  {
    i == 0 || ts[i - 1].token < ts[i].token
  }

  /** The tokens that own keys are the first of their value. */
  lemma {:induction false} OwnersAreFirst(ts: seq<TokenDesc>, key: uint32) returns (i: nat)
    requires Sorted(ts) && ts != []
    ensures i < |ts| && FirstOfRun(ts, i) && Successor(ts, key) == ts[i]
  {
    i := FirstAbove(ts, key);
    if i == |ts| {
      i := 0;
    }
  }

  /** ... and each of them owns some key. */
  lemma {:induction false} FirstOwnsKey(ts: seq<TokenDesc>, i: nat) returns (key: uint32)
    requires Sorted(ts) && i < |ts| && FirstOfRun(ts, i)
    ensures Successor(ts, key) == ts[i]
  {
    key := if i == 0 then MAX_UINT32 else ts[i - 1].token;
    var j := FirstAbove(ts, key);
    if i > 0 {
      assert j < i ==> !TokenLess(ts[i - 1], ts[j]);
    }
  }

  /** Exactly when every key is routed to a registered ingester: when the first token of every value is registered. */
  lemma {:induction false} RouteExactly(d: Desc)
    requires Sorted(d.tokens) && d.tokens != []
    ensures (forall key: uint32 :: Owner(d.tokens, key) in d.ingesters) <==>
            forall i :: 0 <= i < |d.tokens| && FirstOfRun(d.tokens, i) ==> d.tokens[i].ingester in d.ingesters
  {
    if forall key: uint32 :: Owner(d.tokens, key) in d.ingesters {
      forall i | 0 <= i < |d.tokens| && FirstOfRun(d.tokens, i) ensures d.tokens[i].ingester in d.ingesters {
        var key := FirstOwnsKey(d.tokens, i);
        assert Owner(d.tokens, key) in d.ingesters;
      }
    }
    if forall i :: 0 <= i < |d.tokens| && FirstOfRun(d.tokens, i) ==> d.tokens[i].ingester in d.ingesters {
      forall key: uint32 ensures Owner(d.tokens, key) in d.ingesters {
        var i := OwnersAreFirst(d.tokens, key);
      }
    }
  }

  // ----- ownership ------------------------------------------------------------------------

  /** The stretch from token i to the next one, in exact arithmetic. */
  function Stretch(ts: seq<TokenDesc>, i: nat): int
    requires i < |ts|
  {
    if i + 1 == |ts| then MAX_UINT32 - ts[i].token + ts[0].token else ts[i + 1].token - ts[i].token
  }

  function StretchSum(ts: seq<TokenDesc>, n: nat): int
    requires n <= |ts|
  {
    if n == 0 then 0 else StretchSum(ts, n - 1) + Stretch(ts, n - 1)
  }

  /** What the first n tokens give to id, in exact arithmetic. */
  function OwnedBy(ts: seq<TokenDesc>, id: Id, n: nat): int
    requires n <= |ts|
  {
    if n == 0 then 0 else OwnedBy(ts, id, n - 1) + if ts[n - 1].ingester == id then Stretch(ts, n - 1) else 0
  }

  lemma {:induction false} StretchesTelescope(ts: seq<TokenDesc>, n: nat)
    requires Sorted(ts) && 0 < n <= |ts|
    ensures StretchSum(ts, n) == if n == |ts| then MAX_UINT32 else ts[n].token - ts[0].token
    ensures forall i :: 0 <= i < n ==> Stretch(ts, i) >= 0
  {
    if n > 1 {
      StretchesTelescope(ts, n - 1);
    }
    assert n < |ts| ==> !TokenLess(ts[n], ts[n - 1]);
  }

  /** The ingester of the last token at or before p, going backwards around the ring. */
  function HolderAt(ts: seq<TokenDesc>, p: uint32): Id
    requires ts != []
  {
    var i := FirstAbove(ts, p);
    ts[if i == 0 then |ts| - 1 else i - 1].ingester
  }

  /** How many of the points 0 to n - 1 id holds. */
  function PointsHeld(ts: seq<TokenDesc>, id: Id, n: uint32): nat
    requires ts != []
  {
    if n == 0 then 0 else PointsHeld(ts, id, n - 1) + if HolderAt(ts, n - 1) == id then 1 else 0
  }

  lemma {:induction false} HeldAlong(ts: seq<TokenDesc>, id: Id, a: uint32, b: uint32, holder: Id)
    requires ts != [] && a <= b && forall p: uint32 :: a <= p < b ==> HolderAt(ts, p) == holder
    ensures PointsHeld(ts, id, b) == PointsHeld(ts, id, a) + if holder == id then b - a else 0
    decreases b
  {
    if a < b {
      HeldAlong(ts, id, a, b - 1, holder);
    }
  }

  lemma {:induction false} HolderBetween(ts: seq<TokenDesc>, i: nat, p: uint32)
    requires Sorted(ts) && i < |ts| && ts[i].token <= p && (i + 1 < |ts| ==> p < ts[i + 1].token)
    ensures HolderAt(ts, p) == ts[i].ingester
  {
    assert forall k :: 0 <= k < i ==> !TokenLess(ts[i], ts[k]);
  }

  lemma {:induction false} HolderBefore(ts: seq<TokenDesc>, p: uint32)
    requires ts != [] && p < ts[0].token
    ensures HolderAt(ts, p) == ts[|ts| - 1].ingester
  {
  }

  lemma {:induction false} HeldUpTo(ts: seq<TokenDesc>, id: Id, n: nat)
    requires Sorted(ts) && n < |ts|
    ensures PointsHeld(ts, id, ts[n].token) ==
            OwnedBy(ts, id, n) + if ts[|ts| - 1].ingester == id then ts[0].token else 0
  {
    if n == 0 {
      forall p: uint32 | 0 <= p < ts[0].token ensures HolderAt(ts, p) == ts[|ts| - 1].ingester {
        HolderBefore(ts, p);
      }
      HeldAlong(ts, id, 0, ts[0].token, ts[|ts| - 1].ingester);
    } else {
      HeldUpTo(ts, id, n - 1);
      assert !TokenLess(ts[n], ts[n - 1]);
      forall p: uint32 | ts[n - 1].token <= p < ts[n].token ensures HolderAt(ts, p) == ts[n - 1].ingester {
        HolderBetween(ts, n - 1, p);
      }
      HeldAlong(ts, id, ts[n - 1].token, ts[n].token, ts[n - 1].ingester);
    }
  }

  /** What the gauge measures: the points whose preceding token is the ingester's (Get goes to the next token). */
  lemma {:induction false} OwnershipCounts(ts: seq<TokenDesc>, id: Id)
    requires Sorted(ts) && ts != []
    ensures OwnedBy(ts, id, |ts|) == PointsHeld(ts, id, 0xFFFF_FFFF)
  {
    var n := |ts| - 1;
    HeldUpTo(ts, id, n);
    forall p: uint32 | ts[n].token <= p < 0xFFFF_FFFF ensures HolderAt(ts, p) == ts[n].ingester {
      HolderBetween(ts, n, p);
    }
    HeldAlong(ts, id, ts[n].token, 0xFFFF_FFFF, ts[n].ingester);
  }

  ghost function MapSum(m: map<Id, uint32>): int {
    if m == map[] then 0
    else
      var k :| k in m;
      m[k] + MapSum(m - {k})
  }

  lemma {:induction false} MapSumRemove(m: map<Id, uint32>, k: Id)
    requires k in m
    ensures MapSum(m) == m[k] + MapSum(m - {k})
    decreases m
  {
    var c :| c in m && MapSum(m) == m[c] + MapSum(m - {c});
    if c != k {
      MapSumRemove(m - {c}, k);
      MapSumRemove(m - {k}, c);
      assert m - {c} - {k} == m - {k} - {c};
    }
  }

  lemma {:induction false} MapSumBounds(m: map<Id, uint32>)
    ensures forall k :: k in m ==> m[k] <= MapSum(m)
    ensures MapSum(m) >= 0
    decreases m
  {
    if m != map[] {
      var c :| c in m;
      MapSumBounds(m - {c});
      MapSumRemove(m, c);
      forall k | k in m ensures m[k] <= MapSum(m) {
        if k != c {
          assert k in m - {c} && (m - {c})[k] == m[k];
        }
      }
    }
  }

  lemma {:induction false} MapSumUpdate(m: map<Id, uint32>, k: Id, v: uint32)
    ensures MapSum(m[k := v]) == MapSum(m) - (if k in m then m[k] else 0) + v
  {
    var m' := m[k := v];
    MapSumRemove(m', k);
    assert m' - {k} == m - {k};
    if k in m {
      MapSumRemove(m, k);
    } else {
      assert m - {k} == m;
    }
  }

  /** uint32 addition and subtraction, which wrap around. */
  function Add32(a: uint32, b: uint32): uint32 {
    var sum: int := a as int + b as int;
    if sum <= MAX_UINT32 then sum else sum - 0x1_0000_0000
  }

  function Sub32(a: uint32, b: uint32): uint32 {
    if a >= b then a - b else 0x1_0000_0000 + a as int - b as int
  }

  // ----- the distributor's view -------------------------------------------------------------

  /** One answer to a long poll of the key: its index and the raw value, None for a missing key. */
  datatype Poll<+R> = Failed | Answered(lastIndex: nat, raw: Option<R>)

  /** Consul's promise: the same index means the same value, and a key that exists has an index above 0. */
  ghost predicate Consistent<R(!new)>(polls: seq<Poll<R>>) {
    && (forall i :: 0 <= i < |polls| && polls[i].Answered? && polls[i].lastIndex == 0 ==> polls[i].raw.None?)
    && (forall i, j :: 0 <= i < j < |polls| ==> Agree(polls[i], polls[j]))
  }

  ghost predicate Agree<R(!new)>(p: Poll<R>, q: Poll<R>) {
    p.Answered? && q.Answered? && p.lastIndex == q.lastIndex ==> p.raw == q.raw
  }

  /** A view after one more poll: replaced by a value that decodes, otherwise left alone. */
  function Seen<R>(view: Desc, poll: Poll<R>, decode: R -> Option<Desc>): Desc {
    if poll.Answered? && poll.raw.Some? && decode(poll.raw.value).Some? then decode(poll.raw.value).value else view
  }

  /** A view after polls none of which is skipped. */
  function Latest<R>(view: Desc, polls: seq<Poll<R>>, decode: R -> Option<Desc>): Desc {
    if polls == [] then view
    else Seen(Latest(view, polls[..|polls| - 1], decode), polls[|polls| - 1], decode)
  }

  /** The last poll that found a value which decodes decides; without one the view stays. */
  lemma {:induction false} LatestMeans<R>(view: Desc, polls: seq<Poll<R>>, decode: R -> Option<Desc>, i: nat)
    requires i <= |polls|
    requires forall k :: i <= k < |polls| ==>
      polls[k].Failed? || polls[k].raw.None? || decode(polls[k].raw.value).None?
    ensures i == 0 ==> Latest(view, polls, decode) == view
    ensures i > 0 && polls[i - 1].Answered? && polls[i - 1].raw.Some? && decode(polls[i - 1].raw.value).Some? ==>
      Latest(view, polls, decode) == decode(polls[i - 1].raw.value).value
  {
    if i < |polls| {
      LatestMeans(view, polls[..|polls| - 1], decode, i);
    }
  }

  class RingView {
    var ringDesc: Desc

    constructor ()
      ensures ringDesc == NewDesc()
    {
      ringDesc := NewDesc();
    }

    /**
      WatchKey with the callback of loop.  Polls with the index of the one before are skipped, and nothing
      is lost by that: the view is what it would be if every poll were looked at.
     */
    method WatchKey<R(!new)>(polls: seq<Poll<R>>, decode: R -> Option<Desc>)
      requires Consistent(polls)
      modifies this
      ensures ringDesc == Latest(old(ringDesc), polls, decode)
    {
      var index: nat := 0;
      for i := 0 to |polls|
        invariant ringDesc == Latest(old(ringDesc), polls[..i], decode)
        invariant index > 0 ==> exists k ::
          && 0 <= k < i && polls[k].Answered? && polls[k].lastIndex == index
          && Seen(ringDesc, polls[k], decode) == ringDesc
      {
        assert polls[..i + 1][..i] == polls[..i];
        if polls[i].Answered? && index != polls[i].lastIndex {
          index := polls[i].lastIndex;
          if polls[i].raw.Some? {
            var value := decode(polls[i].raw.value);
            if value.Some? {
              ringDesc := value.value;
            }
          }
          assert Seen(ringDesc, polls[i], decode) == ringDesc;
        }
      }
      assert polls[..|polls|] == polls;
    }

    /** search: binary search with wrap-around. */
    method Search(key: uint32) returns (i: nat)
      requires Sorted(ringDesc.tokens) && ringDesc.tokens != []
      ensures i < |ringDesc.tokens| && ringDesc.tokens[i] == Successor(ringDesc.tokens, key)
    {
      var ts := ringDesc.tokens;
      forall a, b | 0 <= a < b < |ts| && ts[a].token > key ensures ts[b].token > key {
        assert !TokenLess(ts[b], ts[a]);
      }
      var above := (x: nat) => x < |ts| ==> ts[x].token > key;
      i := Sorting.Search(|ts|, above);
      ghost var j := FirstAbove(ts, key);
      assert j < |ts| ==> above(j);
      assert i < |ts| ==> above(i);
      if i >= |ts| {
        i := 0;
      }
    }

    method Get(key: uint32) returns (res: Option<IngesterDesc>)
      requires Sorted(ringDesc.tokens)
      ensures res == Route(ringDesc, key)
    {
      if |ringDesc.tokens| == 0 {
        return None;
      }
      var i := Search(key);
      var id := ringDesc.tokens[i].ingester;
      res := Some(if id in ringDesc.ingesters then ringDesc.ingesters[id] else ZERO);
    }

    /**
      Collect: each ingester's share, summed in uint32.  On a nonempty sorted ring no operation
      wraps, and the shares add up to exactly MaxUint32.
     */
    method Collect() returns (owned: map<Id, uint32>)
      requires Sorted(ringDesc.tokens)
      ensures forall id :: id in owned <==> exists x :: x in ringDesc.tokens && x.ingester == id
      ensures forall id :: id in owned ==> owned[id] == OwnedBy(ringDesc.tokens, id, |ringDesc.tokens|)
      ensures ringDesc.tokens != [] ==>
        forall id :: id in owned ==> owned[id] == PointsHeld(ringDesc.tokens, id, 0xFFFF_FFFF)
      ensures ringDesc.tokens != [] ==> MapSum(owned) == 0xFFFF_FFFF
    {
      var ts := ringDesc.tokens;
      owned := map[];
      for i := 0 to |ts|
        invariant Shares(ts, owned, i)
      {
        var id := ts[i].ingester;
        ShareStep(ts, owned, i);
        var diff := StretchOf(ts, i);
        owned := owned[id := Add32(Share(owned, id), diff)];
      }
      SharesDone(ts, owned);
      if ts != [] {
        forall id | id in owned ensures owned[id] == PointsHeld(ts, id, 0xFFFF_FFFF) {
          OwnershipCounts(ts, id);
        }
      }
    }
  }

  /** diff, in uint32 arithmetic. */
  function StretchOf(ts: seq<TokenDesc>, i: nat): uint32
    requires i < |ts|
  {
    if i + 1 == |ts| then Add32(Sub32(MAX_UINT32, ts[i].token), ts[0].token)
    else Sub32(ts[i + 1].token, ts[i].token)
  }

  /** The ingesters of the first n tokens. */
  function Holders(ts: seq<TokenDesc>, n: nat): set<Id>
    requires n <= |ts|
  {
    if n == 0 then {} else Holders(ts, n - 1) + {ts[n - 1].ingester}
  }

  /** The shares after the first n tokens. */
  ghost predicate Shares(ts: seq<TokenDesc>, owned: map<Id, uint32>, n: nat)
    requires n <= |ts|
  {
    owned.Keys == Holders(ts, n) && SharesExact(ts, owned, n) && MapSum(owned) == StretchSum(ts, n)
  }

  ghost predicate SharesExact(ts: seq<TokenDesc>, owned: map<Id, uint32>, n: nat)
    requires n <= |ts|
  {
    forall id :: OwnedBy(ts, id, n) == Share(owned, id)
  }

  function Share(owned: map<Id, uint32>, id: Id): uint32 {
    if id in owned then owned[id] else 0
  }

  /** No operation of Collect's loop body wraps. */
  lemma {:induction false} NoWrap(ts: seq<TokenDesc>, owned: map<Id, uint32>, i: nat)
    requires Sorted(ts) && i < |ts| && MapSum(owned) == StretchSum(ts, i)
    ensures Stretch(ts, i) == StretchOf(ts, i)
    ensures Share(owned, ts[i].ingester) + StretchOf(ts, i) == Add32(Share(owned, ts[i].ingester), StretchOf(ts, i))
  {
    StretchesTelescope(ts, i + 1);
    assert i > 0 ==> !TokenLess(ts[i], ts[0]);
    assert i + 1 < |ts| ==> !TokenLess(ts[i + 1], ts[0]);
    MapSumBounds(owned);
  }

  lemma {:induction false} ShareStep(ts: seq<TokenDesc>, owned: map<Id, uint32>, i: nat)
    requires Sorted(ts) && i < |ts| && Shares(ts, owned, i)
    ensures Shares(ts, owned[ts[i].ingester := Add32(Share(owned, ts[i].ingester), StretchOf(ts, i))], i + 1)
  {
    NoWrap(ts, owned, i);
    var id := ts[i].ingester;
    var v := Add32(Share(owned, id), StretchOf(ts, i));
    MapSumUpdate(owned, id, v);
    var owned' := owned[id := v];
    forall x ensures OwnedBy(ts, x, i + 1) == Share(owned', x) {
      assert OwnedBy(ts, x, i) == Share(owned, x);
    }
  }

  lemma {:induction false} HoldersAre(ts: seq<TokenDesc>, n: nat, id: Id)
    requires n <= |ts|
    ensures id in Holders(ts, n) <==> exists x :: x in ts[..n] && x.ingester == id
  {
    if n > 0 {
      HoldersAre(ts, n - 1, id);
      assert ts[..n] == ts[..n - 1] + [ts[n - 1]];
    }
  }

  lemma {:induction false} SharesDone(ts: seq<TokenDesc>, owned: map<Id, uint32>)
    requires Sorted(ts) && Shares(ts, owned, |ts|)
    ensures forall id :: id in owned <==> exists x :: x in ts && x.ingester == id
    ensures forall id :: id in owned ==> owned[id] == OwnedBy(ts, id, |ts|)
    ensures ts != [] ==> MapSum(owned) == MAX_UINT32
  {
    if ts != [] {
      StretchesTelescope(ts, |ts|);
    }
    assert ts[..|ts|] == ts;
    forall id ensures id in owned <==> exists x :: x in ts && x.ingester == id {
      HoldersAre(ts, |ts|, id);
    }
    forall id | id in owned ensures owned[id] == OwnedBy(ts, id, |ts|) {
      assert OwnedBy(ts, id, |ts|) == Share(owned, id);
    }
  }

  // ----- picking tokens ---------------------------------------------------------------------

  function Untaken(taken: seq<uint32>): uint32 -> bool {
    (t: uint32) => t !in taken
  }

  /** The clash test of generateTokens: a binary search in the taken tokens. */
  method IsTaken(taken: seq<uint32>, candidate: uint32) returns (clash: bool)
    requires Ascending(taken)
    ensures clash <==> candidate in taken
  {
    var reached := (x: nat) => x < |taken| ==> taken[x] >= candidate;
    var j := Sorting.Search(|taken|, reached);
    forall k | 0 <= k < |taken| ensures taken[k] >= candidate <==> j <= k {
      assert reached(k) <==> j <= k;
    }
    clash := j < |taken| && taken[j] == candidate;
  }

  /** The drawing loop: candidates that clash are dropped. */
  method Draw(n: nat, taken: seq<uint32>, draws: seq<uint32>) returns (tokens: seq<uint32>, pos: nat)
    requires Ascending(taken)
    ensures pos <= |draws| && tokens == Filter(draws[..pos], Untaken(taken))
    ensures |tokens| == n || (|tokens| < n && pos == |draws|)
  {
    tokens, pos := [], 0;
    while |tokens| < n && pos < |draws|
      invariant pos <= |draws| && |tokens| <= n
      invariant tokens == Filter(draws[..pos], Untaken(taken))
    {
      var candidate := draws[pos];
      var clash := IsTaken(taken, candidate);
      assert draws[..pos + 1] == draws[..pos] + [candidate];
      FilterConcat(draws[..pos], [candidate], Untaken(taken));
      if clash {
        FilterNone([candidate], Untaken(taken));
      } else {
        FilterAll([candidate], Untaken(taken));
        tokens := tokens + [candidate];
      }
      pos := pos + 1;
    }
  }

  /**
    generateTokens, from a given stream of random draws: the first n draws that clash with no taken
    token, sorted.  It is still drawing when the stream ends before.
   */
  method GenerateTokens(n: nat, taken: seq<uint32>, draws: seq<uint32>) returns (res: Option<seq<uint32>>)
    requires Ascending(taken)
    ensures res.Some? <==> |Filter(draws, Untaken(taken))| >= n
    ensures res.Some? ==> Ascending(res.value) && multiset(res.value) == multiset(Filter(draws, Untaken(taken))[..n])
    ensures res.Some? ==> |res.value| == n && forall t :: t in res.value ==> t !in taken
  {
    var tokens, pos := Draw(n, taken, draws);
    assert draws == draws[..pos] + draws[pos..];
    FilterConcat(draws[..pos], draws[pos..], Untaken(taken));
    if |tokens| < n {
      return None;
    }
    FilterMembers(draws[..pos], Untaken(taken));
    var sorted := Sorting.Sort(tokens, (a: uint32, b: uint32) => a < b);
    Sorting.SameMembers(sorted, tokens);
    assert Filter(draws, Untaken(taken))[..n] == tokens;
    res := Some(sorted);
  }
}
