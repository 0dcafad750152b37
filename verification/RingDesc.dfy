/** ring/model.go: the ring as stored in Consul, and how ingesters enter and leave it. */
module RingDesc {
  import opened Seqs
  import Sorting

  type uint32 = x: int | 0 <= x < 0x1_0000_0000
  type Id = string

  datatype IngesterDesc = IngesterDesc(hostname: string, timestamp: int)

  datatype TokenDesc = TokenDesc(token: uint32, ingester: Id)

  datatype Desc = Desc(ingesters: map<Id, IngesterDesc>, tokens: seq<TokenDesc>)

  function NewDesc(): Desc {
    Desc(map[], [])
  }

  predicate TokenLess(a: TokenDesc, b: TokenDesc) {
    a.token < b.token
  }

  ghost predicate Sorted(ts: seq<TokenDesc>) {
    Sorting.Ordered(ts, TokenLess)
  }

  /** No token value belongs to two ingesters. */
  ghost predicate Clean(ts: seq<TokenDesc>) {
    forall x, y :: x in ts && y in ts && x.token == y.token ==> x == y
  }

  /** Every token's ingester is in the map. */
  ghost predicate Registered(d: Desc) {
    forall x :: x in d.tokens ==> x.ingester in d.ingesters
  }

  ghost predicate Ascending(toks: seq<uint32>) {
    forall i, j :: 0 <= i < j < |toks| ==> toks[i] <= toks[j]
  }

  function TokensFor(id: Id, toks: seq<uint32>): (ts: seq<TokenDesc>)
    ensures |ts| == |toks| && forall i :: 0 <= i < |toks| ==> ts[i] == TokenDesc(toks[i], id)
  {
    seq(|toks|, i requires 0 <= i < |toks| => TokenDesc(toks[i], id))
  }

  /** How often a token occurs among those of one ingester. */
  lemma {:induction false} TokensForCount(id: Id, toks: seq<uint32>, x: TokenDesc)
    ensures multiset(TokensFor(id, toks))[x] == if x.ingester == id then multiset(toks)[x.token] else 0
  {
    if toks != [] {
      var front, t := toks[..|toks| - 1], toks[|toks| - 1];
      TokensForCount(id, front, x);
      assert toks == front + [t] && TokensFor(id, toks) == TokensFor(id, front) + [TokenDesc(t, id)];
    }
  }

  function Mine(id: Id): TokenDesc -> bool {
    (x: TokenDesc) => x.ingester == id
  }

  function NotMine(id: Id): TokenDesc -> bool {
    (x: TokenDesc) => x.ingester != id
  }

  /** The tokens stored under id, in ring order. */
  function TokensOf(ts: seq<TokenDesc>, id: Id): seq<TokenDesc> {
    Filter(ts, Mine(id))
  }

  /** The tokens of everybody else. */
  function OthersThan(ts: seq<TokenDesc>, id: Id): seq<TokenDesc> {
    Filter(ts, NotMine(id))
  }

  // ----- removeIngester's walk over two sorted lists -----------------------------------

  function Strip(ts: seq<TokenDesc>, toks: seq<uint32>): seq<TokenDesc>
    decreases |ts| + |toks|
  {
    if ts == [] || toks == [] then ts
    else if ts[0].token < toks[0] then [ts[0]] + Strip(ts[1..], toks)
    else if ts[0].token > toks[0] then Strip(ts, toks[1..])
    else Strip(ts[1..], toks[1..])
  }

  lemma {:induction false} StripMembers(ts: seq<TokenDesc>, toks: seq<uint32>)
    ensures forall x :: x in Strip(ts, toks) ==> x in ts
    decreases |ts| + |toks|
  {
    if ts != [] && toks != [] {
      if ts[0].token < toks[0] {
        StripMembers(ts[1..], toks);
      } else if ts[0].token > toks[0] {
        StripMembers(ts, toks[1..]);
      } else {
        StripMembers(ts[1..], toks[1..]);
      }
    }
  }

  /** Whatever the token list, what is left of a sorted ring is sorted. */
  lemma {:induction false} StripSorted(ts: seq<TokenDesc>, toks: seq<uint32>)
    requires Sorted(ts)
    ensures Sorted(Strip(ts, toks))
    decreases |ts| + |toks|
  {
    if ts != [] && toks != [] {
      if ts[0].token < toks[0] {
        StripSorted(ts[1..], toks);
        StripMembers(ts[1..], toks);
        var rest := Strip(ts[1..], toks);
        forall j | 0 <= j < |rest| ensures !TokenLess(rest[j], ts[0]) {
          assert rest[j] in ts[1..];
        }
      } else if ts[0].token > toks[0] {
        StripSorted(ts, toks[1..]);
      } else {
        StripSorted(ts[1..], toks[1..]);
      }
    }
  }

  // ----- what the walk removes, without the walk ----------------------------------------

  /** What is left when every value in bag pays for one token, the first ones first. */
  function Spend(ts: seq<TokenDesc>, bag: multiset<uint32>): seq<TokenDesc> {
    if ts == [] then []
    else if ts[0].token in bag then Spend(ts[1..], bag - multiset{ts[0].token})
    else [ts[0]] + Spend(ts[1..], bag)
  }

  lemma {:induction false} SpendUnused(ts: seq<TokenDesc>, bag: multiset<uint32>, v: uint32)
    requires forall x :: x in ts ==> x.token != v
    ensures Spend(ts, bag + multiset{v}) == Spend(ts, bag)
  {
    if ts != [] {
      var x := ts[0];
      assert x in ts;
      if x.token in bag {
        assert bag + multiset{v} - multiset{x.token} == bag - multiset{x.token} + multiset{v};
        SpendUnused(ts[1..], bag - multiset{x.token}, v);
      } else {
        SpendUnused(ts[1..], bag, v);
      }
    }
  }

  lemma {:induction false} SpendNothing(ts: seq<TokenDesc>)
    ensures Spend(ts, multiset{}) == ts
  {
    if ts != [] {
      SpendNothing(ts[1..]);
    }
  }

  lemma {:induction false} FirstIsLeast(ts: seq<TokenDesc>)
    requires Sorted(ts) && ts != []
    ensures forall x :: x in ts ==> ts[0].token <= x.token
  {
    forall x | x in ts ensures ts[0].token <= x.token {
      var k :| 0 <= k < |ts| && ts[k] == x;
      assert k > 0 ==> !TokenLess(ts[k], ts[0]);
    }
  }

  /** On sorted lists the walk removes, for each value, as many of its first tokens as the list asks for. */
  lemma {:induction false} StripSpends(ts: seq<TokenDesc>, toks: seq<uint32>)
    requires Sorted(ts) && Ascending(toks)
    ensures Strip(ts, toks) == Spend(ts, multiset(toks))
    decreases |ts| + |toks|
  {
    if ts == [] || toks == [] {
      SpendNothing(ts);
    } else {
      FirstIsLeast(ts);
      assert toks == [toks[0]] + toks[1..];
      assert multiset(toks) == multiset(toks[1..]) + multiset{toks[0]};
      if ts[0].token < toks[0] {
        assert ts[0].token !in toks;
        StripSpends(ts[1..], toks);
      } else if ts[0].token > toks[0] {
        StripSpends(ts, toks[1..]);
        SpendUnused(ts, multiset(toks[1..]), toks[0]);
      } else {
        StripSpends(ts[1..], toks[1..]);
        assert multiset(toks) - multiset{toks[0]} == multiset(toks[1..]);
      }
    }
  }

  /** How many of the first i tokens have value v. */
  function Rank(ts: seq<TokenDesc>, v: uint32, i: nat): nat
    requires i <= |ts|
  {
    if i == 0 then 0 else Rank(ts, v, i - 1) + if ts[i - 1].token == v then 1 else 0
  }

  lemma {:induction false} RankShift(ts: seq<TokenDesc>, v: uint32, i: nat)
    requires i < |ts|
    ensures Rank(ts, v, i + 1) == Rank(ts[1..], v, i) + if ts[0].token == v then 1 else 0
  {
    if i > 0 {
      RankShift(ts, v, i - 1);
    }
  }

  /** The bag pays for token i. */
  predicate Paid(ts: seq<TokenDesc>, bag: multiset<uint32>, i: nat)
    requires i < |ts|
  {
    Rank(ts, ts[i].token, i) < bag[ts[i].token]
  }

  /** The bag pays for exactly the tokens of id. */
  ghost predicate PaysForOwn(ts: seq<TokenDesc>, bag: multiset<uint32>, id: Id) {
    forall i :: 0 <= i < |ts| ==> (Paid(ts, bag, i) <==> ts[i].ingester == id)
  }

  /** The bag for the rest of the list. */
  function Change(ts: seq<TokenDesc>, bag: multiset<uint32>): multiset<uint32>
    requires ts != []
  {
    if ts[0].token in bag then bag - multiset{ts[0].token} else bag
  }

  lemma {:induction false} PaysStep(ts: seq<TokenDesc>, bag: multiset<uint32>, id: Id)
    requires ts != []
    ensures PaysForOwn(ts, bag, id) <==>
            (ts[0].token in bag <==> ts[0].ingester == id) && PaysForOwn(ts[1..], Change(ts, bag), id)
  {
    var rest, bag' := ts[1..], Change(ts, bag);
    forall i | 0 <= i < |rest| ensures Paid(rest, bag', i) <==> Paid(ts, bag, i + 1) {
      RankShift(ts, rest[i].token, i);
    }
    assert Paid(ts, bag, 0) <==> ts[0].token in bag;
    if PaysForOwn(ts, bag, id) {
      forall i | 0 <= i < |rest| ensures Paid(rest, bag', i) <==> rest[i].ingester == id {
        assert Paid(ts, bag, i + 1) <==> ts[i + 1].ingester == id;
      }
    }
    if (ts[0].token in bag <==> ts[0].ingester == id) && PaysForOwn(rest, bag', id) {
      forall i | 0 <= i < |ts| ensures Paid(ts, bag, i) <==> ts[i].ingester == id {
        if i > 0 {
          assert Paid(rest, bag', i - 1) <==> rest[i - 1].ingester == id;
        }
      }
    }
  }

  /** id has no token in ts. */
  predicate Lacks(ts: seq<TokenDesc>, id: Id) {
    forall x :: x in ts ==> x.ingester != id
  }

  lemma {:induction false} OthersWithout(ts: seq<TokenDesc>, id: Id)
    ensures Lacks(OthersThan(ts, id), id)
  {
    FilterMembers(ts, NotMine(id));
  }

  /** To leave no token of id, at least all of them must go. */
  lemma {:induction false} SpendBound(ts: seq<TokenDesc>, bag: multiset<uint32>, id: Id)
    requires Lacks(Spend(ts, bag), id)
    ensures |Spend(ts, bag)| <= |OthersThan(ts, id)|
  {
    if ts != [] {
      assert ts[0].token !in bag ==> Spend(ts, bag)[0] in Spend(ts, bag);
      assert Lacks(Spend(ts[1..], Change(ts, bag)), id);
      SpendBound(ts[1..], Change(ts, bag), id);
    }
  }

  /** Exactly when a bag leaves precisely the tokens of the others: when it pays for precisely its own. */
  lemma {:induction false} SpendExactly(ts: seq<TokenDesc>, bag: multiset<uint32>, id: Id)
    ensures Spend(ts, bag) == OthersThan(ts, id) <==> PaysForOwn(ts, bag, id)
  {
    if ts != [] {
      PaysStep(ts, bag, id);
      SpendExactly(ts[1..], Change(ts, bag), id);
      if ts[0].token !in bag <==> ts[0].ingester == id {
        SpendDiffers(ts, bag, id);
      } else {
        SpendAgrees(ts, bag, id);
      }
    }
  }

  lemma {:induction false} SpendDiffers(ts: seq<TokenDesc>, bag: multiset<uint32>, id: Id)
    requires ts != [] && (ts[0].token !in bag <==> ts[0].ingester == id)
    ensures Spend(ts, bag) != OthersThan(ts, id)
  {
    OthersWithout(ts, id);
    if ts[0].ingester == id {
      assert Spend(ts, bag)[0] in Spend(ts, bag);
    } else if Spend(ts, bag) == OthersThan(ts, id) {
      SpendBound(ts[1..], Change(ts, bag), id);
    }
  }

  lemma {:induction false} SpendAgrees(ts: seq<TokenDesc>, bag: multiset<uint32>, id: Id)
    requires ts != [] && (ts[0].token in bag <==> ts[0].ingester == id)
    ensures Spend(ts, bag) == OthersThan(ts, id) <==>
            Spend(ts[1..], Change(ts, bag)) == OthersThan(ts[1..], id)
  {
    var rest, others := Spend(ts[1..], Change(ts, bag)), OthersThan(ts[1..], id);
    if ts[0].ingester != id {
      assert Spend(ts, bag)[1..] == rest && OthersThan(ts, id)[1..] == others;
    }
  }

  /**
    Exactly when removal takes an ingester out of a sorted ring, whatever tokens it names: for each
    value, its own tokens must be the first ones, as many as it names or all there are.
   */
  lemma {:induction false} StripExactly(ts: seq<TokenDesc>, id: Id, toks: seq<uint32>)
    requires Sorted(ts) && Ascending(toks)
    ensures Strip(ts, toks) == OthersThan(ts, id) <==> PaysForOwn(ts, multiset(toks), id)
  {
    StripSpends(ts, toks);
    SpendExactly(ts, multiset(toks), id);
  }

  // ----- an ingester that names exactly its own tokens -----------------------------------

  /** A token of another ingester stands before one of id with the same value. */
  ghost predicate ForeignFirst(ts: seq<TokenDesc>, id: Id) {
    exists i, j :: 0 <= i < j < |ts| && ts[i].token == ts[j].token && ts[i].ingester != id && ts[j].ingester == id
  }

  /** The values of the tokens of id. */
  function OwnBag(ts: seq<TokenDesc>, id: Id): multiset<uint32> {
    if ts == [] then multiset{}
    else OwnBag(ts[1..], id) + if ts[0].ingester == id then multiset{ts[0].token} else multiset{}
  }

  lemma {:induction false} OwnBagMember(ts: seq<TokenDesc>, id: Id, v: uint32)
    ensures v in OwnBag(ts, id) <==> exists j :: 0 <= j < |ts| && ts[j] == TokenDesc(v, id)
  {
    if ts != [] {
      OwnBagMember(ts[1..], id, v);
      if j :| 0 <= j < |ts| && ts[j] == TokenDesc(v, id) {
        assert j > 0 ==> ts[1..][j - 1] == TokenDesc(v, id);
      }
      if j :| 0 <= j < |ts| - 1 && ts[1..][j] == TokenDesc(v, id) {
        assert ts[j + 1] == TokenDesc(v, id);
      }
    }
  }

  lemma {:induction false} OwnBagIs(ts: seq<TokenDesc>, id: Id, toks: seq<uint32>)
    requires TokensOf(ts, id) == TokensFor(id, toks)
    ensures OwnBag(ts, id) == multiset(toks)
  {
    if ts == [] {
      assert toks == [];
    } else if ts[0].ingester == id {
      assert TokensFor(id, toks)[0] == ts[0];
      assert TokensFor(id, toks)[1..] == TokensFor(id, toks[1..]);
      OwnBagIs(ts[1..], id, toks[1..]);
      assert toks == [toks[0]] + toks[1..];
    } else {
      OwnBagIs(ts[1..], id, toks);
    }
  }

  lemma {:induction false} SpendCount(ts: seq<TokenDesc>, bag: multiset<uint32>)
    ensures |Spend(ts, bag)| >= |ts| - |bag|
  {
    if ts != [] {
      SpendCount(ts[1..], Change(ts, bag));
    }
  }

  lemma {:induction false} OwnBagCount(ts: seq<TokenDesc>, id: Id)
    ensures |OwnBag(ts, id)| + |OthersThan(ts, id)| == |ts|
  {
    if ts != [] {
      OwnBagCount(ts[1..], id);
    }
  }

  lemma {:induction false} ForeignStep(ts: seq<TokenDesc>, id: Id)
    requires ts != []
    ensures ForeignFirst(ts, id) <==>
            ForeignFirst(ts[1..], id) || (ts[0].ingester != id && ts[0].token in OwnBag(ts[1..], id))
  {
    var rest := ts[1..];
    OwnBagMember(rest, id, ts[0].token);
    if i, j :| 0 <= i < j < |ts| && ts[i].token == ts[j].token && ts[i].ingester != id && ts[j].ingester == id {
      if i > 0 {
        assert rest[i - 1] == ts[i] && rest[j - 1] == ts[j];
      } else {
        assert rest[j - 1] == TokenDesc(ts[0].token, id);
      }
    }
    if ForeignFirst(rest, id) {
      var i, j :|
        0 <= i < j < |rest| && rest[i].token == rest[j].token && rest[i].ingester != id && rest[j].ingester == id;
      assert ts[i + 1] == rest[i] && ts[j + 1] == rest[j];
    }
    if j :| 0 <= j < |rest| && rest[j] == TokenDesc(ts[0].token, id) {
      assert ts[j + 1] == rest[j];
    }
  }

  /** With its own values an ingester leaves no token behind exactly when no foreign one stands in the way. */
  lemma {:induction false} SpendOwn(ts: seq<TokenDesc>, id: Id)
    ensures Lacks(Spend(ts, OwnBag(ts, id)), id) <==> !ForeignFirst(ts, id)
    ensures !ForeignFirst(ts, id) ==> Spend(ts, OwnBag(ts, id)) == OthersThan(ts, id)
  {
    if ts != [] {
      var x, rest, bag := ts[0], ts[1..], OwnBag(ts, id);
      ForeignStep(ts, id);
      SpendOwn(rest, id);
      assert x.ingester != id ==> bag == OwnBag(rest, id);
      if x.ingester == id {
        assert bag - multiset{x.token} == OwnBag(rest, id);
      } else if x.token in bag {
        if Lacks(Spend(ts, bag), id) {
          SpendBound(rest, Change(ts, bag), id);
          SpendCount(rest, Change(ts, bag));
          OwnBagCount(rest, id);
        }
      } else {
        assert Spend(ts, bag) == [x] + Spend(rest, bag);
        assert forall y :: y in Spend(ts, bag) <==> y == x || y in Spend(rest, bag);
      }
    }
  }

  /** Exactly when an ingester that names its own tokens is taken out, and out only. */
  lemma {:induction false} StripOwnExactly(ts: seq<TokenDesc>, id: Id, toks: seq<uint32>)
    requires Sorted(ts) && TokensOf(ts, id) == TokensFor(id, toks)
    ensures Strip(ts, toks) == OthersThan(ts, id) <==> !ForeignFirst(ts, id)
    ensures Lacks(Strip(ts, toks), id) <==> !ForeignFirst(ts, id)
  {
    OwnAscending(ts, id, toks);
    OwnBagIs(ts, id, toks);
    StripSpends(ts, toks);
    SpendOwn(ts, id);
    OthersWithout(ts, id);
  }

  lemma {:induction false} OwnAscending(ts: seq<TokenDesc>, id: Id, toks: seq<uint32>)
    requires Sorted(ts) && TokensOf(ts, id) == TokensFor(id, toks)
    ensures Ascending(toks)
  {
    FilterSorted(ts, Mine(id));
    forall i, j | 0 <= i < j < |toks| ensures toks[i] <= toks[j] {
      assert !TokenLess(TokensFor(id, toks)[j], TokensFor(id, toks)[i]);
    }
  }

  /** Given exactly its own tokens, an ingester leaves a clean ring without touching the others. */
  lemma {:induction false} StripOwn(ts: seq<TokenDesc>, id: Id, toks: seq<uint32>)
    requires Sorted(ts) && Clean(ts) && TokensOf(ts, id) == TokensFor(id, toks)
    ensures Strip(ts, toks) == OthersThan(ts, id)
  {
    StripOwnExactly(ts, id, toks);
    assert forall i :: 0 <= i < |ts| ==> ts[i] in ts;
  }

  /** Exactly when a registered ring stays registered after a removal. */
  lemma {:induction false} RemovalRegisteredExactly(d: Desc, id: Id, toks: seq<uint32>)
    requires Sorted(d.tokens) && Registered(d) && TokensOf(d.tokens, id) == TokensFor(id, toks)
    ensures Registered(Removed(d, id, toks)) <==> !ForeignFirst(d.tokens, id)
  {
    StripOwnExactly(d.tokens, id, toks);
    StripMembers(d.tokens, toks);
  }

  /**
    Were a token value shared, the walk could take the wrong ingester's token: here "b" leaves with
    its token 5, "a" loses its only token, and the token left behind names no ingester.
   */
  lemma {:induction false} SharedTokenMisremoved()
    ensures var ingesters := map["a" := IngesterDesc("", 0), "b" := IngesterDesc("", 0)];
            var d := Desc(ingesters, [TokenDesc(5, "a"), TokenDesc(5, "b")]);
            Sorted(d.tokens) && Registered(d) && TokensOf(d.tokens, "b") == TokensFor("b", [5]) &&
            TokensOf(Removed(d, "b", [5]).tokens, "a") == [] && !Registered(Removed(d, "b", [5]))
  {
    var a, b := TokenDesc(5, "a"), TokenDesc(5, "b");
    var ts := [a, b];
    assert ts[1..] == [b] && [b][1..] == [];
    assert Strip(ts, [5]) == [b];
    assert "a"[0] != "b"[0];
    FilterAll([b], Mine("b"));
    FilterNone([b], Mine("a"));
    assert TokensOf(ts, "b") == TokensOf([b], "b");
    assert TokensFor("b", [5]) == [b];
    assert b in [b];
  }

  // ----- addIngester and removeIngester on values --------------------------------------

  /** d' is d after addIngester: sort.Sort is free in how it orders equal tokens. */
  ghost predicate Added(d: Desc, id: Id, hostname: string, now: int, toks: seq<uint32>, d': Desc) {
    && d'.ingesters == d.ingesters[id := IngesterDesc(hostname, now)]
    && Sorting.SortOf(d'.tokens, d.tokens + TokensFor(id, toks), TokenLess)
  }

  function Removed(d: Desc, id: Id, toks: seq<uint32>): Desc {
    Desc(d.ingesters - {id}, Strip(d.tokens, toks))
  }

  lemma {:induction false} AddedMembers(d: Desc, id: Id, hostname: string, now: int, toks: seq<uint32>, d': Desc)
    requires Added(d, id, hostname, now, toks, d')
    ensures forall x :: x in d'.tokens <==> x in d.tokens || x in TokensFor(id, toks)
  {
    Sorting.SameMembers(d'.tokens, d.tokens + TokensFor(id, toks));
  }

  /** Sorted token lists with the same elements are the same list if the ring is clean. */
  lemma {:induction false} SortedUnique(r: seq<TokenDesc>, s: seq<TokenDesc>)
    requires Sorted(r) && Sorted(s) && Clean(r) && multiset(r) == multiset(s)
    ensures r == s
  {
    assert Sorting.TiesEqual(r, TokenLess) by {
      forall i, j | 0 <= i < |r| && 0 <= j < |r| && !TokenLess(r[i], r[j]) && !TokenLess(r[j], r[i])
        ensures r[i] == r[j]
      {
        assert r[i] in r && r[j] in r;
      }
    }
    Sorting.SortUnique(r, s, TokenLess);
  }

  lemma {:induction false} FilterSorted(ts: seq<TokenDesc>, keep: TokenDesc -> bool)
    requires Sorted(ts)
    ensures Sorted(Filter(ts, keep))
  {
    if ts != [] {
      FilterSorted(ts[1..], keep);
      FilterMembers(ts[1..], keep);
      var rest := Filter(ts[1..], keep);
      forall j | 0 <= j < |rest| ensures !TokenLess(rest[j], ts[0]) {
        assert rest[j] in ts[1..];
      }
    }
  }

  /** After a newcomer with sorted tokens is added, the tokens under its id are exactly its tokens. */
  lemma {:induction false} AddedOwn(d: Desc, id: Id, hostname: string, now: int, toks: seq<uint32>, d': Desc)
    requires Added(d, id, hostname, now, toks, d') && Ascending(toks)
    requires forall x :: x in d.tokens ==> x.ingester != id
    ensures TokensOf(d'.tokens, id) == TokensFor(id, toks)
  {
    var news := TokensFor(id, toks);
    FilterConcat(d.tokens, news, Mine(id));
    FilterNone(d.tokens, Mine(id));
    FilterAll(news, Mine(id));
    FilterPermutation(d'.tokens, d.tokens + news, Mine(id));
    FilterSorted(d'.tokens, Mine(id));
    FilterMembers(d'.tokens, Mine(id));
    assert [] + news == news;
    SortedUnique(TokensOf(d'.tokens, id), news);
  }

  /** ... and those of everybody else are what they were. */
  lemma {:induction false} AddedOthers(d: Desc, id: Id, hostname: string, now: int, toks: seq<uint32>, d': Desc)
    requires Added(d, id, hostname, now, toks, d') && Sorted(d.tokens) && Clean(d.tokens)
    requires forall x :: x in d.tokens ==> x.ingester != id
    ensures OthersThan(d'.tokens, id) == d.tokens
  {
    var news := TokensFor(id, toks);
    FilterConcat(d.tokens, news, NotMine(id));
    FilterAll(d.tokens, NotMine(id));
    FilterNone(news, NotMine(id));
    FilterPermutation(d'.tokens, d.tokens + news, NotMine(id));
    FilterSorted(d'.tokens, NotMine(id));
    assert d.tokens + [] == d.tokens;
    SortedUnique(d.tokens, OthersThan(d'.tokens, id));
  }

  /** Leaving undoes entering: the ring is restored exactly. */
  lemma {:induction false} RemoveUndoesAdd(d: Desc, id: Id, hostname: string, now: int, toks: seq<uint32>, d': Desc)
    requires Sorted(d.tokens) && Clean(d.tokens) && Registered(d) && id !in d.ingesters
    requires Ascending(toks) && forall x, t :: x in d.tokens && t in toks ==> x.token != t
    requires Added(d, id, hostname, now, toks, d')
    ensures Removed(d', id, toks) == d
  {
    AddedMembers(d, id, hostname, now, toks, d');
    AddedOwn(d, id, hostname, now, toks, d');
    AddedOthers(d, id, hostname, now, toks, d');
    AddedClean(d, id, hostname, now, toks, d');
    StripOwn(d'.tokens, id, toks);
    assert d'.ingesters - {id} == d.ingesters;
  }

  lemma {:induction false} AddedClean(d: Desc, id: Id, hostname: string, now: int, toks: seq<uint32>, d': Desc)
    requires Clean(d.tokens) && Added(d, id, hostname, now, toks, d')
    requires forall x, t :: x in d.tokens && t in toks ==> x.token != t
    ensures Clean(d'.tokens)
  {
    AddedMembers(d, id, hostname, now, toks, d');
    forall x | x in TokensFor(id, toks) ensures x.token in toks && x.ingester == id {
      var i :| 0 <= i < |toks| && TokensFor(id, toks)[i] == x;
    }
  }

  // ----- the object ----------------------------------------------------------------------

  class DescObject {
    var ingesters: map<Id, IngesterDesc>
    var tokens: seq<TokenDesc>

    function Value(): Desc
      reads this
    {
      Desc(ingesters, tokens)
    }

    constructor (d: Desc)
      ensures Value() == d
    {
      ingesters, tokens := d.ingesters, d.tokens;
    }

    /** addIngester: record the ingester, append its tokens, sort. */
    method AddIngester(id: Id, hostname: string, now: int, toks: seq<uint32>)
      modifies this
      ensures Added(old(Value()), id, hostname, now, toks, Value())
    {
      ingesters := ingesters[id := IngesterDesc(hostname, now)];
      for i := 0 to |toks|
        invariant ingesters == old(ingesters)[id := IngesterDesc(hostname, now)]
        invariant tokens == old(tokens) + TokensFor(id, toks)[..i]
      {
        tokens := tokens + [TokenDesc(toks[i], id)];
      }
      assert TokensFor(id, toks)[..|toks|] == TokensFor(id, toks);
      tokens := Sorting.Sort(tokens, TokenLess);
    }

    /** removeIngester. */
    method RemoveIngester(id: Id, toks: seq<uint32>)
      modifies this
      ensures Value() == Removed(old(Value()), id, toks)
    {
      ingesters := ingesters - {id};
      tokens := Walk(tokens, toks);
    }
  }

  /** removeIngester's loops: two indices over the ring and the ingester's tokens. */
  method Walk(ts: seq<TokenDesc>, toks: seq<uint32>) returns (output: seq<TokenDesc>)
    ensures output == Strip(ts, toks)
  {
    output := [];
    var i, j := 0, 0;
    ghost var all := Strip(ts, toks);
    assert ts[0..] == ts && toks[0..] == toks;
    while i < |ts| && j < |toks|
      invariant i <= |ts| && j <= |toks|
      invariant output + Strip(ts[i..], toks[j..]) == all
      decreases |ts| - i + |toks| - j
    {
      StripStep(ts, toks, i, j);
      if ts[i].token < toks[j] {
        Associative(output, [ts[i]], Strip(ts[i + 1..], toks[j..]));
        output := output + [ts[i]];
        i := i + 1;
      } else if ts[i].token > toks[j] {
        j := j + 1;
      } else {
        i := i + 1;
        j := j + 1;
      }
    }
    output := Drain(output, ts, i);
  }

  lemma {:induction false} StripStep(ts: seq<TokenDesc>, toks: seq<uint32>, i: nat, j: nat)
    requires i < |ts| && j < |toks|
    ensures Strip(ts[i..], toks[j..]) ==
            if ts[i].token < toks[j] then [ts[i]] + Strip(ts[i + 1..], toks[j..])
            else if ts[i].token > toks[j] then Strip(ts[i..], toks[j + 1..])
            else Strip(ts[i + 1..], toks[j + 1..])
  {
    assert ts[i..][1..] == ts[i + 1..] && toks[j..][1..] == toks[j + 1..];
  }
}
