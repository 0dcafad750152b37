/** DynamoDB answers a query in pages: what a lookup reads of them, and what it misses. */
module Paging {
  import opened Options
  import opened ByteStrings
  import opened Buckets
  import opened Keys
  import opened ChunkLists
  import opened ChunkIndex
  import opened Answers
  import opened Seqs

  // ----- answers in pages --------------------------------------------------------------------

  predicate InBounds(range: Bytes, bounds: Option<(Bytes, Bytes)>) {
    bounds.Some? ==> Between(bounds.value.0, range, bounds.value.1)
  }

  ghost predicate OnPage(items: seq<Item>, table: map<RowKey, Meta>, hash: Bytes, bounds: Option<(Bytes, Bytes)>) {
    && (forall i :: 0 <= i < |items| ==>
          && (hash, items[i].range) in table && table[(hash, items[i].range)] == items[i].meta
          && InBounds(items[i].range, bounds))
    && (forall i, j :: 0 <= i < j < |items| ==> items[i].range != items[j].range)
  }

  /** Every row of the partition within bounds is among items. */
  ghost predicate Sees(items: seq<Item>, table: map<RowKey, Meta>, hash: Bytes, bounds: Option<(Bytes, Bytes)>) {
    forall k :: k in table && k.0 == hash && InBounds(k.1, bounds) ==> Item(k.1, table[k]) in items
  }

  /** pages answer a query of partition hash: together they hold each of its rows within bounds once. */
  ghost predicate IsAnswer(
    pages: seq<seq<Item>>, table: map<RowKey, Meta>, hash: Bytes, bounds: Option<(Bytes, Bytes)>)
  {
    pages != [] && OnPage(Flatten(pages), table, hash, bounds) && Sees(Flatten(pages), table, hash, bounds)
  }

  lemma {:induction false} FirstPage(
    pages: seq<seq<Item>>, table: map<RowKey, Meta>, hash: Bytes, bounds: Option<(Bytes, Bytes)>)
    requires IsAnswer(pages, table, hash, bounds)
    ensures OnPage(pages[0], table, hash, bounds)
    ensures |pages| == 1 ==> Sees(pages[0], table, hash, bounds)
  {
    var all := Flatten(pages);
    assert all[..|pages[0]|] == pages[0];
    assert forall i :: 0 <= i < |pages[0]| ==> pages[0][i] == all[i];
    if |pages| == 1 {
      assert pages[1..] == [];
      assert all == pages[0] + Flatten<Item>([]);
    }
  }

  /** What was in the table earlier is still seen. */
  lemma {:induction false} SeesEarlier(
    w: World, w': World, items: seq<Item>, hash: Bytes, bounds: Option<(Bytes, Bytes)>)
    requires Grows(w, w') && Sees(items, w'.table, hash, bounds)
    ensures Sees(items, w.table, hash, bounds)
  {
  }

  /** An inverted range holds no row. */
  lemma {:induction false} NothingBetween(items: seq<Item>, table: map<RowKey, Meta>, hash: Bytes, m: Matcher)
    requires m.Safe() && !m.Scannable() && OnPage(items, table, hash, Some((m.Low(), m.High())))
    ensures items == []
  {
    InvertedScan(m, if items == [] then [] else items[0].range);
    assert items != [] ==> InBounds(items[0].range, Some((m.Low(), m.High())));
  }

  /** The rows of one partition within bounds. */
  method Rows(table: map<RowKey, Meta>, hash: Bytes, bounds: Option<(Bytes, Bytes)>) returns (items: seq<Item>)
    ensures OnPage(items, table, hash, bounds) && Sees(items, table, hash, bounds)
  {
    var rest := table.Keys;
    items := [];
    while rest != {}
      invariant rest <= table.Keys
      invariant OnPage(items, table, hash, bounds)
      invariant forall i :: 0 <= i < |items| ==> (hash, items[i].range) !in rest
      invariant forall k :: k in table && k !in rest && k.0 == hash && InBounds(k.1, bounds) ==>
        Item(k.1, table[k]) in items
      decreases rest
    {
      var k :| k in rest;
      rest := rest - {k};
      if k.0 == hash && InBounds(k.1, bounds) {
        items := items + [Item(k.1, table[k])];
      }
    }
  }

  /** DynamoDB's QueryPages: one consistent answer, cut into pages as DynamoDB pleases. */
  method QueryPages(table: map<RowKey, Meta>, hash: Bytes, bounds: Option<(Bytes, Bytes)>)
    returns (pages: seq<seq<Item>>)
    ensures IsAnswer(pages, table, hash, bounds)
  {
    var items := Rows(table, hash, bounds);
    var cut :| 0 <= cut <= |items|;
    pages := if cut == |items| then [items] else [items[..cut], items[cut..]];
    assert Flatten(pages) == items by {
      if cut == |items| {
        assert pages[0] == items && pages[1..] == [] && items + [] == items;
      } else {
        var rest := pages[1..];
        assert rest == [items[cut..]] && rest[1..] == [];
        assert Flatten(rest) == items[cut..] + [] == items[cut..];
        assert items == items[..cut] + items[cut..];
      }
    }
  }

  lemma {:induction false} PageKnown(
    w: World, items: seq<Item>, user: Bytes, hour: int, name: Bytes, bounds: Option<(Bytes, Bytes)>)
    requires Valid(w) && PlainUser(user) && OnPage(items, w.table, HashValue(user, hour, name), bounds)
    ensures KnownPage(w, items, user, hour, name)
  {
    forall i | 0 <= i < |items| ensures KnownItem(w, items[i], user, hour, name) {
      PartitionHoldsOwnRows(w, user, hour, name, items[i].range);
    }
  }

  /** A row of a completed chunk that was seen is in the answer. */
  lemma {:induction false} RowFound(
    w: World, items: seq<Item>, user: Bytes, hour: int, name: Bytes,
    bounds: Option<(Bytes, Bytes)>, m: Option<Matcher>, e: Entry, l: Bytes)
    requires Valid(w) && e in w.done && e.user == user && Named(e.chunk, name)
    requires InBuckets(hour, e.chunk.from, e.chunk.through) && l in e.chunk.metric && l != NAME
    requires InBounds(RangeOf(e.chunk, l), bounds)
    requires Passes(l, e.chunk.metric[l], m) && Accept(items, m).Some?
    requires Sees(items, w.table, HashValue(user, hour, name), bounds)
    ensures WithoutData(e.chunk) in Accept(items, m).value
  {
    assert FullyIndexed(w, e) && Indexed(e.chunk, hour, l);
    RowIsFixed(w, e, hour, l);
    var item := Item(RangeOf(e.chunk, l), MetaOf(e.chunk));
    assert item in items;
    var i :| 0 <= i < |items| && items[i] == item;
    assert ItemOf(w, item, user, hour, name, e, l);
    KnownItemDecodes(w, item, user, hour, name, e, l);
    AcceptKeeps(items, m, i);
  }

  lemma {:induction false} MatcherScanComplete(
    w: World, items: seq<Item>, user: Bytes, hour: int, name: Bytes, m: Matcher)
    requires Valid(w) && m.Scannable() && Accept(items, Some(m)).Some?
    requires Sees(items, w.table, HashValue(user, hour, name), Some((m.Low(), m.High())))
    ensures ScanComplete(w.done, Accept(items, Some(m)).value, user, hour, name, Some(m))
  {
    forall e | e in w.done && e.user == user && Hits(e.chunk, hour, name, Some(m))
      ensures WithoutData(e.chunk) in Accept(items, Some(m)).value
    {
      assert FullyIndexed(w, e) && Indexed(e.chunk, hour, m.name);
      ScanCovers(m, e.chunk.metric[m.name], e.chunk.id);
      RowFound(w, items, user, hour, name, Some((m.Low(), m.High())), Some(m), e, m.name);
    }
  }

  /** What one matcher's scan gives, inverted or not. */
  lemma {:induction false} MatcherScanned(
    w0: World, w: World, items: seq<Item>, single: bool, user: Bytes, hour: int, name: Bytes, m: Matcher)
    requires Valid(w0) && Valid(w) && m.Safe() && KnownPage(w, items, user, hour, name)
    requires OnPage(items, w.table, HashValue(user, hour, name), Some((m.Low(), m.High())))
    requires single ==> Sees(items, w0.table, HashValue(user, hour, name), Some((m.Low(), m.High())))
    ensures Accept(items, Some(m)).Some?
    ensures var r := Accept(items, Some(m)).value;
            |Ids(r)| == |r| && ListFits(w, w0.done, r, single, user, hour, name, m)
  {
    AcceptSound(w, items, user, hour, name, Some(m));
    AcceptDistinct(w, items, user, hour, name, m);
    if !m.Scannable() {
      NothingBetween(items, w.table, HashValue(user, hour, name), m);
    } else if single {
      MatcherScanComplete(w0, items, user, hour, name, m);
    }
  }

  lemma {:induction false} NameScanComplete(w: World, items: seq<Item>, user: Bytes, hour: int, name: Bytes)
    requires Valid(w) && Accept(items, None).Some?
    requires Sees(items, w.table, HashValue(user, hour, name), None)
    ensures ScanComplete(w.done, Accept(items, None).value, user, hour, name, None)
  {
    forall e | e in w.done && e.user == user && Hits(e.chunk, hour, name, None)
      ensures WithoutData(e.chunk) in Accept(items, None).value
    {
      var l :| l in e.chunk.metric && l != NAME;
      RowFound(w, items, user, hour, name, None, None, e, l);
    }
  }

  // ----- reading them ----------------------------------------------------------------------------

  /** processResponse: the chunks of the rows that pass, appended until a row fails to decode. */
  method ProcessResponse(items: seq<Item>, m: Option<Matcher>, acc: seq<Chunk>) returns (ok: bool, chunkSet: seq<Chunk>)
    ensures ok <==> Accept(items, m).Some?
    ensures ok ==> chunkSet == acc + Accept(items, m).value
  {
    chunkSet := acc;
    for i := 0 to |items|
      invariant Accept(items[..i], m).Some? && chunkSet == acc + Accept(items[..i], m).value
    {
      AcceptTake(items, m, i);
      var more := Contribution(items[i], m);
      if more.None? {
        AcceptFails(items, m, i);
        return false, chunkSet;
      }
      Associative(acc, Accept(items[..i], m).value, more.value);
      chunkSet := chunkSet + more.value;
    }
    assert items[..|items|] == items;
    ok := true;
  }

  lemma {:induction false} AcceptTake(items: seq<Item>, m: Option<Matcher>, i: nat)
    requires i < |items| && Accept(items[..i], m).Some?
    ensures Accept(items[..i + 1], m) ==
            if Contribution(items[i], m).None? then None
            else Some(Accept(items[..i], m).value + Contribution(items[i], m).value)
  {
    var taken := items[..i + 1];
    assert taken[..|taken| - 1] == items[..i];
  }

  lemma {:induction false} AcceptFails(items: seq<Item>, m: Option<Matcher>, i: nat)
    requires i < |items| && Decoded(items[i]).None?
    ensures Accept(items, m).None?
  {
    if i < |items| - 1 {
      AcceptFails(items[..|items| - 1], m, i);
    }
  }

  /**
    The QueryPages callback: it asks for another page only after an error.  So once the first page
    decodes the later pages are not read, and an error is forgotten if a later page decodes.
   */
  method ReadPages(pages: seq<seq<Item>>, m: Option<Matcher>) returns (ok: bool, chunkSet: seq<Chunk>)
    requires pages != []
    ensures Accept(pages[0], m).Some? ==> ok && chunkSet == Accept(pages[0], m).value
    ensures ok <==> exists p :: 0 <= p < |pages| && Accept(pages[p], m).Some?
  {
    ok, chunkSet := ProcessResponse(pages[0], m, []);
    var p := 1;
    while !ok && p < |pages|
      invariant 1 <= p <= |pages|
      invariant ok ==> Accept(pages[p - 1], m).Some?
      invariant !ok ==> forall k :: 0 <= k < p ==> Accept(pages[k], m).None?
      invariant Accept(pages[0], m).Some? ==> ok && chunkSet == Accept(pages[0], m).value
      decreases |pages| - p
    {
      ok, chunkSet := ProcessResponse(pages[p], m, chunkSet);
      p := p + 1;
    }
  }

  // ----- what paging loses -----------------------------------------------------------------

  /** Some row of c that passes the matcher is among items. */
  ghost predicate Shown(items: seq<Item>, c: Chunk, m: Option<Matcher>) {
    exists l :: l in c.metric && l != NAME && Passes(l, c.metric[l], m) && Item(RangeOf(c, l), MetaOf(c)) in items
  }

  function BoundsOf(m: Option<Matcher>): Option<(Bytes, Bytes)>
    requires m.Some? ==> m.value.Safe()
  {
    if m.None? then None else Some((m.value.Low(), m.value.High()))
  }

  lemma {:induction false} ShownIsFound(
    w: World, items: seq<Item>, hour: int, name: Bytes, m: Option<Matcher>, e: Entry)
    requires Valid(w) && e in w.done && Hits(e.chunk, hour, name, m)
    requires Accept(items, m).Some? && Shown(items, e.chunk, m)
    ensures WithoutData(e.chunk) in Accept(items, m).value
  {
    var l :| l in e.chunk.metric && l != NAME && Passes(l, e.chunk.metric[l], m)
             && Item(RangeOf(e.chunk, l), MetaOf(e.chunk)) in items;
    var item := Item(RangeOf(e.chunk, l), MetaOf(e.chunk));
    var i :| 0 <= i < |items| && items[i] == item;
    assert FullyIndexed(w, e) && Indexed(e.chunk, hour, l);
    assert ItemOf(w, item, e.user, hour, name, e, l);
    KnownItemDecodes(w, item, e.user, hour, name, e, l);
    AcceptKeeps(items, m, i);
  }

  lemma {:induction false} FoundIsShown(
    w: World, items: seq<Item>, hour: int, name: Bytes, m: Option<Matcher>, e: Entry)
    requires Valid(w) && e in w.issued && KnownPage(w, items, e.user, hour, name)
    requires Accept(items, m).Some? && WithoutData(e.chunk) in Accept(items, m).value
    ensures Shown(items, e.chunk, m)
  {
    var c := WithoutData(e.chunk);
    AcceptComes(items, m, c);
    var i :| 0 <= i < |items| && Comes(c, items[i], m);
    var e', l :| ItemOf(w, items[i], e.user, hour, name, e', l);
    KnownItemDecodes(w, items[i], e.user, hour, name, e', l);
    assert e'.chunk.id == e.chunk.id;
    assert e' == e;
  }

  /**
    What a lookup answers is what its first page holds: it is complete if and only if every completed
    chunk that answers the scan has a row that passes on that page, whatever the other pages hold.
   */
  lemma {:induction false} FirstPageSuffices(
    w: World, pages: seq<seq<Item>>, user: Bytes, hour: int, name: Bytes, m: Option<Matcher>)
    requires Valid(w) && PlainUser(user) && (m.Some? ==> m.value.Safe())
    requires IsAnswer(
      pages, w.table, HashValue(user, hour, name),
      if m.None? then None else Some((m.value.Low(), m.value.High())))
    ensures KnownPage(w, pages[0], user, hour, name) && Accept(pages[0], m).Some?
    ensures ScanComplete(w.done, Accept(pages[0], m).value, user, hour, name, m) <==>
            forall e :: e in w.done && e.user == user && Hits(e.chunk, hour, name, m) ==> Shown(pages[0], e.chunk, m)
  {
    var items := pages[0];
    FirstPage(pages, w.table, HashValue(user, hour, name), BoundsOf(m));
    PageKnown(w, items, user, hour, name, BoundsOf(m));
    AcceptSound(w, items, user, hour, name, m);
    forall e | e in w.done && e.user == user && Hits(e.chunk, hour, name, m)
      ensures WithoutData(e.chunk) in Accept(items, m).value <==> Shown(items, e.chunk, m)
    {
      if Shown(items, e.chunk, m) {
        ShownIsFound(w, items, hour, name, m, e);
      } else if WithoutData(e.chunk) in Accept(items, m).value {
        FoundIsShown(w, items, hour, name, m, e);
      }
    }
  }
}
