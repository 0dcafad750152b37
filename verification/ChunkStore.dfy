/**
  The chunk store: Put and Get over DynamoDB, S3 and memcache.

  Every call to an outside service is one atomic step, and Interfere stands between any two of
  them: whatever other Puts and Gets do there, they keep the invariant and only let the stores
  grow, while the cache may lose entries at any time.  Put and Get are shown to be such citizens
  themselves: they write to the stores only through Take, by lawful actions of the store protocol.
  Goroutines that report over a channel are taken in an arbitrary order.
 */
module ChunkStore {
  import opened Options
  import opened ByteStrings
  import opened Buckets
  import opened Keys
  import opened ChunkLists
  import opened ChunkIndex
  import opened Answers
  import opened IndexWrites
  import opened Paging
  import opened StoreProtocol
  import Sorting

  class AWSStore {
    /** The stores behind the clients, with the history of what was put. */
    var w: World
    /** Whether a chunk cache is configured. */
    const cached: bool
    /** How many calls of ours to DynamoDB and S3 have failed; failures of the cache do not count. */
    ghost var failures: nat
    /** How many items of ours DynamoDB left unprocessed in batches that it reported as successful. */
    var unprocessed: nat
    /** How many of our queries DynamoDB answered in more than one page. */
    ghost var paged: nat

    constructor (cached: bool)
      ensures Valid(w) && w.issued == {} && this.cached == cached
    {
      w := World(map[], map[], map[], {}, {});
      this.cached := cached;
      failures, paged, unprocessed := 0, 0, 0;
    }

    /** The only way to write to the stores: one lawful action. */
    method Take(a: Action)
      requires Valid(w) && Lawful(w, a)
      modifies this`w
      ensures w == Apply(old(w), a) && Valid(w) && Grows(old(w), w)
    {
      ActionKeepsValid(w, a);
      w := Apply(w, a);
    }

    /** A write that was lawful some time ago. */
    method TakeLater(ghost w0: World, a: Action)
      requires Valid(w) && Grows(w0, w) && Lawful(w0, a) && Sendable(a)
      modifies this`w
      ensures Valid(w) && Grows(w0, w) && Written(w, a)
    {
      SendKeeps(w0, w, a);
      Take(a);
    }

    /** Other requests take steps, and the cache evicts. */
    method Interfere()
      requires Valid(w)
      modifies this`w
      ensures Valid(w) && Grows(old(w), w)
    {
      var lost: set<Bytes> := *;
      Take(Evict(lost));
    }

    /** DynamoDB or S3 answers or fails. */
    method ServiceUp() returns (up: bool)
      modifies this`failures
      ensures failures == old(failures) + if up then 0 else 1
    {
      up := *;
      if !up {
        failures := failures + 1;
      }
    }

    /** A write sent to an outside service; one that reports a failure may still have been carried out. */
    method Send(a: Action) returns (ok: bool)
      requires Valid(w) && Lawful(w, a) && Sendable(a)
      modifies this`w, this`failures
      ensures Valid(w) && Grows(old(w), w)
      ensures ok ==> Written(w, a)
      ensures failures == old(failures) + if ok || a.Cache? then 0 else 1
    {
      Interfere();
      if a.Cache? {
        ok := *;
      } else {
        ok := ServiceUp();
      }
      var wrote: bool := *;
      if ok || wrote {
        TakeLater(old(w), a);
      }
    }

    /** DynamoDB answers a query. */
    method Query(hash: Bytes, bounds: Option<(Bytes, Bytes)>) returns (pages: seq<seq<Item>>)
      modifies this`paged
      ensures IsAnswer(pages, w.table, hash, bounds)
      ensures paged == old(paged) + if |pages| == 1 then 0 else 1
    {
      pages := QueryPages(w.table, hash, bounds);
      if |pages| != 1 {
        paged := paged + 1;
      }
    }

    // ----- Get: index scans -------------------------------------------------------------

    /** The rows of one partition within bounds: shared by the two lookups. */
    method Scan(user: Bytes, hour: int, name: Bytes, bounds: Option<(Bytes, Bytes)>, m: Option<Matcher>)
      returns (res: Outcome<seq<Chunk>>, ghost items: seq<Item>)
      requires Valid(w) && PlainUser(user)
      modifies this`w, this`failures, this`paged
      ensures Valid(w) && Grows(old(w), w) && old(failures) <= failures && old(paged) <= paged
      ensures !res.Panic? && (res.Err? <==> failures > old(failures))
      ensures res.Ok? ==> Accept(items, m) == Some(res.value)
      ensures res.Ok? ==> KnownPage(w, items, user, hour, name)
      ensures res.Ok? ==> OnPage(items, w.table, HashValue(user, hour, name), bounds)
      ensures res.Ok? && paged == old(paged) ==> Sees(items, old(w).table, HashValue(user, hour, name), bounds)
    {
      Interfere();
      var up := ServiceUp();
      if !up {
        return Err, [];
      }
      var hash := HashValue(user, hour, name);
      var pages := Query(hash, bounds);
      items := pages[0];
      FirstPage(pages, w.table, hash, bounds);
      PageKnown(w, items, user, hour, name, bounds);
      AcceptSound(w, items, user, hour, name, m);
      var ok, chunkSet := ReadPages(pages, m);
      res := Ok(chunkSet);
      if |pages| == 1 {
        SeesEarlier(old(w), w, items, hash, bounds);
      }
    }

    method LookupChunksForMetricName(user: Bytes, hour: int, name: Bytes) returns (res: Outcome<seq<Chunk>>)
      requires Valid(w) && PlainUser(user)
      modifies this`w, this`failures, this`paged
      ensures Valid(w) && Grows(old(w), w) && old(failures) <= failures && old(paged) <= paged
      ensures !res.Panic? && (res.Err? <==> failures > old(failures))
      ensures res.Ok? ==> Strict(res.value) && ScanSound(w, res.value, user, hour, name, None)
      ensures res.Ok? && paged == old(paged) ==> ScanComplete(old(w).done, res.value, user, hour, name, None)
    {
      ghost var items;
      res, items := Scan(user, hour, name, None, None);
      if res.Err? {
        return;
      }
      AcceptSound(w, items, user, hour, name, None);
      if paged == old(paged) {
        NameScanComplete(old(w), items, user, hour, name);
      }
      var sorted := SortById(res.value);
      var chunkSet := Unique(sorted);
      UniqueIds(sorted);
      UniqueStrict(sorted);
      SameIdsSameChunks(w, sorted, chunkSet, user);
      res := Ok(chunkSet);
    }

    method LookupChunksForMatcher(user: Bytes, hour: int, name: Bytes, m: Matcher) returns (res: Outcome<seq<Chunk>>)
      requires Valid(w) && PlainUser(user)
      modifies this`w, this`failures, this`paged
      ensures Valid(w) && Grows(old(w), w) && old(failures) <= failures && old(paged) <= paged
      ensures (res.Panic? <==> !m.Safe()) && (!res.Panic? ==> (res.Err? <==> failures > old(failures)))
      ensures res.Ok? ==> Strict(res.value)
      ensures res.Ok? ==>
        ListFits(w, old(w).done, res.value, paged == old(paged), user, hour, name, m)
    {
      if !m.Safe() {
        return Panic;
      }
      ghost var items;
      res, items := Scan(user, hour, name, Some((m.Low(), m.High())), Some(m));
      if res.Err? {
        return;
      }
      MatcherScanned(old(w), w, items, paged == old(paged), user, hour, name, m);
      var chunkSet := SortById(res.value);
      FitsReordered(w, old(w).done, res.value, chunkSet, paged == old(paged), user, hour, name, m);
      res := Ok(chunkSet);
    }

    /** lookupChunksFor: one goroutine per matcher, their lists intersected in order of arrival. */
    method LookupChunksFor(user: Bytes, hour: int, name: Bytes, ms: seq<Matcher>) returns (res: Outcome<seq<Chunk>>)
      requires Valid(w) && PlainUser(user)
      modifies this`w, this`failures, this`paged
      ensures Valid(w) && Grows(old(w), w) && old(failures) <= failures && old(paged) <= paged
      ensures (res.Panic? <==> !AllSafe(ms)) && (!res.Panic? ==> (res.Err? <==> failures > old(failures)))
      ensures res.Ok? ==> Strict(res.value) && HourSound(w, res.value, user, hour, name, ms)
      ensures res.Ok? && paged == old(paged) && AllScannable(ms) ==>
        HourComplete(old(w).done, res.value, user, hour, name, ms)
      ensures res.Ok? && !AllScannable(ms) ==> res.value == []
    {
      if |ms| == 0 {
        res := LookupChunksForMetricName(user, hour, name);
        return;
      }
      var chunkSets: seq<seq<Chunk>>, lastErr := [], false;
      var pending := Indices(|ms|);
      ghost var order: seq<nat> := [];
      while pending != {}
        invariant Valid(w) && Grows(old(w), w) && old(failures) <= failures && old(paged) <= paged
        invariant pending <= Indices(|ms|)
        invariant lastErr <==> failures > old(failures)
        invariant Reported(order, pending, ms)
        invariant forall k :: 0 <= k < |chunkSets| ==> Strict(chunkSets[k])
        invariant !lastErr ==> Arrived(w, old(w).done, chunkSets, order, paged == old(paged), user, hour, name, ms)
        decreases pending
      {
        var i :| i in pending;
        ghost var before, single := w, paged == old(paged);
        ghost var paged0 := paged;
        var incoming := LookupChunksForMatcher(user, hour, name, ms[i]);
        if incoming.Panic? {
          return Panic;
        }
        GrowsTransitive(old(w), before, w);
        if incoming.Err? {
          lastErr := true;
        } else {
          if !lastErr {
            FitsFewer(w, old(w).done, before.done, incoming.value, paged == paged0, user, hour, name, ms[i]);
            ArrivedStep(
              before, w, old(w).done, chunkSets, order, single, paged == paged0,
              user, hour, name, ms, i, incoming.value);
          }
          chunkSets := chunkSets + [incoming.value];
        }
        pending := pending - {i};
        order := order + [i];
      }
      var chunks := NWayIntersect(chunkSets);
      if lastErr {
        return Err;
      }
      res := Ok(chunks);
      ArrivedAll(w, old(w).done, chunkSets, order, paged == old(paged), user, hour, name, ms, chunks);
    }

    /** lookupChunks: one goroutine per hour, their lists merged in order of arrival. */
    method LookupChunks(user: Bytes, from: int, through: int, name: Bytes, ms: seq<Matcher>)
      returns (res: Outcome<seq<Chunk>>)
      requires Valid(w) && PlainUser(user)
      modifies this`w, this`failures, this`paged
      ensures Valid(w) && Grows(old(w), w) && old(failures) <= failures && old(paged) <= paged
      ensures res.Panic? <==> !AllSafe(ms) && Hour(from) <= Hour(through)
      ensures !res.Panic? ==> (res.Err? <==> failures > old(failures))
      ensures res.Ok? ==> Strict(res.value) && FoundSound(w, res.value, user, from, through, name, ms)
      ensures res.Ok? && paged == old(paged) && AllScannable(ms) ==>
        FoundComplete(old(w).done, res.value, user, from, through, name, ms)
      ensures res.Ok? && !AllScannable(ms) ==> res.value == []
    {
      var buckets := BigBuckets(from, through);
      var pending := set h | h in buckets;
      var chunks: seq<Chunk>, lastErr := [], false;
      while pending != {}
        invariant Valid(w) && Grows(old(w), w) && old(failures) <= failures && old(paged) <= paged
        invariant forall h :: h in pending ==> InBuckets(h, from, through)
        invariant !AllSafe(ms) ==> forall h :: h in buckets ==> h in pending
        invariant lastErr <==> failures > old(failures)
        invariant Strict(chunks) && FoundSound(w, chunks, user, from, through, name, ms)
        invariant !lastErr && paged == old(paged) && AllScannable(ms) ==>
          HoursDone(old(w).done, chunks, pending, user, from, through, name, ms)
        invariant !AllScannable(ms) ==> chunks == []
        decreases pending
      {
        var hour :| hour in pending;
        ghost var before, was := w, chunks;
        var incoming := LookupChunksFor(user, hour, name, ms);
        if incoming.Panic? {
          return Panic;
        }
        GrowsTransitive(old(w), before, w);
        if incoming.Err? {
          lastErr := true;
          FoundLater(before, w, chunks, user, from, through, name, ms);
        } else {
          HourMerged(before, w, chunks, incoming.value, hour, user, from, through, name, ms);
          chunks := Merge(chunks, incoming.value);
          if !lastErr && paged == old(paged) && AllScannable(ms) {
            HoursDoneStep(old(w).done, was, incoming.value, chunks, hour, pending, user, from, through, name, ms);
          }
        }
        pending := pending - {hour};
      }
      assert Hour(from) <= Hour(through) ==> Hour(from) in buckets;
      if lastErr {
        return Err;
      }
      if paged == old(paged) && AllScannable(ms) {
        HoursDoneAll(old(w).done, chunks, user, from, through, name, ms);
      }
      res := Ok(chunks);
    }

    // ----- Get: the cache and S3 ------------------------------------------------------------

    /** FetchChunkData of the cache: one GetMulti, then a split into found and missing. */
    method FetchFromCache(user: Bytes, chunks: seq<Chunk>) returns (found: seq<Chunk>, missing: seq<Chunk>)
      requires Valid(w) && AllKnown(w, chunks, user)
      modifies this`w
      ensures Valid(w) && Grows(old(w), w) && failures == old(failures) && paged == old(paged)
      ensures multiset(Bare(found)) + multiset(missing) == multiset(chunks)
      ensures AllStored(w, found, user)
    {
      Interfere();
      KnownLater(old(w), w, chunks, user);
      var up: bool := *;
      if !up {
        return [], chunks;
      }
      found, missing := SplitByCache(user, chunks, w.cache, w);
    }

    /** GetObject: the blob of a known chunk is always there. */
    method GetObject(user: Bytes, c: Chunk) returns (ok: bool, data: Bytes)
      requires Valid(w) && Known(w, c, user)
      modifies this`w, this`failures
      ensures Valid(w) && Grows(old(w), w) && paged == old(paged)
      ensures ok ==> Stored(w, c.(data := data), user)
      ensures failures == old(failures) + if ok then 0 else 1
    {
      Interfere();
      KnownGrows(old(w), w, c, user);
      FillKnown(w, c, user);
      ok := ServiceUp();
      data := w.s3[ChunkName(user, c.id)];
    }

    /** fetchChunkData: one goroutine per chunk reads its S3 object; results in order of arrival. */
    method FetchFromS3(user: Bytes, chunks: seq<Chunk>) returns (res: Outcome<seq<Chunk>>)
      requires Valid(w) && AllKnown(w, chunks, user)
      modifies this`w, this`failures
      ensures Valid(w) && Grows(old(w), w) && old(failures) <= failures && paged == old(paged)
      ensures !res.Panic? && (res.Err? <==> failures > old(failures))
      ensures res.Ok? ==> multiset(Bare(res.value)) == multiset(chunks) && AllStored(w, res.value, user)
    {
      var arrivals := Sorting.Shuffle(chunks);
      ShuffledKnown(w, arrivals, chunks, user);
      var fetched: seq<Chunk>, failed := [], false;
      for i := 0 to |arrivals|
        invariant Valid(w) && Grows(old(w), w) && old(failures) <= failures && paged == old(paged)
        invariant failed <==> failures > old(failures)
        invariant !failed ==> multiset(Bare(fetched)) == multiset(arrivals[..i])
        invariant AllStored(w, fetched, user)
      {
        ghost var before := w;
        KnownGrows(old(w), w, arrivals[i], user);
        var ok, data := GetObject(user, arrivals[i]);
        GrowsTransitive(old(w), before, w);
        StoredLater(before, w, fetched, user);
        TakeOne(arrivals, i);
        if ok {
          StoredAppend(w, fetched, arrivals[i].(data := data), user);
          fetched := Filled(fetched, arrivals[i], data);
        } else {
          failed := true;
        }
      }
      assert arrivals[..|arrivals|] == arrivals;
      res := if failed then Err else Ok(fetched);
    }

    /** StoreChunkData. */
    method StoreChunkData(user: Bytes, c: Chunk)
      requires Valid(w) && Stored(w, c, user)
      modifies this`w, this`failures
      ensures Valid(w) && Grows(old(w), w) && failures == old(failures)
    {
      var ok := Send(Cache(Entry(user, c)));
    }

    /**
      StoreChunks: the goroutines share the loop variable, so each stores whichever element it
      points to by then.
     */
    method StoreChunks(user: Bytes, chunks: seq<Chunk>)
      requires Valid(w) && AllStored(w, chunks, user)
      modifies this`w, this`failures
      ensures Valid(w) && Grows(old(w), w) && failures == old(failures)
    {
      for i := 0 to |chunks|
        invariant Valid(w) && Grows(old(w), w) && failures == old(failures)
      {
        var k :| i <= k < |chunks|;
        ghost var before := w;
        StoredLater(old(w), w, chunks, user);
        StoreChunkData(user, chunks[k]);
        GrowsTransitive(old(w), before, w);
      }
    }

    /**
      Get.  Under any interference it returns, strictly ordered by ID, chunks of this user that the
      query selects, and among them every selected chunk whose Put had returned before the call,
      provided DynamoDB answers in single pages and no scan is inverted.  In plain terms: what is
      returned satisfies every matcher that the caller gave and is less than two hours away, and what
      overlaps in time and satisfies them all is returned.
     */
    method Get(user: Bytes, from: int, through: int, matchers: array<Matcher>) returns (res: Outcome<seq<Chunk>>)
      requires Valid(w) && COLON !in user && SLASH !in user
      modifies this`w, this`failures, this`paged, matchers
      ensures Valid(w) && Grows(old(w), w)
      ensures matchers[..] == AfterExtract(old(matchers[..]))
      ensures NameMatcher(old(matchers[..])).None? ==> res == Err
      ensures NameMatcher(old(matchers[..])).Some? ==>
        var (name, ms) := NameMatcher(old(matchers[..])).value;
        && (res.Panic? <==> !AllSafe(ms) && Hour(from) <= Hour(through))
        && (!res.Panic? ==> (res.Err? <==> failures > old(failures)))
        && (res.Ok? ==> Strict(res.value) && AnswerSound(w, res.value, user, from, through, name, ms))
        && (res.Ok? && paged == old(paged) && AllScannable(ms) ==>
          AnswerComplete(old(w).done, res.value, user, from, through, name, ms))
        && (res.Ok? && !AllScannable(ms) ==> res.value == [])
      ensures res.Ok? ==> forall c, i :: c in res.value && 0 <= i < matchers.Length ==>
        var m := old(matchers[..])[i];
        && Entry(user, c) in w.issued && m.name in c.metric
        && (m.kind.Equal? ==> c.metric[m.name] == m.value)
        && (m.kind.NotEqual? ==> c.metric[m.name] != m.value)
        && (m.kind.RegexMatch? ==> m.re(c.metric[m.name]))
        && (m.kind.RegexNoMatch? ==> !m.re(c.metric[m.name]))
        && c.from - through < 7_200_000 && from - c.through < 7_200_000
      ensures res.Ok? && paged == old(paged) && AllScannable(NameMatcher(old(matchers[..])).value.1) ==>
        forall c :: Entry(user, c) in old(w).done && AskedFor(c, from, through, old(matchers[..])) ==> c in res.value
    {
      res := Find(user, from, through, matchers);
      ghost var q := old(matchers[..]);
      if res.Ok? {
        SoundPlainly(w, res.value, user, from, through, q);
        if paged == old(paged) && AllScannable(NameMatcher(q).value.1) {
          CompletePlainly(old(w).done, res.value, user, from, through, q);
        }
      }
    }

    /** Get up to stating its result in plain terms: the lookup, then the data. */
    method Find(user: Bytes, from: int, through: int, matchers: array<Matcher>) returns (res: Outcome<seq<Chunk>>)
      requires Valid(w) && PlainUser(user)
      modifies this`w, this`failures, this`paged, matchers
      ensures Valid(w) && Grows(old(w), w)
      ensures matchers[..] == AfterExtract(old(matchers[..]))
      ensures NameMatcher(old(matchers[..])).None? ==> res == Err
      ensures NameMatcher(old(matchers[..])).Some? ==>
        var (name, ms) := NameMatcher(old(matchers[..])).value;
        && (res.Panic? <==> !AllSafe(ms) && Hour(from) <= Hour(through))
        && (!res.Panic? ==> (res.Err? <==> failures > old(failures)))
        && (res.Ok? ==> Strict(res.value) && AnswerSound(w, res.value, user, from, through, name, ms))
        && (res.Ok? && paged == old(paged) && AllScannable(ms) ==>
          AnswerComplete(old(w).done, res.value, user, from, through, name, ms))
        && (res.Ok? && !AllScannable(ms) ==> res.value == [])
    {
      var name := ExtractMetricName(matchers);
      if !name.Ok? {
        return Err;
      }
      ghost var w0 := w;
      var ms := matchers[..matchers.Length - 1];
      var looked := LookupChunks(user, from, through, name.value, ms);
      if !looked.Ok? {
        return looked;
      }
      ghost var w1 := w;
      res := Retrieve(user, looked.value);
      GrowsTransitive(w0, w1, w);
      if res.Ok? {
        FoundLater(w1, w, looked.value, user, from, through, name.value, ms);
        AnswerFilled(w, w0, res.value, looked.value, user, from, through, name.value, ms);
        Inhabited(res.value);
      }
    }

    /**
      The second half of Get: the data of the chunks looked up, sorted.  Whatever the cache held, lost or
      failed to answer, the result is the chunks with their S3 blobs.
     */
    method Retrieve(user: Bytes, looked: seq<Chunk>) returns (res: Outcome<seq<Chunk>>)
      requires Valid(w) && AllKnown(w, looked, user) && Strict(looked)
      modifies this`w, this`failures
      ensures Valid(w) && Grows(old(w), w) && old(failures) <= failures && paged == old(paged)
      ensures !res.Panic? && (res.Err? <==> failures > old(failures))
      ensures HaveBlobs(w.s3, user, looked)
      ensures res.Ok? ==> res.value == WithBlobs(w.s3, user, looked)
      ensures res.Ok? ==> Strict(res.value) && AllStored(w, res.value, user)
      ensures res.Ok? ==> Bare(res.value) == looked
    {
      var chunks := FillIn(user, looked);
      KnownLater(old(w), w, looked, user);
      BlobsThere(w, looked, user);
      if !chunks.Ok? {
        return Err;
      }
      FilledMembers(chunks.value, looked);
      var sorted := SortById(chunks.value);
      FilledIsBlobs(w, sorted, looked, user);
      res := Ok(sorted);
    }

    /** Data from the cache, the rest from S3 and into the cache. */
    method FillIn(user: Bytes, looked: seq<Chunk>) returns (res: Outcome<seq<Chunk>>)
      requires Valid(w) && AllKnown(w, looked, user)
      modifies this`w, this`failures
      ensures Valid(w) && Grows(old(w), w) && old(failures) <= failures && paged == old(paged)
      ensures !res.Panic? && (res.Err? <==> failures > old(failures))
      ensures res.Ok? ==> multiset(Bare(res.value)) == multiset(looked) && AllStored(w, res.value, user)
    {
      var fromCache: seq<Chunk>, missing := [], looked;
      if cached {
        fromCache, missing := FetchFromCache(user, missing);
      }
      ghost var w1 := w;
      assert multiset(Bare(fromCache)) + multiset(missing) == multiset(looked);
      SubsetKnown(old(w), w1, looked, missing, user);
      var fromS3 := FetchFromS3(user, missing);
      ghost var w2 := w;
      GrowsTransitive(old(w), w1, w2);
      if fromS3.Err? {
        return Err;
      }
      StoredLater(w1, w2, fromCache, user);
      if cached {
        StoreChunks(user, fromS3.value);
      }
      GrowsTransitive(old(w), w2, w);
      StoredLater(w2, w, fromCache + fromS3.value, user);
      BareAppend(fromCache, fromS3.value);
      res := Ok(fromCache + fromS3.value);
    }

    // ----- Put ----------------------------------------------------------------------------------

    /** putChunk: the blob to S3, then to the cache. */
    method PutChunk(user: Bytes, c: Chunk) returns (ok: bool)
      requires Valid(w) && Entry(user, c) in w.issued
      modifies this`w, this`failures
      ensures Valid(w) && Grows(old(w), w) && old(failures) <= failures
      ensures ok ==> Stored(w, c, user)
      ensures !ok <==> failures > old(failures)
    {
      ok := Send(PutBlob(Entry(user, c)));
      if ok && cached {
        ghost var before := w;
        StoreChunkData(user, c);
        GrowsTransitive(old(w), before, w);
      }
    }

    /** putChunks: one goroutine per chunk; failures are reported only after all have finished. */
    method PutChunks(user: Bytes, chunks: seq<Chunk>) returns (ok: bool)
      requires Valid(w) && EntriesOf(user, chunks) <= w.issued
      modifies this`w, this`failures
      ensures Valid(w) && Grows(old(w), w) && old(failures) <= failures
      ensures ok ==> AllStored(w, chunks, user)
      ensures !ok <==> failures > old(failures)
    {
      var arrivals := Sorting.Shuffle(chunks);
      Sorting.SameMembers(arrivals, chunks);
      ok := true;
      for i := 0 to |arrivals|
        invariant Valid(w) && Grows(old(w), w) && old(failures) <= failures
        invariant ok ==> AllStored(w, arrivals[..i], user)
        invariant !ok <==> failures > old(failures)
      {
        assert arrivals[..i + 1] == arrivals[..i] + [arrivals[i]];
        assert Entry(user, arrivals[i]) in EntriesOf(user, chunks);
        ghost var before := w;
        var stored := PutChunk(user, arrivals[i]);
        GrowsTransitive(old(w), before, w);
        if ok {
          StoredLater(before, w, arrivals[..i], user);
        }
        ok := ok && stored;
      }
      assert arrivals[..|arrivals|] == arrivals;
    }

    /** One item of a batch is written, fails, or is left unprocessed. */
    method PutItem(u: Write) returns (ok: bool)
      requires Valid(w) && RowBacked(w, u.key, u.meta)
      modifies this`w, this`failures, this`unprocessed
      ensures Valid(w) && Grows(old(w), w) && old(unprocessed) <= unprocessed
      ensures ok && unprocessed == old(unprocessed) ==> u.key in w.table
      ensures failures == old(failures) + if ok then 0 else 1
    {
      var skipped: bool := *;
      if skipped {
        unprocessed := unprocessed + 1;
        ok := true;
      } else {
        ok := Send(PutRow(u.key, u.meta));
      }
    }

    /**
      batchWriteDynamo: the items of a batch are written one by one, and it may fail after any of them.
      DynamoDB may also leave items unprocessed and report success all the same.
     */
    method BatchWriteDynamo(batch: seq<Write>) returns (ok: bool)
      requires Valid(w) && AllBacked(w, batch)
      modifies this`w, this`failures, this`unprocessed
      ensures Valid(w) && Grows(old(w), w) && old(unprocessed) <= unprocessed
      ensures ok && unprocessed == old(unprocessed) ==> AllWritten(w, batch)
      ensures failures == old(failures) + if ok then 0 else 1
    {
      for i := 0 to |batch|
        invariant Valid(w) && Grows(old(w), w) && failures == old(failures) && old(unprocessed) <= unprocessed
        invariant unprocessed == old(unprocessed) ==> AllWritten(w, batch[..i])
      {
        ghost var before := w;
        BackedAt(old(w), w, batch, i);
        ok := PutItem(batch[i]);
        GrowsTransitive(old(w), before, w);
        if !ok {
          return;
        }
        if unprocessed == old(unprocessed) {
          WrittenStep(before, w, batch, i);
        }
      }
      assert batch[..|batch|] == batch;
      ok := true;
    }

    /** updateIndex: the batches in parallel; success only if all succeeded. */
    method UpdateIndex(user: Bytes, chunks: seq<Chunk>) returns (res: Outcome<()>)
      requires Valid(w) && AllStored(w, chunks, user)
      modifies this`w, this`failures, this`unprocessed
      ensures Valid(w) && Grows(old(w), w) && old(failures) <= failures && old(unprocessed) <= unprocessed
      ensures res.Ok? && unprocessed == old(unprocessed) ==>
        forall c :: c in chunks ==> FullyIndexed(w, Entry(user, c))
      ensures res == if failures > old(failures) then Err else IndexOutcome(chunks)
    {
      var writes := CalculateDynamoWrites(user, chunks);
      if !writes.Ok? {
        return if writes.Err? then Err else Panic;
      }
      WritesBacked(w, user, chunks, writes.value);
      var batches := BatchRequests(writes.value);
      var arrivals := Sorting.Shuffle(batches);
      Sorting.SameMembers(arrivals, batches);
      var ok := true;
      for i := 0 to |arrivals|
        invariant Valid(w) && Grows(old(w), w) && old(failures) <= failures && old(unprocessed) <= unprocessed
        invariant ok && unprocessed == old(unprocessed) ==> forall k :: 0 <= k < i ==> AllWritten(w, arrivals[k])
        invariant !ok <==> failures > old(failures)
      {
        ghost var before := w;
        assert arrivals[i] in batches;
        BatchBacked(old(w), w, writes.value, batches, arrivals[i]);
        var wrote := BatchWriteDynamo(arrivals[i]);
        GrowsTransitive(old(w), before, w);
        if ok && unprocessed == old(unprocessed) {
          forall k | 0 <= k < i ensures AllWritten(w, arrivals[k]) {
            WrittenLater(before, w, arrivals[k]);
          }
        }
        ok := ok && wrote;
      }
      if !ok {
        return Err;
      }
      if unprocessed == old(unprocessed) {
        IndexComplete(w, user, chunks, writes.value, batches, arrivals);
      }
      res := Ok(());
    }

    /**
      Put.  Under any interference and whatever fails, every row it writes has its blob in S3
      first; when it returns success and DynamoDB left nothing unprocessed, the chunks are found from then on.
     */
    method Put(user: Bytes, chunks: seq<Chunk>) returns (res: Outcome<()>)
      requires Valid(w) && WriteOnce(w.issued + EntriesOf(user, chunks))
      modifies this`w, this`failures, this`unprocessed
      ensures Valid(w) && Grows(old(w), w)
      ensures old(unprocessed) <= unprocessed
      ensures forall c :: c in chunks ==> Entry(user, c) in w.issued
      ensures res.Ok? && unprocessed == old(unprocessed) ==> forall c :: c in chunks ==> Entry(user, c) in w.done
      ensures res == if failures > old(failures) then Err else IndexOutcome(chunks)
    {
      var before := unprocessed;
      Take(Issue(EntriesOf(user, chunks)));
      ghost var w1 := w;
      var ok := PutChunks(user, chunks);
      ghost var w2 := w;
      GrowsTransitive(old(w), w1, w2);
      if !ok {
        return Err;
      }
      res := UpdateIndex(user, chunks);
      ghost var w3 := w;
      GrowsTransitive(old(w), w2, w3);
      StoredLater(w2, w3, chunks, user);
      if res.Ok? && unprocessed == before {
        Take(Complete(EntriesOf(user, chunks)));
        GrowsTransitive(old(w), w3, w);
      }
    }
  }

  /**
    The same chunks fetched from two stores in any states, at any times, with a cache or without: unless one
    ID was used for two chunks, both give the same list.
   */
  method FetchBoth(a: AWSStore, b: AWSStore, user: Bytes, looked: seq<Chunk>)
    returns (r: Outcome<seq<Chunk>>, r': Outcome<seq<Chunk>>)
    requires a != b && Valid(a.w) && Valid(b.w) && Strict(looked)
    requires AllKnown(a.w, looked, user) && AllKnown(b.w, looked, user)
    modifies a, b
    ensures r.Ok? && r'.Ok? && WriteOnce(a.w.issued + b.w.issued) ==> r == r'
  {
    r := a.Retrieve(user, looked);
    r' := b.Retrieve(user, looked);
    KnownLater(old(a.w), a.w, looked, user);
    KnownLater(old(b.w), b.w, looked, user);
    if WriteOnce(a.w.issued + b.w.issued) {
      SameBlobs(a.w, b.w, looked, user);
    }
  }

  /**
    The same query to two stores with the same contents, one with a cache and the other without, say: if
    nothing is put meanwhile and DynamoDB answers in single pages, both give the same list.
   */
  method AskBoth(a: AWSStore, b: AWSStore, user: Bytes, from: int, through: int, ma: array<Matcher>, mb: array<Matcher>)
    returns (r: Outcome<seq<Chunk>>, r': Outcome<seq<Chunk>>)
    requires a != b && ma != mb && ma[..] == mb[..] && PlainUser(user)
    requires Valid(a.w) && a.w == b.w && a.w.done == a.w.issued
    modifies a, b, ma, mb
    ensures NameMatcher(old(ma[..])).None? ==> r == Err && r' == Err
    ensures r.Panic? <==> r'.Panic?
    ensures a.w.issued == b.w.issued == old(a.w.issued) && a.paged == old(a.paged) && b.paged == old(b.paged) ==>
      r.Ok? && r'.Ok? ==> r == r'
  {
    r := a.Get(user, from, through, ma);
    r' := b.Get(user, from, through, mb);
    if r.Ok? && r'.Ok? && a.w.issued == b.w.issued == old(a.w.issued) {
      ghost var q := NameMatcher(old(ma[..])).value;
      if a.paged == old(a.paged) && b.paged == old(b.paged) && AllScannable(q.1) {
        assert AnswerSound(a.w, r'.value, user, from, through, q.0, q.1);
        AnswerDetermined(a.w, r.value, r'.value, user, from, through, q.0, q.1);
      }
    }
  }

  /**
    The round trip: chunks are put, and a query made afterwards, whatever runs beside both, returns every one
    of them that overlaps it in time and satisfies its matchers, data included.
   */
  method PutThenGet(
    store: AWSStore, user: Bytes, chunks: seq<Chunk>, from: int, through: int, matchers: array<Matcher>)
    returns (put: Outcome<()>, got: Outcome<seq<Chunk>>)
    requires Valid(store.w) && PlainUser(user) && WriteOnce(store.w.issued + EntriesOf(user, chunks))
    modifies store, matchers
    ensures NameMatcher(old(matchers[..])).None? ==> got == Err
    ensures
      && put.Ok? && got.Ok? && store.unprocessed == old(store.unprocessed) && store.paged == old(store.paged)
      && AllScannable(NameMatcher(old(matchers[..])).value.1)
      ==>
        forall c :: c in chunks && AskedFor(c, from, through, old(matchers[..])) ==> c in got.value
  {
    put := store.Put(user, chunks);
    ghost var w1 := store.w;
    got := store.Get(user, from, through, matchers);
    ghost var q := old(matchers[..]);
    if put.Ok? && got.Ok? && store.unprocessed == old(store.unprocessed) && store.paged == old(store.paged) {
      if AllScannable(NameMatcher(q).value.1) {
        AllFound(w1.done, chunks, got.value, user, from, through, q);
      }
    }
  }

  lemma {:induction false} AllFound(
    done: set<Entry>, chunks: seq<Chunk>, r: seq<Chunk>, user: Bytes, from: int, through: int, q: seq<Matcher>)
    requires forall c :: c in chunks ==> Entry(user, c) in done
    requires forall c :: Entry(user, c) in done && AskedFor(c, from, through, q) ==> c in r
    ensures forall c :: c in chunks && AskedFor(c, from, through, q) ==> c in r
  {
  }
}
