/** The rows one Put writes: calculateDynamoWrites and batchRequests. */
module IndexWrites {
  import opened ByteStrings
  import opened Buckets
  import opened Keys
  import opened ChunkLists
  import opened ChunkIndex
  import opened Answers
  import opened Seqs

  const DYNAMO_MAX_BATCH_SIZE := 25

  datatype Write = Write(key: RowKey, meta: Meta)

  function WriteOf(user: Bytes, c: Chunk, hour: int, l: Bytes): Write
    requires NAME in c.metric && l in c.metric
  {
    Write(RowKeyOf(Entry(user, c), hour, l), MetaOf(c))
  }

  ghost predicate NoRepeat(ws: seq<Write>) {
    forall i, j :: 0 <= i < j < |ws| ==> ws[i].key != ws[j].key
  }

  predicate Encodable(c: Chunk, l: Bytes)
    requires l in c.metric
  {
    NullFree(l) && NullFree(c.metric[l]) && NullFree(c.id)
  }

  /** Every label of c but the name can be encoded. */
  predicate AllEncodable(c: Chunk) {
    forall l :: l in c.metric && l != NAME ==> Encodable(c, l)
  }

  /** Indexing c neither fails nor panics. */
  predicate Indexable(c: Chunk) {
    NAME in c.metric && (Hour(c.from) <= Hour(c.through) ==> AllEncodable(c))
  }

  /** The index of the first chunk that cannot be indexed, the length if all can. */
  function FirstBad(chunks: seq<Chunk>): (i: nat)
    ensures i <= |chunks| && (i < |chunks| ==> !Indexable(chunks[i]))
    ensures forall k :: 0 <= k < i ==> Indexable(chunks[k])
  {
    if chunks == [] || !Indexable(chunks[0]) then 0 else 1 + FirstBad(chunks[1..])
  }

  /** What indexing comes to: the first bad chunk decides, with an error if it has no metric name. */
  function IndexOutcome(chunks: seq<Chunk>): (res: Outcome<()>)
    ensures res.Ok? <==> forall c :: c in chunks ==> Indexable(c)
    ensures forall i ::
      0 <= i < |chunks| && !Indexable(chunks[i]) && (forall k :: 0 <= k < i ==> Indexable(chunks[k])) ==>
        res == if NAME in chunks[i].metric then Panic else Err
  {
    var i := FirstBad(chunks);
    if i == |chunks| then Ok(()) else if NAME !in chunks[i].metric then Err else Panic
  }

  /** u is the write of some label of c in this hour. */
  ghost predicate WriteInHour(user: Bytes, c: Chunk, hour: int, u: Write) {
    exists l :: Indexed(c, hour, l) && u == WriteOf(user, c, hour, l)
  }

  ghost predicate WriteFor(user: Bytes, c: Chunk, u: Write) {
    exists hour, l :: Indexed(c, hour, l) && u == WriteOf(user, c, hour, l)
  }

  ghost predicate WriteForSome(user: Bytes, chunks: seq<Chunk>, u: Write) {
    exists c :: c in chunks && WriteFor(user, c, u)
  }

  /** Rows of one user under different hours or for different chunk IDs have different keys. */
  lemma {:induction false} KeysDiffer(user: Bytes, c: Chunk, hour: int, l: Bytes, c': Chunk, hour': int, l': Bytes)
    requires Indexed(c, hour, l) && Indexed(c', hour', l')
    ensures hour != hour' || c.id != c'.id || l != l' ==>
              WriteOf(user, c, hour, l).key != WriteOf(user, c', hour', l').key
  {
    HashValueOfOneUser(user, hour, c.metric[NAME], hour', c'.metric[NAME]);
    RangeInjective(c, l, c', l');
  }

  lemma {:induction false} NoRepeatConcat(a: seq<Write>, b: seq<Write>)
    requires NoRepeat(a) && NoRepeat(b)
    requires forall u, v :: u in a && v in b ==> u.key != v.key
    ensures NoRepeat(a + b)
  {
    forall i, j | 0 <= i < j < |a + b| ensures (a + b)[i].key != (a + b)[j].key {
      if i < |a| && j >= |a| {
        assert a[i] in a && b[j - |a|] in b;
      }
    }
  }

  /** The labels of one chunk in one hour, in whatever order the map yields them. */
  method HourWrites(user: Bytes, c: Chunk, hour: int) returns (res: Outcome<seq<Write>>)
    requires NAME in c.metric && InBuckets(hour, c.from, c.through)
    ensures !res.Err? && (res.Ok? <==> AllEncodable(c))
    ensures res.Ok? ==> NoRepeat(res.value) && forall u :: u in res.value <==> WriteInHour(user, c, hour, u)
  {
    var writes: seq<Write>, labels := [], c.metric.Keys - {NAME};
    while labels != {}
      invariant labels <= c.metric.Keys - {NAME}
      invariant forall l :: l in c.metric && l != NAME && l !in labels ==>
        Encodable(c, l) && WriteOf(user, c, hour, l) in writes
      invariant forall u :: u in writes ==>
        exists l :: l !in labels && Indexed(c, hour, l) && u == WriteOf(user, c, hour, l)
      invariant NoRepeat(writes)
      decreases labels
    {
      var l :| l in labels;
      if !Encodable(c, l) {
        return Panic;
      }
      var u := WriteOf(user, c, hour, l);
      forall v | v in writes ensures v.key != u.key {
        var l' :| l' !in labels && Indexed(c, hour, l') && v == WriteOf(user, c, hour, l');
        KeysDiffer(user, c, hour, l', c, hour, l);
      }
      NoRepeatConcat(writes, [u]);
      labels := labels - {l};
      writes := writes + [u];
    }
    res := Ok(writes);
  }

  /** All hours of one chunk. */
  method ChunkWrites(user: Bytes, c: Chunk) returns (res: Outcome<seq<Write>>)
    requires NAME in c.metric
    ensures !res.Err? && (res.Ok? <==> Indexable(c))
    ensures res.Ok? ==> NoRepeat(res.value) && forall u :: u in res.value <==> WriteFor(user, c, u)
  {
    var hours := BigBuckets(c.from, c.through);
    var writes: seq<Write> := [];
    for i := 0 to |hours|
      invariant i > 0 ==> AllEncodable(c)
      invariant NoRepeat(writes)
      invariant forall u :: u in writes <==> exists k :: 0 <= k < i && WriteInHour(user, c, hours[k], u)
    {
      assert hours[i] in hours;
      var more := HourWrites(user, c, hours[i]);
      if more.Panic? {
        return Panic;
      }
      forall u, v | u in writes && v in more.value ensures u.key != v.key {
        var k :| 0 <= k < i && WriteInHour(user, c, hours[k], u);
        var l :| Indexed(c, hours[k], l) && u == WriteOf(user, c, hours[k], l);
        var l' :| Indexed(c, hours[i], l') && v == WriteOf(user, c, hours[i], l');
        KeysDiffer(user, c, hours[k], l, c, hours[i], l');
      }
      NoRepeatConcat(writes, more.value);
      writes := writes + more.value;
    }
    assert Hour(c.from) <= Hour(c.through) ==> Hour(c.from) in hours;
    forall u | WriteFor(user, c, u) ensures u in writes {
      var hour, l :| Indexed(c, hour, l) && u == WriteOf(user, c, hour, l);
      assert hour in hours && WriteInHour(user, c, hour, u);
    }
    res := Ok(writes);
  }

  /**
    calculateDynamoWrites: exactly the rows of the chunks; with distinct chunk IDs no key twice.
    The first chunk that cannot be indexed decides: without a metric name it is an error, otherwise a label
    cannot be encoded and it is a panic.
   */
  method CalculateDynamoWrites(user: Bytes, chunks: seq<Chunk>) returns (res: Outcome<seq<Write>>)
    ensures (if res.Ok? then Ok(()) else if res.Err? then Err else Panic) == IndexOutcome(chunks)
    ensures res.Ok? ==> forall u :: u in res.value <==> WriteForSome(user, chunks, u)
    ensures res.Ok? && |Ids(chunks)| == |chunks| ==> NoRepeat(res.value)
  {
    var writes: seq<Write> := [];
    ghost var distinct := |Ids(chunks)| == |chunks|;
    DistinctIds(chunks);
    for i := 0 to |chunks|
      invariant forall k :: 0 <= k < i ==> Indexable(chunks[k])
      invariant forall u :: u in writes <==> exists k :: 0 <= k < i && WriteFor(user, chunks[k], u)
      invariant distinct ==> NoRepeat(writes)
    {
      assert chunks[i] in chunks;
      assert !Indexable(chunks[i]) ==> i == FirstBad(chunks);
      if NAME !in chunks[i].metric {
        return Err;
      }
      var more := ChunkWrites(user, chunks[i]);
      if more.Panic? {
        return Panic;
      }
      if distinct {
        forall u, v | u in writes && v in more.value ensures u.key != v.key {
          var k :| 0 <= k < i && WriteFor(user, chunks[k], u);
          var hour, l :| Indexed(chunks[k], hour, l) && u == WriteOf(user, chunks[k], hour, l);
          var hour', l' :| Indexed(chunks[i], hour', l') && v == WriteOf(user, chunks[i], hour', l');
          KeysDiffer(user, chunks[k], hour, l, chunks[i], hour', l');
        }
        NoRepeatConcat(writes, more.value);
      }
      writes := writes + more.value;
    }
    res := Ok(writes);
  }

  /** How many batches so many rows make. */
  function BatchCount(rows: nat): nat {
    (rows + DYNAMO_MAX_BATCH_SIZE - 1) / DYNAMO_MAX_BATCH_SIZE
  }

  /** batchRequests: consecutive batches of 1 to 25 writes that together are exactly the writes. */
  method BatchRequests(writes: seq<Write>) returns (batches: seq<seq<Write>>)
    ensures Flatten(batches) == writes
    ensures forall b :: b in batches ==> 1 <= |b| <= 25
    ensures |batches| == BatchCount(|writes|)
  {
    batches := [];
    var i := 0;
    while i < |writes|
      invariant 0 <= i && i == DYNAMO_MAX_BATCH_SIZE * |batches|
      invariant i < |writes| + DYNAMO_MAX_BATCH_SIZE
      invariant Flatten(batches) == writes[..if i <= |writes| then i else |writes|]
      invariant forall b :: b in batches ==> 1 <= |b| <= DYNAMO_MAX_BATCH_SIZE
    {
      var reqs;
      if i + DYNAMO_MAX_BATCH_SIZE > |writes| {
        reqs := writes[i..];
      } else {
        reqs := writes[i..i + DYNAMO_MAX_BATCH_SIZE];
      }
      FlattenAppend(batches, reqs);
      batches := batches + [reqs];
      i := i + DYNAMO_MAX_BATCH_SIZE;
    }
  }

  // ----- writing them ---------------------------------------------------------------------

  function EntriesOf(user: Bytes, chunks: seq<Chunk>): set<Entry> {
    set c | c in chunks :: Entry(user, c)
  }

  /** Every write belongs to an issued chunk whose blob is stored. */
  ghost predicate AllBacked(w: World, ws: seq<Write>) {
    forall u :: u in ws ==> RowBacked(w, u.key, u.meta)
  }

  ghost predicate AllWritten(w: World, ws: seq<Write>) {
    forall u :: u in ws ==> u.key in w.table
  }

  lemma {:induction false} WrittenLater(w: World, w': World, ws: seq<Write>)
    requires Grows(w, w') && AllWritten(w, ws)
    ensures AllWritten(w', ws)
  {
  }

  lemma {:induction false} BackedLater(w: World, w': World, u: Write)
    requires Grows(w, w') && RowBacked(w, u.key, u.meta)
    ensures RowBacked(w', u.key, u.meta)
  {
    CarryOver(w, w');
  }

  lemma {:induction false} BackedAt(w: World, w': World, batch: seq<Write>, i: nat)
    requires AllBacked(w, batch) && Grows(w, w') && i < |batch|
    ensures RowBacked(w', batch[i].key, batch[i].meta)
  {
    assert batch[i] in batch;
    BackedLater(w, w', batch[i]);
  }

  lemma {:induction false} WrittenStep(w: World, w': World, batch: seq<Write>, i: nat)
    requires Grows(w, w') && i < |batch| && AllWritten(w, batch[..i]) && batch[i].key in w'.table
    ensures AllWritten(w', batch[..i + 1])
  {
    assert batch[..i + 1] == batch[..i] + [batch[i]];
  }

  lemma {:induction false} WritesBacked(w: World, user: Bytes, chunks: seq<Chunk>, ws: seq<Write>)
    requires AllStored(w, chunks, user) && forall u :: u in ws ==> WriteForSome(user, chunks, u)
    ensures AllBacked(w, ws)
  {
    forall u | u in ws ensures RowBacked(w, u.key, u.meta) {
      var c :| c in chunks && WriteFor(user, c, u);
      var hour, l :| Indexed(c, hour, l) && u == WriteOf(user, c, hour, l);
      assert Stored(w, c, user) && BlobName(Entry(user, c)) in w.s3;
    }
  }

  lemma {:induction false} BatchBacked(w: World, w': World, ws: seq<Write>, batches: seq<seq<Write>>, batch: seq<Write>)
    requires Grows(w, w') && AllBacked(w, ws) && Flatten(batches) == ws && batch in batches
    ensures AllBacked(w', batch)
  {
    CarryOver(w, w');
    forall u | u in batch ensures RowBacked(w', u.key, u.meta) {
      FlattenMember(batches, u);
    }
  }

  /** When every batch is written, every row of every chunk is. */
  lemma {:induction false} IndexComplete(
    w: World, user: Bytes, chunks: seq<Chunk>, ws: seq<Write>, batches: seq<seq<Write>>, arrivals: seq<seq<Write>>)
    requires forall c :: c in chunks ==> Indexable(c)
    requires forall u :: u in ws <==> WriteForSome(user, chunks, u)
    requires Flatten(batches) == ws && (forall b :: b in batches ==> b in arrivals)
    requires forall k :: 0 <= k < |arrivals| ==> AllWritten(w, arrivals[k])
    ensures forall c :: c in chunks ==> FullyIndexed(w, Entry(user, c))
  {
    forall c, hour, l | c in chunks && InBuckets(hour, c.from, c.through) && l in c.metric && l != NAME
      ensures Indexed(c, hour, l) && RowKeyOf(Entry(user, c), hour, l) in w.table
    {
      assert Indexable(c) && Encodable(c, l);
      var u := WriteOf(user, c, hour, l);
      assert WriteFor(user, c, u) && WriteForSome(user, chunks, u);
      FlattenMember(batches, u);
      var b :| b in batches && u in b;
      assert b in arrivals;
    }
  }
}
