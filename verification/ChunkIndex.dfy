/**
  The chunk index as data: what a row says, what a query selects, and the invariant that ties
  the DynamoDB table, the S3 bucket and the memcache to the chunks handed to Put.
 */
module ChunkIndex {
  import opened Options
  import opened ByteStrings
  import opened Buckets
  import opened Keys
  import opened ChunkLists

  /** "__name__" */
  const NAME: Bytes := [95, 95, 110, 97, 109, 101, 95, 95]

  lemma {:induction false} NameIs()
    ensures |NAME| == |"__name__"| && forall i :: 0 <= i < |NAME| ==> NAME[i] == "__name__"[i] as int
  {
  }

  datatype Outcome<+T> = Ok(value: T) | Err | Panic

  // ----- matchers -----------------------------------------------------------------

  datatype MatchType = Equal | NotEqual | RegexMatch | RegexNoMatch

  /** A label matcher; re stands for the compiled regular expression. */
  datatype Matcher = Matcher(kind: MatchType, name: Bytes, value: Bytes, re: Bytes -> bool) {
    predicate Match(v: Bytes) {
      match kind
      case Equal => value == v
      case NotEqual => value != v
      case RegexMatch => re(v)
      case RegexNoMatch => !re(v)
    }

    /** The string whose successor bounds the scan. */
    function Bounded(): Bytes {
      if kind.Equal? then value else name
    }

    /** Building the scan bounds does not panic. */
    predicate Safe() {
      var s := Bounded();
      s != [] && NullFree(name) && NullFree(s) && s[|s| - 1] != 0xFF
    }

    /** The scan range is not inverted. */
    predicate Scannable() {
      Safe() && Advances(Bounded())
    }

    function Low(): Bytes {
      if kind.Equal? then RangeValue(name, value, []) else RangeValue(name, [], [])
    }

    function High(): Bytes
      requires Safe()
    {
      if kind.Equal? then RangeValue(name, Next(value), []) else RangeValue(Next(name), [], [])
    }
  }

  /** Safe means that every string handed to the encoder for the bounds is free of nulls, next included. */
  lemma {:induction false} SafeMeans(m: Matcher)
    ensures m.kind.Equal? ==>
      (m.Safe() <==> m.value != [] && 0 !in m.name && 0 !in m.value && 0 !in Next(m.value))
    ensures !m.kind.Equal? ==> (m.Safe() <==> m.name != [] && 0 !in m.name && 0 !in Next(m.name))
  {
    if m.Bounded() != [] && NullFree(m.Bounded()) {
      NextNullFree(m.Bounded());
    }
  }

  predicate Between(lo: Bytes, k: Bytes, hi: Bytes) {
    AtMost(lo, k) && AtMost(k, hi)
  }

  /** The scan loses nothing: every row that would pass the filter lies between the bounds. */
  lemma {:induction false} ScanCovers(m: Matcher, v: Bytes, id: Bytes)
    requires m.Scannable() && NullFree(v) && NullFree(id) && m.Match(v)
    ensures Between(m.Low(), RangeValue(m.name, v, id), m.High())
  {
    NextAbove(m.Bounded());
    NextNullFree(m.Bounded());
    LessTotalOrder();
    if m.kind.Equal? {
      RangeValueOrder(m.name, v, id, m.name, m.value, []);
      RangeValueOrder(m.name, Next(m.value), [], m.name, v, id);
    } else {
      RangeValueOrder(m.name, v, id, m.name, [], []);
      RangeValueOrder(Next(m.name), [], [], m.name, v, id);
    }
  }

  /** Past last byte 0xC3 the bounds are inverted and no key at all lies between them. */
  lemma {:induction false} InvertedScan(m: Matcher, k: Bytes)
    requires m.Safe() && !m.Scannable()
    ensures !Between(m.Low(), k, m.High())
  {
    NextAbove(m.Bounded());
    NextNullFree(m.Bounded());
    LessTotalOrder();
    if m.kind.Equal? {
      RangeValueOrder(m.name, Next(m.value), [], m.name, m.value, []);
    } else {
      RangeValueOrder(Next(m.name), [], [], m.name, [], []);
    }
    assert Less(m.High(), m.Low());
    LessAsymmetric(m.Low(), k);
    LessAsymmetric(k, m.High());
  }

  // ----- rows ---------------------------------------------------------------------

  type RowKey = (Bytes, Bytes)

  /** The JSON part of a row: a chunk without its ID and data. */
  datatype Meta = Meta(from: int, through: int, metric: Metric)

  datatype Entry = Entry(user: Bytes, chunk: Chunk)

  function MetaOf(c: Chunk): Meta {
    Meta(c.from, c.through, c.metric)
  }

  /** What the index can return for c: everything but the data. */
  function WithoutData(c: Chunk): Chunk {
    c.(data := [])
  }

  predicate PlainUser(u: Bytes) {
    COLON !in u && SLASH !in u
  }

  /** Put writes a row for this label of the chunk in this hour, and its key can be encoded. */
  predicate Indexed(c: Chunk, hour: int, l: Bytes) {
    && NAME in c.metric && l in c.metric && l != NAME
    && InBuckets(hour, c.from, c.through)
    && NullFree(l) && NullFree(c.metric[l]) && NullFree(c.id)
  }

  function RangeOf(c: Chunk, l: Bytes): Bytes
    requires l in c.metric
  {
    RangeValue(l, c.metric[l], c.id)
  }

  function RowKeyOf(e: Entry, hour: int, l: Bytes): RowKey
    requires NAME in e.chunk.metric && l in e.chunk.metric
  {
    (HashValue(e.user, hour, e.chunk.metric[NAME]), RangeOf(e.chunk, l))
  }

  lemma {:induction false} RangeInjective(c: Chunk, l: Bytes, c': Chunk, l': Bytes)
    requires l in c.metric && NullFree(l) && NullFree(c.metric[l]) && NullFree(c.id)
    requires l' in c'.metric && NullFree(l') && NullFree(c'.metric[l']) && NullFree(c'.id)
    ensures RangeOf(c, l) == RangeOf(c', l') ==> l == l' && c.metric[l] == c'.metric[l'] && c.id == c'.id
  {
    ParseRoundTrip(l, c.metric[l], c.id);
    ParseRoundTrip(l', c'.metric[l'], c'.id);
  }

  /** A row key determines user, hour, metric name, label, value and chunk ID. */
  lemma {:induction false} RowKeyInjective(e: Entry, hour: int, l: Bytes, e': Entry, hour': int, l': Bytes)
    requires Indexed(e.chunk, hour, l) && PlainUser(e.user)
    requires Indexed(e'.chunk, hour', l') && PlainUser(e'.user)
    ensures RowKeyOf(e, hour, l) == RowKeyOf(e', hour', l') ==>
              e.user == e'.user && hour == hour' && e.chunk.metric[NAME] == e'.chunk.metric[NAME] &&
              l == l' && e.chunk.metric[l] == e'.chunk.metric[l'] && e.chunk.id == e'.chunk.id
  {
    RangeInjective(e.chunk, l, e'.chunk, l');
    if RowKeyOf(e, hour, l) == RowKeyOf(e', hour', l') {
      HashValueInjective(e.user, hour, e.chunk.metric[NAME], e'.user, hour', e'.chunk.metric[NAME]);
    }
  }

  // ----- the invariant ------------------------------------------------------------

  /**
    The three stores, with two ghost histories: issued holds every chunk ever passed to Put
    (its Put may be running, or have failed part way), done those whose Put returned success with no item
    left unprocessed.
   */
  datatype World = World(
    table: map<RowKey, Meta>,
    s3: map<Bytes, Bytes>,
    cache: map<Bytes, Bytes>,
    issued: set<Entry>,
    done: set<Entry>)

  function BlobName(e: Entry): Bytes {
    ChunkName(e.user, e.chunk.id)
  }

  /** Chunk IDs are write-once per user. */
  ghost predicate WriteOnce(es: set<Entry>) {
    && (forall e :: e in es ==> PlainUser(e.user))
    && (forall e, e' :: e in es && e' in es && e.user == e'.user && e.chunk.id == e'.chunk.id ==> e == e')
  }

  /** A row (k, meta) belongs to an issued chunk whose blob is already in S3. */
  ghost predicate RowBacked(w: World, k: RowKey, meta: Meta) {
    exists e, hour, l ::
      && e in w.issued && Indexed(e.chunk, hour, l) && k == RowKeyOf(e, hour, l)
      && meta == MetaOf(e.chunk) && BlobName(e) in w.s3
  }

  ghost predicate Backed(w: World, k: RowKey)
    requires k in w.table
  {
    RowBacked(w, k, w.table[k])
  }

  /** Every label of the chunk but the name has its row in every hour of the chunk. */
  ghost predicate FullyIndexed(w: World, e: Entry) {
    forall hour, l ::
      InBuckets(hour, e.chunk.from, e.chunk.through) && l in e.chunk.metric && l != NAME ==>
        Indexed(e.chunk, hour, l) && RowKeyOf(e, hour, l) in w.table
  }

  /** The blob name k belongs to an issued chunk. */
  ghost predicate Owned(w: World, k: Bytes) {
    exists e :: e in w.issued && BlobName(e) == k
  }

  ghost predicate RowsBacked(w: World) {
    forall k :: k in w.table ==> Backed(w, k)
  }

  /** Every blob is the data of the issued chunk it is named after. */
  ghost predicate BlobsTrue(w: World) {
    && (forall k :: k in w.s3 ==> Owned(w, k))
    && (forall e :: e in w.issued && BlobName(e) in w.s3 ==> w.s3[BlobName(e)] == e.chunk.data)
  }

  /** Every cached value is the S3 blob of the same key. */
  ghost predicate CacheTrue(w: World) {
    forall k :: k in w.cache ==> k in w.s3 && w.cache[k] == w.s3[k]
  }

  ghost predicate DoneComplete(w: World) {
    w.done <= w.issued && forall e :: e in w.done ==> FullyIndexed(w, e) && BlobName(e) in w.s3
  }

  ghost predicate Valid(w: World) {
    WriteOnce(w.issued) && RowsBacked(w) && BlobsTrue(w) && CacheTrue(w) && DoneComplete(w)
  }

  /** Nothing is ever taken back, except from the cache. */
  ghost predicate Grows(w: World, w': World) {
    && (forall k :: k in w.table ==> k in w'.table && w'.table[k] == w.table[k])
    && (forall k :: k in w.s3 ==> k in w'.s3 && w'.s3[k] == w.s3[k])
    && w.issued <= w'.issued && w.done <= w'.done
  }

  lemma {:induction false} GrowsTransitive(a: World, b: World, c: World)
    requires Grows(a, b) && Grows(b, c)
    ensures Grows(a, c)
  {
  }

  // ----- the atomic steps of Put ----------------------------------------------------

  lemma {:induction false} RowBackedLater(w: World, w': World, k: RowKey, meta: Meta)
    requires Grows(w, w') && RowBacked(w, k, meta)
    ensures RowBacked(w', k, meta)
  {
    var e, hour, l :|
      && e in w.issued && Indexed(e.chunk, hour, l) && k == RowKeyOf(e, hour, l)
      && meta == MetaOf(e.chunk) && BlobName(e) in w.s3;
    assert e in w'.issued && BlobName(e) in w'.s3;
  }

  /** What growth alone preserves of the invariant. */
  lemma {:induction false} CarryOver(w: World, w': World)
    requires Grows(w, w')
    ensures forall k, meta :: RowBacked(w, k, meta) ==> RowBacked(w', k, meta)
    ensures forall e :: FullyIndexed(w, e) ==> FullyIndexed(w', e)
    ensures forall k :: Owned(w, k) ==> Owned(w', k)
  {
    forall k, meta | RowBacked(w, k, meta) ensures RowBacked(w', k, meta) {
      RowBackedLater(w, w', k, meta);
    }
  }

  lemma {:induction false} RowsLater(w: World, w': World)
    requires Grows(w, w') && RowsBacked(w) && w'.table == w.table
    ensures RowsBacked(w')
  {
    forall k | k in w'.table ensures Backed(w', k) {
      assert Backed(w, k);
      RowBackedLater(w, w', k, w.table[k]);
    }
  }

  lemma {:induction false} DoneLater(w: World, w': World)
    requires Grows(w, w') && DoneComplete(w) && w'.done == w.done
    ensures DoneComplete(w')
  {
  }

  lemma {:induction false} OwnedLater(w: World, w': World)
    requires Grows(w, w') && (forall k :: k in w.s3 ==> Owned(w, k)) && w'.s3 == w.s3
    ensures forall k :: k in w'.s3 ==> Owned(w', k)
  {
    forall k | k in w'.s3 ensures Owned(w', k) {
      assert Owned(w, k);
      var e :| e in w.issued && BlobName(e) == k;
      assert e in w'.issued;
    }
  }

  /** The cache may change as long as it stays true. */
  lemma {:induction false} CacheAside(w: World, w': World)
    requires Valid(w) && w' == w.(cache := w'.cache) && CacheTrue(w')
    ensures Valid(w') && Grows(w, w')
  {
    RowsLater(w, w');
    DoneLater(w, w');
    OwnedLater(w, w');
  }

  lemma {:induction false} IssueKeepsBlobs(w: World, w': World)
    requires BlobsTrue(w) && WriteOnce(w'.issued) && w.issued <= w'.issued && w'.s3 == w.s3
    ensures forall e :: e in w'.issued && BlobName(e) in w'.s3 ==> w'.s3[BlobName(e)] == e.chunk.data
  {
    forall e | e in w'.issued && BlobName(e) in w'.s3 ensures w'.s3[BlobName(e)] == e.chunk.data {
      assert Owned(w, BlobName(e));
      var e' :| e' in w.issued && BlobName(e') == BlobName(e);
      ChunkNameInjective(e.user, e.chunk.id, e'.user, e'.chunk.id);
    }
  }

  /** Issuing chunks with new IDs. */
  lemma {:induction false} IssueKeepsValid(w: World, es: set<Entry>)
    requires Valid(w) && WriteOnce(w.issued + es)
    ensures Valid(w.(issued := w.issued + es)) && Grows(w, w.(issued := w.issued + es))
  {
    var w' := w.(issued := w.issued + es);
    RowsLater(w, w');
    DoneLater(w, w');
    OwnedLater(w, w');
    IssueKeepsBlobs(w, w');
  }

  function WithBlob(w: World, e: Entry): World {
    w.(s3 := w.s3[BlobName(e) := e.chunk.data])
  }

  lemma {:induction false} BlobKeepsBlobs(w: World, e: Entry)
    requires WriteOnce(w.issued) && BlobsTrue(w) && e in w.issued
    ensures BlobsTrue(WithBlob(w, e))
  {
    var w' := WithBlob(w, e);
    forall k | k in w'.s3 ensures Owned(w', k) {
      assert k != BlobName(e) ==> Owned(w, k);
    }
    forall e' | e' in w'.issued && BlobName(e') in w'.s3 ensures w'.s3[BlobName(e')] == e'.chunk.data {
      if BlobName(e') == BlobName(e) {
        ChunkNameInjective(e.user, e.chunk.id, e'.user, e'.chunk.id);
      }
    }
  }

  /** Writing the blob of an issued chunk: no other issued chunk has that name. */
  lemma {:induction false} BlobKeepsValid(w: World, e: Entry)
    requires Valid(w) && e in w.issued
    ensures Valid(WithBlob(w, e)) && Grows(w, WithBlob(w, e))
  {
    var w' := WithBlob(w, e);
    BlobKeepsBlobs(w, e);
    RowsLater(w, w');
    DoneLater(w, w');
  }

  function WithCached(w: World, e: Entry): World {
    w.(cache := w.cache[BlobName(e) := e.chunk.data])
  }

  /** Caching the data of a chunk in hand, once its blob is in S3. */
  lemma {:induction false} CacheKeepsValid(w: World, e: Entry)
    requires Valid(w) && e in w.issued && BlobName(e) in w.s3
    ensures Valid(WithCached(w, e)) && Grows(w, WithCached(w, e))
  {
    assert w.s3[BlobName(e)] == e.chunk.data;
    CacheAside(w, WithCached(w, e));
  }

  lemma {:induction false} EvictionKeepsValid(w: World, keys: set<Bytes>)
    requires Valid(w)
    ensures Valid(w.(cache := w.cache - keys)) && Grows(w, w.(cache := w.cache - keys))
  {
    CacheAside(w, w.(cache := w.cache - keys));
  }

  /**
    A store that reads the key of one chunk and the data of another, as goroutines that share a loop
    variable may: the cache stays true exactly if both have the same data.
   */
  lemma {:induction false} TornCacheExactly(w: World, e: Entry, e': Entry)
    requires Valid(w) && e in w.issued && BlobName(e) in w.s3
    ensures Valid(w.(cache := w.cache[BlobName(e) := e'.chunk.data])) <==> e'.chunk.data == e.chunk.data
  {
    var w' := w.(cache := w.cache[BlobName(e) := e'.chunk.data]);
    assert w.s3[BlobName(e)] == e.chunk.data;
    if e'.chunk.data == e.chunk.data {
      CacheKeepsValid(w, e);
    } else {
      assert BlobName(e) in w'.cache && w'.cache[BlobName(e)] != w'.s3[BlobName(e)];
      assert !CacheTrue(w');
    }
  }

  /** A key already in the table holds what its chunk would write there. */
  lemma {:induction false} RowIsFixed(w: World, e: Entry, hour: int, l: Bytes)
    requires Valid(w) && e in w.issued && Indexed(e.chunk, hour, l)
    requires RowKeyOf(e, hour, l) in w.table
    ensures w.table[RowKeyOf(e, hour, l)] == MetaOf(e.chunk)
  {
    var key := RowKeyOf(e, hour, l);
    assert Backed(w, key);
    var e', hour', l' :|
      && e' in w.issued && Indexed(e'.chunk, hour', l') && key == RowKeyOf(e', hour', l')
      && w.table[key] == MetaOf(e'.chunk);
    RowKeyInjective(e, hour, l, e', hour', l');
  }

  lemma {:induction false} RowBackedFixed(w: World, k: RowKey, meta: Meta)
    requires Valid(w) && RowBacked(w, k, meta)
    ensures k in w.table ==> w.table[k] == meta
  {
    if k in w.table {
      var e, hour, l :|
        e in w.issued && Indexed(e.chunk, hour, l) && k == RowKeyOf(e, hour, l) && meta == MetaOf(e.chunk);
      RowIsFixed(w, e, hour, l);
    }
  }

  function WithRow(w: World, k: RowKey, meta: Meta): World {
    w.(table := w.table[k := meta])
  }

  lemma {:induction false} TableGrows(w: World, k: RowKey, meta: Meta)
    requires k in w.table ==> w.table[k] == meta
    ensures Grows(w, WithRow(w, k, meta))
  {
  }

  lemma {:induction false} TableKeepsValid(w: World, k: RowKey, meta: Meta)
    requires Valid(w) && RowBacked(w, k, meta) && Grows(w, WithRow(w, k, meta))
    ensures Valid(WithRow(w, k, meta))
  {
    var w' := WithRow(w, k, meta);
    forall key | key in w'.table ensures Backed(w', key) {
      assert key in w.table ==> Backed(w, key);
      RowBackedLater(w, w', key, w'.table[key]);
    }
    DoneLater(w, w');
    OwnedLater(w, w');
  }

  /** Writing one row of an issued chunk whose blob is stored. */
  lemma {:induction false} RowKeepsValid(w: World, k: RowKey, meta: Meta)
    requires Valid(w) && RowBacked(w, k, meta)
    ensures Valid(WithRow(w, k, meta)) && Grows(w, WithRow(w, k, meta))
  {
    RowBackedFixed(w, k, meta);
    TableGrows(w, k, meta);
    TableKeepsValid(w, k, meta);
  }

  /** A Put that wrote all its rows and blobs completes. */
  lemma {:induction false} CompletionKeepsValid(w: World, es: set<Entry>)
    requires Valid(w) && es <= w.issued
    requires forall e :: e in es ==> FullyIndexed(w, e) && BlobName(e) in w.s3
    ensures Valid(w.(done := w.done + es)) && Grows(w, w.(done := w.done + es))
  {
    CarryOver(w, w.(done := w.done + es));
  }

  // ----- what a query selects -------------------------------------------------------

  /** The chunk carries the matcher's label, indexed and matching; without a matcher, any indexed label. */
  predicate Carries(c: Chunk, m: Option<Matcher>) {
    match m
    case None => exists l :: l in c.metric && l != NAME
    case Some(m) => m.name in c.metric && m.name != NAME && m.Match(c.metric[m.name])
  }

  predicate Named(c: Chunk, name: Bytes) {
    NAME in c.metric && c.metric[NAME] == name
  }

  /** c answers one scan: this hour, this metric name, this matcher. */
  predicate Hits(c: Chunk, hour: int, name: Bytes, m: Option<Matcher>) {
    Named(c, name) && InBuckets(hour, c.from, c.through) && Carries(c, m)
  }

  /** c satisfies what remains of a query once its metric name is taken out. */
  predicate CarriesAll(c: Chunk, ms: seq<Matcher>) {
    && (ms == [] ==> Carries(c, None))
    && (forall i :: 0 <= i < |ms| ==> Carries(c, Some(ms[i])))
  }

  /** The simple filter that the whole index stands for. */
  predicate Selected(c: Chunk, from: int, through: int, name: Bytes, ms: seq<Matcher>) {
    Named(c, name) && BucketsMeet(from, through, c.from, c.through) && CarriesAll(c, ms)
  }

  // ----- one page of a scan ---------------------------------------------------------

  datatype Item = Item(range: Bytes, meta: Meta)

  /** item is the row of label l of an issued chunk of this user, in this partition. */
  ghost predicate ItemOf(w: World, item: Item, user: Bytes, hour: int, name: Bytes, e: Entry, l: Bytes) {
    && e in w.issued && e.user == user && Indexed(e.chunk, hour, l) && Named(e.chunk, name)
    && item == Item(RangeOf(e.chunk, l), MetaOf(e.chunk)) && BlobName(e) in w.s3
  }

  ghost predicate KnownItem(w: World, item: Item, user: Bytes, hour: int, name: Bytes) {
    exists e, l :: ItemOf(w, item, user, hour, name, e, l)
  }

  /** Any row found under the partition of (user, hour, name) is a known item: partitions do not mix. */
  lemma {:induction false} PartitionHoldsOwnRows(w: World, user: Bytes, hour: int, name: Bytes, range: Bytes)
    requires Valid(w) && PlainUser(user)
    requires (HashValue(user, hour, name), range) in w.table
    ensures KnownItem(w, Item(range, w.table[(HashValue(user, hour, name), range)]), user, hour, name)
  {
    var k := (HashValue(user, hour, name), range);
    assert Backed(w, k);
    var e, h, l :|
      && e in w.issued && Indexed(e.chunk, h, l) && k == RowKeyOf(e, h, l)
      && w.table[k] == MetaOf(e.chunk) && BlobName(e) in w.s3;
    HashValueInjective(user, hour, name, e.user, h, e.chunk.metric[NAME]);
    assert ItemOf(w, Item(range, w.table[k]), user, hour, name, e, l);
  }

  /** The chunk an item decodes to, if it decodes. */
  function Decoded(item: Item): Option<(Bytes, Bytes, Chunk)> {
    var p := ParseRangeValue(item.range);
    if p.None? then None
    else Some((p.value.0, p.value.1, Chunk(p.value.2, item.meta.from, item.meta.through, item.meta.metric, [])))
  }

  predicate Passes(l: Bytes, v: Bytes, m: Option<Matcher>) {
    m.Some? ==> l == m.value.name && m.value.Match(v)
  }

  /** What one row contributes to an answer. */
  function Contribution(item: Item, m: Option<Matcher>): Option<seq<Chunk>> {
    var d := Decoded(item);
    if d.None? then None else if Passes(d.value.0, d.value.1, m) then Some([d.value.2]) else Some([])
  }

  /** processResponse: the chunks of the rows that pass the matcher, None if some row does not decode. */
  function Accept(items: seq<Item>, m: Option<Matcher>): Option<seq<Chunk>> {
    if items == [] then Some([])
    else
      var before, more := Accept(items[..|items| - 1], m), Contribution(items[|items| - 1], m);
      if before.None? || more.None? then None else Some(before.value + more.value)
  }

  lemma {:induction false} KnownItemDecodes(
    w: World, item: Item, user: Bytes, hour: int, name: Bytes, e: Entry, l: Bytes)
    requires ItemOf(w, item, user, hour, name, e, l)
    ensures Decoded(item) == Some((l, e.chunk.metric[l], WithoutData(e.chunk)))
  {
    ParseRoundTrip(l, e.chunk.metric[l], e.chunk.id);
  }

  /** Page items all known: the page of a valid partition. */
  ghost predicate KnownPage(w: World, items: seq<Item>, user: Bytes, hour: int, name: Bytes) {
    forall i :: 0 <= i < |items| ==> KnownItem(w, items[i], user, hour, name)
  }

  /** r holds only chunks of this user that answer the scan, and their blobs are in S3. */
  ghost predicate ScanSound(w: World, r: seq<Chunk>, user: Bytes, hour: int, name: Bytes, m: Option<Matcher>) {
    forall c :: c in r ==> Known(w, c, user) && Hits(c, hour, name, m)
  }

  /** c is, up to its data, an issued chunk of the user, and its blob is in S3. */
  ghost predicate Known(w: World, c: Chunk, user: Bytes) {
    exists e :: e in w.issued && e.user == user && c == WithoutData(e.chunk) && BlobName(e) in w.s3
  }

  lemma {:induction false} KnownGrows(w: World, w': World, c: Chunk, user: Bytes)
    requires Grows(w, w') && Known(w, c, user)
    ensures Known(w', c, user)
  {
    var e :| e in w.issued && e.user == user && c == WithoutData(e.chunk) && BlobName(e) in w.s3;
    assert e in w'.issued && BlobName(e) in w'.s3;
  }

  /** Known chunks of one user with one ID are one chunk. */
  lemma {:induction false} KnownUnique(w: World, c: Chunk, c': Chunk, user: Bytes)
    requires Valid(w) && Known(w, c, user) && Known(w, c', user)
    ensures c.id == c'.id ==> c == c'
  {
  }

  lemma {:induction false} ContributionSound(
    w: World, item: Item, user: Bytes, hour: int, name: Bytes, m: Option<Matcher>)
    requires KnownItem(w, item, user, hour, name)
    ensures Contribution(item, m).Some? && ScanSound(w, Contribution(item, m).value, user, hour, name, m)
  {
    var e, l :| ItemOf(w, item, user, hour, name, e, l);
    KnownItemDecodes(w, item, user, hour, name, e, l);
    assert Known(w, WithoutData(e.chunk), user);
  }

  /** Known rows always decode, and what the filter lets through answers the scan. */
  lemma {:induction false} AcceptSound(
    w: World, items: seq<Item>, user: Bytes, hour: int, name: Bytes, m: Option<Matcher>)
    requires KnownPage(w, items, user, hour, name)
    ensures Accept(items, m).Some? && ScanSound(w, Accept(items, m).value, user, hour, name, m)
  {
    if items != [] {
      AcceptSound(w, items[..|items| - 1], user, hour, name, m);
      ContributionSound(w, items[|items| - 1], user, hour, name, m);
    }
  }

  /** The filter keeps every row that passes. */
  lemma {:induction false} AcceptKeeps(items: seq<Item>, m: Option<Matcher>, i: nat)
    requires Accept(items, m).Some? && i < |items|
    ensures Decoded(items[i]).Some?
    ensures Passes(Decoded(items[i]).value.0, Decoded(items[i]).value.1, m) ==>
              Decoded(items[i]).value.2 in Accept(items, m).value
  {
    if i < |items| - 1 {
      AcceptKeeps(items[..|items| - 1], m, i);
    }
  }

  /** c is what the row item contributes. */
  predicate Comes(c: Chunk, item: Item, m: Option<Matcher>) {
    && Decoded(item).Some? && Decoded(item).value.2 == c
    && Passes(Decoded(item).value.0, Decoded(item).value.1, m)
  }

  lemma {:induction false} AcceptComes(items: seq<Item>, m: Option<Matcher>, c: Chunk)
    requires Accept(items, m).Some? && c in Accept(items, m).value
    ensures exists i :: 0 <= i < |items| && Comes(c, items[i], m)
  {
    var before, item := items[..|items| - 1], items[|items| - 1];
    if Comes(c, item, m) {
      assert Comes(c, items[|items| - 1], m);
    } else {
      AcceptComes(before, m, c);
      var i :| 0 <= i < |before| && Comes(c, before[i], m);
      assert Comes(c, items[i], m);
    }
  }

  lemma {:induction false} ComesOnce(w: World, item: Item, item': Item, user: Bytes, hour: int, name: Bytes, m: Matcher)
    requires Valid(w) && KnownItem(w, item, user, hour, name) && KnownItem(w, item', user, hour, name)
    requires Decoded(item).Some? && Comes(Decoded(item).value.2, item, Some(m))
    requires Decoded(item').Some? && Comes(Decoded(item').value.2, item', Some(m))
    ensures Decoded(item).value.2.id == Decoded(item').value.2.id ==> item.range == item'.range
  {
    var e, l :| ItemOf(w, item, user, hour, name, e, l);
    var e', l' :| ItemOf(w, item', user, hour, name, e', l');
    KnownItemDecodes(w, item, user, hour, name, e, l);
    KnownItemDecodes(w, item', user, hour, name, e', l');
  }

  /** With a matcher, rows of different keys belong to different chunks: a chunk has one value per label. */
  lemma {:induction false} AcceptDistinct(
    w: World, items: seq<Item>, user: Bytes, hour: int, name: Bytes, m: Matcher)
    requires Valid(w) && KnownPage(w, items, user, hour, name)
    requires forall i, j :: 0 <= i < j < |items| ==> items[i].range != items[j].range
    requires Accept(items, Some(m)).Some?
    ensures |Ids(Accept(items, Some(m)).value)| == |Accept(items, Some(m)).value|
  {
    if items != [] {
      var before, item := items[..|items| - 1], items[|items| - 1];
      AcceptDistinct(w, before, user, hour, name, m);
      var r, d := Accept(before, Some(m)).value, Decoded(item).value;
      assert r + [] == r;
      if Passes(d.0, d.1, Some(m)) {
        NewId(w, before, item, user, hour, name, m);
        IdsAppend(r, d.2);
      }
    }
  }

  lemma {:induction false} NewId(
    w: World, before: seq<Item>, item: Item, user: Bytes, hour: int, name: Bytes, m: Matcher)
    requires Valid(w) && KnownPage(w, before, user, hour, name) && KnownItem(w, item, user, hour, name)
    requires forall i :: 0 <= i < |before| ==> before[i].range != item.range
    requires Accept(before, Some(m)).Some?
    requires Decoded(item).Some? && Comes(Decoded(item).value.2, item, Some(m))
    ensures Decoded(item).value.2.id !in Ids(Accept(before, Some(m)).value)
  {
    forall c | c in Accept(before, Some(m)).value ensures c.id != Decoded(item).value.2.id {
      AcceptComes(before, Some(m), c);
      var i :| 0 <= i < |before| && Comes(c, before[i], Some(m));
      ComesOnce(w, before[i], item, user, hour, name, m);
    }
  }
}
