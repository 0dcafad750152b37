/**
  What it means for a query to be answered: per scan, per hour and in all, and how the answers of
  single scans combine.
 */
module Answers {
  import opened Options
  import opened ByteStrings
  import opened Buckets
  import opened Keys
  import opened ChunkLists
  import opened ChunkIndex
  import Sorting

  // ----- answers, hour by hour and in all ---------------------------------------------

  ghost predicate ScanComplete(es: set<Entry>, r: seq<Chunk>, user: Bytes, hour: int, name: Bytes, m: Option<Matcher>) {
    forall e :: e in es && e.user == user && Hits(e.chunk, hour, name, m) ==> WithoutData(e.chunk) in r
  }

  predicate HourHits(c: Chunk, hour: int, name: Bytes, ms: seq<Matcher>) {
    Named(c, name) && InBuckets(hour, c.from, c.through) && CarriesAll(c, ms)
  }

  ghost predicate HourSound(w: World, r: seq<Chunk>, user: Bytes, hour: int, name: Bytes, ms: seq<Matcher>) {
    forall c :: c in r ==> Known(w, c, user) && HourHits(c, hour, name, ms)
  }

  ghost predicate HourComplete(es: set<Entry>, r: seq<Chunk>, user: Bytes, hour: int, name: Bytes, ms: seq<Matcher>) {
    forall e :: e in es && e.user == user && HourHits(e.chunk, hour, name, ms) ==> WithoutData(e.chunk) in r
  }

  predicate AllSafe(ms: seq<Matcher>) {
    forall i :: 0 <= i < |ms| ==> ms[i].Safe()
  }

  predicate AllScannable(ms: seq<Matcher>) {
    forall i :: 0 <= i < |ms| ==> ms[i].Scannable()
  }

  /** Everything a query returns was put by this user and is selected by the query. */
  ghost predicate AnswerSound(
    w: World, r: seq<Chunk>, user: Bytes, from: int, through: int, name: Bytes, ms: seq<Matcher>)
  {
    forall c :: c in r ==> Entry(user, c) in w.issued && Selected(c, from, through, name, ms)
  }

  /** Every selected chunk among es is returned. */
  ghost predicate AnswerComplete(
    es: set<Entry>, r: seq<Chunk>, user: Bytes, from: int, through: int, name: Bytes, ms: seq<Matcher>)
  {
    forall c :: Entry(user, c) in es && Selected(c, from, through, name, ms) ==> c in r
  }

  /**
    If nothing was put while the query ran, its answer is one fixed list, whatever the order in
    which goroutines reported and whether or not there is a cache.
   */
  lemma {:induction false} AnswerDetermined(
    w: World, r: seq<Chunk>, r': seq<Chunk>, user: Bytes, from: int, through: int, name: Bytes, ms: seq<Matcher>)
    requires Strict(r) && Strict(r')
    requires AnswerSound(w, r, user, from, through, name, ms)
    requires AnswerComplete(w.issued, r, user, from, through, name, ms)
    requires AnswerSound(w, r', user, from, through, name, ms)
    requires AnswerComplete(w.issued, r', user, from, through, name, ms)
    ensures r == r'
  {
    StrictDetermined(r, r');
  }

  /** A chunk in the lists of all matchers, in whatever order these arrived, satisfies all matchers. */
  lemma {:induction false} IntersectionSound(
    w: World, sets: seq<seq<Chunk>>, order: seq<nat>, r: seq<Chunk>, user: Bytes, hour: int,
    name: Bytes, ms: seq<Matcher>)
    requires Valid(w) && ms != [] && |sets| == |order|
    requires forall k :: 0 <= k < |order| ==> order[k] < |ms|
    requires forall i :: 0 <= i < |ms| ==> i in order
    requires forall k :: 0 <= k < |sets| ==> ScanSound(w, sets[k], user, hour, name, Some(ms[order[k]]))
    requires forall c :: c in r <==> InEvery(c, sets)
    ensures HourSound(w, r, user, hour, name, ms)
  {
    forall c | c in r ensures Known(w, c, user) && HourHits(c, hour, name, ms) {
      assert InEvery(c, sets);
      forall i | 0 <= i < |ms| ensures Carries(c, Some(ms[i])) {
        assert i in order;
        var k :| 0 <= k < |order| && order[k] == i;
        var d :| d in sets[k] && d.id == c.id;
        KnownUnique(w, c, d, user);
      }
    }
  }

  lemma {:induction false} IntersectionComplete(
    es: set<Entry>, sets: seq<seq<Chunk>>, order: seq<nat>, r: seq<Chunk>, user: Bytes, hour: int,
    name: Bytes, ms: seq<Matcher>)
    requires |sets| == |order| && sets != []
    requires forall k :: 0 <= k < |order| ==> order[k] < |ms|
    requires forall k :: 0 <= k < |sets| ==> ScanComplete(es, sets[k], user, hour, name, Some(ms[order[k]]))
    requires forall c :: c in r <==> InEvery(c, sets)
    ensures HourComplete(es, r, user, hour, name, ms)
  {
    forall e | e in es && e.user == user && HourHits(e.chunk, hour, name, ms) ensures WithoutData(e.chunk) in r {
      var c := WithoutData(e.chunk);
      forall k | 0 <= k < |sets| ensures c in sets[k] && c.id in Ids(sets[k]) {
        assert Hits(e.chunk, hour, name, Some(ms[order[k]]));
      }
      assert InEvery(c, sets);
    }
  }

  // ----- arrival of the matchers' lists -------------------------------------------------

  function Indices(n: nat): (s: set<nat>)
    ensures forall i :: i in s <==> 0 <= i < n
  {
    if n == 0 then {} else Indices(n - 1) + {n - 1}
  }

  /** The matchers that have reported so far, in order; the others are pending. */
  ghost predicate Reported(order: seq<nat>, pending: set<nat>, ms: seq<Matcher>) {
    && (forall k :: 0 <= k < |order| ==> order[k] < |ms|)
    && (forall i :: 0 <= i < |ms| && i !in pending ==> i in order && ms[i].Safe())
  }

  /** What is known of the k-th list received. */
  ghost predicate ListFits(
    w: World, es: set<Entry>, list: seq<Chunk>, single: bool, user: Bytes, hour: int, name: Bytes, m: Matcher)
  {
    && ScanSound(w, list, user, hour, name, Some(m))
    && (single && m.Scannable() ==> ScanComplete(es, list, user, hour, name, Some(m)))
    && (!m.Scannable() ==> list == [])
  }

  ghost predicate Arrived(
    w: World, es: set<Entry>, sets: seq<seq<Chunk>>, order: seq<nat>, single: bool,
    user: Bytes, hour: int, name: Bytes, ms: seq<Matcher>)
  {
    && |sets| == |order|
    && (forall k :: 0 <= k < |sets| ==>
          order[k] < |ms| && ListFits(w, es, sets[k], single, user, hour, name, ms[order[k]]))
  }

  lemma {:induction false} ListFitsLater(
    w: World, w': World, es: set<Entry>, list: seq<Chunk>, single: bool, single': bool,
    user: Bytes, hour: int, name: Bytes, m: Matcher)
    requires Grows(w, w') && (single' ==> single) && ListFits(w, es, list, single, user, hour, name, m)
    ensures ListFits(w', es, list, single', user, hour, name, m)
  {
    forall c | c in list ensures Known(w', c, user) {
      KnownGrows(w, w', c, user);
    }
  }

  /** What is complete for a later history is complete for an earlier one. */
  lemma {:induction false} FitsFewer(
    w: World, es: set<Entry>, es': set<Entry>, list: seq<Chunk>, single: bool, user: Bytes, hour: int,
    name: Bytes, m: Matcher)
    requires es <= es' && ListFits(w, es', list, single, user, hour, name, m)
    ensures ListFits(w, es, list, single, user, hour, name, m)
  {
  }

  /** The order of a list does not matter for what it fits. */
  lemma {:induction false} FitsReordered(
    w: World, es: set<Entry>, list: seq<Chunk>, other: seq<Chunk>, single: bool,
    user: Bytes, hour: int, name: Bytes, m: Matcher)
    requires ListFits(w, es, list, single, user, hour, name, m) && forall c :: c in other <==> c in list
    ensures ListFits(w, es, other, single, user, hour, name, m)
  {
    Inhabited(other);
  }

  lemma {:induction false} ArrivedStep(
    w: World, w': World, es: set<Entry>, sets: seq<seq<Chunk>>, order: seq<nat>, single: bool, s: bool,
    user: Bytes, hour: int, name: Bytes, ms: seq<Matcher>, i: nat, list: seq<Chunk>)
    requires Grows(w, w') && Arrived(w, es, sets, order, single, user, hour, name, ms)
    requires i < |ms| && ListFits(w', es, list, s, user, hour, name, ms[i])
    ensures Arrived(w', es, sets + [list], order + [i], single && s, user, hour, name, ms)
  {
    var sets', order' := sets + [list], order + [i];
    ListFitsLater(w', w', es, list, s, single && s, user, hour, name, ms[i]);
    forall k | 0 <= k < |sets'|
      ensures order'[k] < |ms| && ListFits(w', es, sets'[k], single && s, user, hour, name, ms[order'[k]])
    {
      if k < |sets| {
        ListFitsLater(w, w', es, sets[k], single, single && s, user, hour, name, ms[order[k]]);
      }
    }
  }

  lemma {:induction false} ArrivedAll(
    w: World, es: set<Entry>, sets: seq<seq<Chunk>>, order: seq<nat>, single: bool,
    user: Bytes, hour: int, name: Bytes, ms: seq<Matcher>, r: seq<Chunk>)
    requires Valid(w) && ms != [] && Reported(order, {}, ms)
    requires Arrived(w, es, sets, order, single, user, hour, name, ms)
    requires forall c :: c in r <==> InEvery(c, sets)
    ensures HourSound(w, r, user, hour, name, ms)
    ensures single && AllScannable(ms) ==> HourComplete(es, r, user, hour, name, ms)
    ensures !AllScannable(ms) ==> r == []
  {
    assert 0 in order;
    IntersectionSound(w, sets, order, r, user, hour, name, ms);
    if AllScannable(ms) {
      if single {
        IntersectionComplete(es, sets, order, r, user, hour, name, ms);
      }
    } else {
      EmptyIntersection(sets, order, r, ms);
    }
  }

  lemma {:induction false} EmptyIntersection(sets: seq<seq<Chunk>>, order: seq<nat>, r: seq<Chunk>, ms: seq<Matcher>)
    requires |sets| == |order| && !AllScannable(ms)
    requires forall k :: 0 <= k < |order| ==> order[k] < |ms|
    requires forall i :: 0 <= i < |ms| ==> i in order
    requires forall k :: 0 <= k < |order| && !ms[order[k]].Scannable() ==> sets[k] == []
    requires forall c :: c in r <==> InEvery(c, sets)
    ensures r == []
  {
    var i :| 0 <= i < |ms| && !ms[i].Scannable();
    assert i in order;
    var k :| 0 <= k < |order| && order[k] == i;
    assert Ids(sets[k]) == {};
    Inhabited(r);
  }

  // ----- merging the hours ----------------------------------------------------------------

  ghost predicate AllKnown(w: World, r: seq<Chunk>, user: Bytes) {
    forall c :: c in r ==> Known(w, c, user)
  }

  /** Among known chunks of one user, merging is plain union. */
  lemma {:induction false} MergeKnown(w: World, a: seq<Chunk>, b: seq<Chunk>, user: Bytes)
    requires Valid(w) && Strict(a) && Strict(b) && AllKnown(w, a, user) && AllKnown(w, b, user)
    ensures Strict(MergeOf(a, b))
    ensures forall c :: c in MergeOf(a, b) <==> c in a || c in b
  {
    MergeProperties(a, b);
    forall c | c in b && c.id in Ids(a) ensures c in a {
      var d :| d in a && d.id == c.id;
      KnownUnique(w, c, d, user);
    }
  }

  /** Of known chunks of one user, a list with the same IDs and no others has the same members. */
  lemma {:induction false} SameIdsSameChunks(w: World, r: seq<Chunk>, u: seq<Chunk>, user: Bytes)
    requires Valid(w) && Ids(u) == Ids(r) && (forall c :: c in u ==> c in r)
    requires forall c :: c in r ==> Known(w, c, user)
    ensures forall c :: c in u <==> c in r
  {
    forall c | c in r ensures c in u {
      assert c.id in Ids(u);
      var d :| d in u && d.id == c.id;
      KnownUnique(w, c, d, user);
    }
  }

  /** Every chunk found so far is known and selected. */
  ghost predicate FoundSound(
    w: World, r: seq<Chunk>, user: Bytes, from: int, through: int, name: Bytes, ms: seq<Matcher>)
  {
    forall c :: c in r ==> Known(w, c, user) && Selected(c, from, through, name, ms)
  }

  /** The hours that have reported without their chunks missing; the others are pending. */
  ghost predicate HoursDone(
    es: set<Entry>, r: seq<Chunk>, pending: set<int>, user: Bytes, from: int, through: int,
    name: Bytes, ms: seq<Matcher>)
  {
    forall h :: InBuckets(h, from, through) && h !in pending ==> HourComplete(es, r, user, h, name, ms)
  }

  ghost predicate FoundComplete(
    es: set<Entry>, r: seq<Chunk>, user: Bytes, from: int, through: int, name: Bytes, ms: seq<Matcher>)
  {
    forall e :: e in es && e.user == user && Selected(e.chunk, from, through, name, ms) ==> WithoutData(e.chunk) in r
  }

  lemma {:induction false} HoursDoneAll(
    es: set<Entry>, r: seq<Chunk>, user: Bytes, from: int, through: int, name: Bytes, ms: seq<Matcher>)
    requires HoursDone(es, r, {}, user, from, through, name, ms)
    ensures FoundComplete(es, r, user, from, through, name, ms)
  {
    forall e | e in es && e.user == user && Selected(e.chunk, from, through, name, ms)
      ensures WithoutData(e.chunk) in r
    {
      var h :| Hour(from) <= h <= Hour(through) && InBuckets(h, e.chunk.from, e.chunk.through);
      assert InBuckets(h, from, through) && HourHits(e.chunk, h, name, ms);
    }
  }

  /** One more hour arrives and is merged in. */
  lemma {:induction false} HourMerged(
    w: World, w': World, chunks: seq<Chunk>, incoming: seq<Chunk>, hour: int,
    user: Bytes, from: int, through: int, name: Bytes, ms: seq<Matcher>)
    requires Valid(w') && Grows(w, w') && InBuckets(hour, from, through)
    requires Strict(chunks) && FoundSound(w, chunks, user, from, through, name, ms)
    requires Strict(incoming) && HourSound(w', incoming, user, hour, name, ms)
    ensures Strict(MergeOf(chunks, incoming))
    ensures FoundSound(w', MergeOf(chunks, incoming), user, from, through, name, ms)
    ensures forall c :: c in MergeOf(chunks, incoming) <==> c in chunks || c in incoming
  {
    forall c | c in chunks ensures Known(w', c, user) {
      KnownGrows(w, w', c, user);
    }
    forall c | c in incoming ensures Selected(c, from, through, name, ms) {
      assert Hour(from) <= hour <= Hour(through) && InBuckets(hour, c.from, c.through);
    }
    MergeKnown(w', chunks, incoming, user);
  }

  lemma {:induction false} HoursDoneStep(
    es: set<Entry>, chunks: seq<Chunk>, incoming: seq<Chunk>, merged: seq<Chunk>, hour: int, pending: set<int>,
    user: Bytes, from: int, through: int, name: Bytes, ms: seq<Matcher>)
    requires HoursDone(es, chunks, pending, user, from, through, name, ms)
    requires HourComplete(es, incoming, user, hour, name, ms)
    requires forall c :: c in chunks || c in incoming ==> c in merged
    ensures HoursDone(es, merged, pending - {hour}, user, from, through, name, ms)
  {
    forall h | InBuckets(h, from, through) && h !in pending - {hour}
      ensures HourComplete(es, merged, user, h, name, ms)
    {
      if h != hour {
        assert HourComplete(es, chunks, user, h, name, ms);
      }
    }
  }

  // ----- queries in plain terms -----------------------------------------------------------

  /** A chunk that carries a label is selected by exactly one of = and !=, and by exactly one of =~ and !~. */
  lemma {:induction false} OneOfEach(c: Chunk, l: Bytes, v: Bytes, re: Bytes -> bool)
    requires l in c.metric && l != NAME
    ensures Carries(c, Some(Matcher(Equal, l, v, re))) <==> !Carries(c, Some(Matcher(NotEqual, l, v, re)))
    ensures Carries(c, Some(Matcher(RegexMatch, l, v, re))) <==> !Carries(c, Some(Matcher(RegexNoMatch, l, v, re)))
    ensures Carries(c, Some(Matcher(Equal, l, v, re))) <==> c.metric[l] == v
    ensures Carries(c, Some(Matcher(RegexMatch, l, v, re))) <==> re(c.metric[l])
  {
  }

  /** What a query selects satisfies every matcher that it was given, the name matcher included. */
  lemma {:induction false} SelectedSatisfies(c: Chunk, from: int, through: int, q: seq<Matcher>, i: nat)
    requires NameMatcher(q).Some? && i < |q|
    requires Selected(c, from, through, NameMatcher(q).value.0, NameMatcher(q).value.1)
    ensures q[i].name in c.metric
    ensures q[i].kind.Equal? ==> c.metric[q[i].name] == q[i].value
    ensures q[i].kind.NotEqual? ==> c.metric[q[i].name] != q[i].value
    ensures q[i].kind.RegexMatch? ==> q[i].re(c.metric[q[i].name])
    ensures q[i].kind.RegexNoMatch? ==> !q[i].re(c.metric[q[i].name])
    ensures c.from - through < 7_200_000 && from - c.through < 7_200_000
  {
    MeetingIsNear(from, through, c.from, c.through);
    var k, ms := FirstName(q), NameMatcher(q).value.1;
    if i != k {
      var j := if i < k then i else i - 1;
      assert ms[j] == q[i] && Carries(c, Some(ms[j]));
    }
  }

  /** The chunk overlaps the query in time, has some label besides its name and satisfies every matcher. */
  ghost predicate AskedFor(c: Chunk, from: int, through: int, q: seq<Matcher>) {
    && from <= through && c.from <= c.through && c.from <= through && from <= c.through
    && (forall i :: 0 <= i < |q| ==> q[i].name in c.metric)
    && (forall i :: 0 <= i < |q| && q[i].kind.Equal? ==> c.metric[q[i].name] == q[i].value)
    && (forall i :: 0 <= i < |q| && q[i].kind.NotEqual? ==> c.metric[q[i].name] != q[i].value)
    && (forall i :: 0 <= i < |q| && q[i].kind.RegexMatch? ==> q[i].re(c.metric[q[i].name]))
    && (forall i :: 0 <= i < |q| && q[i].kind.RegexNoMatch? ==> !q[i].re(c.metric[q[i].name]))
    && (forall i, j :: 0 <= i < j < |q| ==> q[i].name != NAME || q[j].name != NAME)
    && (exists l :: l in c.metric && l != NAME)
  }

  /** What a query name="..." with one more matcher asks for, kind by kind. */
  lemma {:induction false} AskedForByTwo(c: Chunk, from: int, through: int, name: Bytes, m: Matcher, any: Bytes -> bool)
    requires m.name != NAME
    ensures AskedFor(c, from, through, [Matcher(Equal, NAME, name, any), m]) <==>
      && from <= through && c.from <= c.through && c.from <= through && from <= c.through
      && NAME in c.metric && c.metric[NAME] == name && m.name in c.metric
      && (match m.kind
          case Equal => c.metric[m.name] == m.value
          case NotEqual => c.metric[m.name] != m.value
          case RegexMatch => m.re(c.metric[m.name])
          case RegexNoMatch => !m.re(c.metric[m.name]))
  {
    var q := [Matcher(Equal, NAME, name, any), m];
    assert q[0].name == NAME && q[0].kind.Equal? && q[0].value == name && q[1] == m;
  }

  /** One more matcher asks for those that also satisfy it. */
  lemma {:induction false} AskedForOneMore(c: Chunk, from: int, through: int, q: seq<Matcher>, m: Matcher)
    requires m.name != NAME
    ensures AskedFor(c, from, through, q + [m]) <==>
      && AskedFor(c, from, through, q) && m.name in c.metric
      && (match m.kind
          case Equal => c.metric[m.name] == m.value
          case NotEqual => c.metric[m.name] != m.value
          case RegexMatch => m.re(c.metric[m.name])
          case RegexNoMatch => !m.re(c.metric[m.name]))
  {
    var all := q + [m];
    assert all[|q|] == m && forall i :: 0 <= i < |q| ==> all[i] == q[i];
  }

  lemma {:induction false} AskedForSelected(c: Chunk, from: int, through: int, q: seq<Matcher>)
    requires NameMatcher(q).Some? && AskedFor(c, from, through, q)
    ensures Selected(c, from, through, NameMatcher(q).value.0, NameMatcher(q).value.1)
  {
    OverlapSharesBucket(from, through, c.from, c.through);
    var k, ms := FirstName(q), NameMatcher(q).value.1;
    assert q[k].name == NAME;
    forall j | 0 <= j < |ms| ensures Carries(c, Some(ms[j])) {
      var i := if j < k then j else j + 1;
      assert ms[j] == q[i] && q[i].name != NAME;
    }
  }

  lemma {:induction false} SoundPlainly(w: World, r: seq<Chunk>, user: Bytes, from: int, through: int, q: seq<Matcher>)
    requires NameMatcher(q).Some?
    requires AnswerSound(w, r, user, from, through, NameMatcher(q).value.0, NameMatcher(q).value.1)
    ensures forall c, i :: c in r && 0 <= i < |q| ==>
      && Entry(user, c) in w.issued && q[i].name in c.metric
      && (q[i].kind.Equal? ==> c.metric[q[i].name] == q[i].value)
      && (q[i].kind.NotEqual? ==> c.metric[q[i].name] != q[i].value)
      && (q[i].kind.RegexMatch? ==> q[i].re(c.metric[q[i].name]))
      && (q[i].kind.RegexNoMatch? ==> !q[i].re(c.metric[q[i].name]))
      && c.from - through < 7_200_000 && from - c.through < 7_200_000
  {
    forall c, i | c in r && 0 <= i < |q|
      ensures q[i].name in c.metric && c.from - through < 7_200_000 && from - c.through < 7_200_000
      ensures q[i].kind.Equal? ==> c.metric[q[i].name] == q[i].value
      ensures q[i].kind.NotEqual? ==> c.metric[q[i].name] != q[i].value
      ensures q[i].kind.RegexMatch? ==> q[i].re(c.metric[q[i].name])
      ensures q[i].kind.RegexNoMatch? ==> !q[i].re(c.metric[q[i].name])
    {
      SelectedSatisfies(c, from, through, q, i);
    }
  }

  lemma {:induction false} CompletePlainly(
    es: set<Entry>, r: seq<Chunk>, user: Bytes, from: int, through: int, q: seq<Matcher>)
    requires NameMatcher(q).Some?
    requires AnswerComplete(es, r, user, from, through, NameMatcher(q).value.0, NameMatcher(q).value.1)
    ensures forall c :: Entry(user, c) in es && AskedFor(c, from, through, q) ==> c in r
  {
    forall c | Entry(user, c) in es && AskedFor(c, from, through, q) ensures c in r {
      AskedForSelected(c, from, through, q);
    }
  }

  // ----- filling in the data ----------------------------------------------------------------

  /** c, data included, was put by the user, and its blob is in S3. */
  ghost predicate Stored(w: World, c: Chunk, user: Bytes) {
    Entry(user, c) in w.issued && ChunkName(user, c.id) in w.s3
  }

  ghost predicate AllStored(w: World, r: seq<Chunk>, user: Bytes) {
    forall c :: c in r ==> Stored(w, c, user)
  }

  /** The S3 blob completes a known chunk to the chunk that was put. */
  lemma {:induction false} FillKnown(w: World, c: Chunk, user: Bytes)
    requires Valid(w) && Known(w, c, user)
    ensures ChunkName(user, c.id) in w.s3 && Stored(w, c.(data := w.s3[ChunkName(user, c.id)]), user)
  {
    var e :| e in w.issued && e.user == user && c == WithoutData(e.chunk) && BlobName(e) in w.s3;
    assert c.(data := w.s3[BlobName(e)]) == e.chunk && e == Entry(user, e.chunk);
  }

  lemma {:induction false} StoredLater(w: World, w': World, r: seq<Chunk>, user: Bytes)
    requires Grows(w, w') && AllStored(w, r, user)
    ensures AllStored(w', r, user)
  {
  }

  lemma {:induction false} KnownLater(w: World, w': World, r: seq<Chunk>, user: Bytes)
    requires Grows(w, w') && AllKnown(w, r, user)
    ensures AllKnown(w', r, user)
  {
    forall c | c in r ensures Known(w', c, user) {
      KnownGrows(w, w', c, user);
    }
  }

  function Bare(s: seq<Chunk>): (b: seq<Chunk>)
    ensures |b| == |s| && forall i :: 0 <= i < |s| ==> b[i] == WithoutData(s[i])
  {
    seq(|s|, i requires 0 <= i < |s| => WithoutData(s[i]))
  }

  lemma {:induction false} BareAppend(s: seq<Chunk>, t: seq<Chunk>)
    ensures Bare(s + t) == Bare(s) + Bare(t)
    ensures forall x :: Bare([x]) == [WithoutData(x)]
  {
  }

  /** The lists returned by the cache and by S3 together are the chunks looked up, data filled in. */
  lemma {:induction false} FilledMembers(r: seq<Chunk>, chunks: seq<Chunk>)
    requires multiset(Bare(r)) == multiset(chunks) && Strict(chunks)
    ensures |Ids(r)| == |r|
    ensures forall c :: c in r ==> WithoutData(c) in chunks
    ensures forall c :: c in chunks ==> exists f :: f in r && WithoutData(f) == c
  {
    Sorting.SameMembers(Bare(r), chunks);
    assert forall c :: c in r ==> WithoutData(c) in Bare(r);
    forall c | c in chunks ensures exists f :: f in r && WithoutData(f) == c {
      var i :| 0 <= i < |Bare(r)| && Bare(r)[i] == c;
      assert r[i] in r && WithoutData(r[i]) == c;
    }
    StrictDistinct(chunks);
    assert Ids(r) == Ids(chunks) by {
      forall c | c in r ensures c.id in Ids(chunks) {
        assert WithoutData(c).id == c.id;
      }
      forall c | c in chunks ensures c.id in Ids(r) {
        var f :| f in r && WithoutData(f) == c;
      }
    }
  }

  ghost predicate HaveBlobs(s3: map<Bytes, Bytes>, user: Bytes, chunks: seq<Chunk>) {
    forall i :: 0 <= i < |chunks| ==> ChunkName(user, chunks[i].id) in s3
  }

  /** The chunks looked up, each completed with its S3 blob: what a store without a cache returns. */
  function WithBlobs(s3: map<Bytes, Bytes>, user: Bytes, chunks: seq<Chunk>): (r: seq<Chunk>)
    requires HaveBlobs(s3, user, chunks)
    ensures |r| == |chunks|
    ensures forall i :: 0 <= i < |r| ==> r[i] == chunks[i].(data := s3[ChunkName(user, chunks[i].id)])
  {
    seq(|chunks|, i requires 0 <= i < |chunks| => chunks[i].(data := s3[ChunkName(user, chunks[i].id)]))
  }

  lemma {:induction false} BlobsThere(w: World, chunks: seq<Chunk>, user: Bytes)
    requires Valid(w) && AllKnown(w, chunks, user)
    ensures HaveBlobs(w.s3, user, chunks)
  {
    forall i | 0 <= i < |chunks| ensures ChunkName(user, chunks[i].id) in w.s3 {
      FillKnown(w, chunks[i], user);
    }
  }

  lemma {:induction false} StoredIsBlob(w: World, c: Chunk, user: Bytes)
    requires Valid(w) && Stored(w, c, user)
    ensures c == WithoutData(c).(data := w.s3[ChunkName(user, c.id)])
  {
    assert BlobName(Entry(user, c)) == ChunkName(user, c.id);
  }

  lemma {:induction false} FilledAreBlobs(w: World, r: seq<Chunk>, chunks: seq<Chunk>, user: Bytes)
    requires Valid(w) && HaveBlobs(w.s3, user, chunks) && AllStored(w, r, user)
    requires forall c :: c in r ==> WithoutData(c) in chunks
    ensures forall c :: c in r ==> c in WithBlobs(w.s3, user, chunks)
  {
    forall c | c in r ensures c in WithBlobs(w.s3, user, chunks) {
      StoredIsBlob(w, c, user);
      var i :| 0 <= i < |chunks| && chunks[i] == WithoutData(c);
      assert WithBlobs(w.s3, user, chunks)[i] == c;
    }
  }

  lemma {:induction false} BlobsAreFilled(w: World, r: seq<Chunk>, chunks: seq<Chunk>, user: Bytes)
    requires Valid(w) && HaveBlobs(w.s3, user, chunks) && AllStored(w, r, user)
    requires forall c :: c in chunks ==> exists f :: f in r && WithoutData(f) == c
    ensures forall c :: c in WithBlobs(w.s3, user, chunks) ==> c in r
  {
    var blobs := WithBlobs(w.s3, user, chunks);
    forall c | c in blobs ensures c in r {
      var i :| 0 <= i < |blobs| && blobs[i] == c;
      assert chunks[i] in chunks;
      var f :| f in r && WithoutData(f) == chunks[i];
      StoredIsBlob(w, f, user);
    }
  }

  lemma {:induction false} BareBlobs(w: World, chunks: seq<Chunk>, user: Bytes)
    requires Valid(w) && AllKnown(w, chunks, user) && HaveBlobs(w.s3, user, chunks)
    ensures Bare(WithBlobs(w.s3, user, chunks)) == chunks
  {
    forall i | 0 <= i < |chunks| ensures WithoutData(chunks[i]) == chunks[i] {
      assert Known(w, chunks[i], user);
    }
  }

  /** Whatever came from the cache and whatever from S3, sorted it is what S3 alone would have given. */
  lemma {:induction false} FilledIsBlobs(w: World, r: seq<Chunk>, chunks: seq<Chunk>, user: Bytes)
    requires Valid(w) && AllKnown(w, chunks, user) && HaveBlobs(w.s3, user, chunks)
    requires Strict(r) && Strict(chunks) && AllStored(w, r, user)
    requires forall c :: c in r ==> WithoutData(c) in chunks
    requires forall c :: c in chunks ==> exists f :: f in r && WithoutData(f) == c
    ensures r == WithBlobs(w.s3, user, chunks) && Bare(r) == chunks
  {
    FilledAreBlobs(w, r, chunks, user);
    BlobsAreFilled(w, r, chunks, user);
    StrictDetermined(r, WithBlobs(w.s3, user, chunks));
    BareBlobs(w, chunks, user);
  }

  /** Two stores in which no ID was used for two chunks complete the same list in the same way. */
  lemma {:induction false} SameBlobs(w: World, w': World, chunks: seq<Chunk>, user: Bytes)
    requires Valid(w) && Valid(w') && WriteOnce(w.issued + w'.issued)
    requires AllKnown(w, chunks, user) && AllKnown(w', chunks, user)
    requires HaveBlobs(w.s3, user, chunks) && HaveBlobs(w'.s3, user, chunks)
    ensures WithBlobs(w.s3, user, chunks) == WithBlobs(w'.s3, user, chunks)
  {
    forall i | 0 <= i < |chunks|
      ensures w.s3[ChunkName(user, chunks[i].id)] == w'.s3[ChunkName(user, chunks[i].id)]
    {
      var k := ChunkName(user, chunks[i].id);
      FillKnown(w, chunks[i], user);
      FillKnown(w', chunks[i], user);
      var c, c' := chunks[i].(data := w.s3[k]), chunks[i].(data := w'.s3[k]);
      assert Entry(user, c) in w.issued + w'.issued && Entry(user, c') in w.issued + w'.issued;
    }
  }

  /** From what was looked up to what is returned. */
  lemma {:induction false} AnswerFilled(
    w: World, w0: World, r: seq<Chunk>, chunks: seq<Chunk>, user: Bytes, from: int, through: int,
    name: Bytes, ms: seq<Matcher>)
    requires Valid(w) && Grows(w0, w) && Valid(w0) && multiset(Bare(r)) == multiset(chunks) && Strict(chunks)
    requires AllStored(w, r, user) && FoundSound(w, chunks, user, from, through, name, ms)
    ensures |Ids(r)| == |r| && AnswerSound(w, r, user, from, through, name, ms)
    ensures FoundComplete(w0.done, chunks, user, from, through, name, ms) ==>
              AnswerComplete(w0.done, r, user, from, through, name, ms)
  {
    FilledMembers(r, chunks);
    forall c | c in r ensures Selected(c, from, through, name, ms) {
      SelectedIgnoresData(c, from, through, name, ms);
    }
    if FoundComplete(w0.done, chunks, user, from, through, name, ms) {
      forall c | Entry(user, c) in w0.done && Selected(c, from, through, name, ms) ensures c in r {
        assert WithoutData(c) in chunks;
        var f :| f in r && WithoutData(f) == WithoutData(c);
        assert Entry(user, f) in w.issued && Entry(user, c) in w.issued && f.id == c.id;
      }
    }
  }

  lemma {:induction false} SelectedIgnoresData(c: Chunk, from: int, through: int, name: Bytes, ms: seq<Matcher>)
    ensures Selected(c, from, through, name, ms) <==> Selected(WithoutData(c), from, through, name, ms)
  {
    var d := WithoutData(c);
    forall i | 0 <= i < |ms| ensures Carries(c, Some(ms[i])) <==> Carries(d, Some(ms[i])) {
    }
    assert Carries(c, None) <==> Carries(d, None);
  }

  lemma {:induction false} FoundLater(
    w: World, w': World, r: seq<Chunk>, user: Bytes, from: int, through: int, name: Bytes, ms: seq<Matcher>)
    requires Grows(w, w') && FoundSound(w, r, user, from, through, name, ms)
    ensures FoundSound(w', r, user, from, through, name, ms)
  {
    forall c | c in r ensures Known(w', c, user) {
      KnownGrows(w, w', c, user);
    }
  }

  lemma {:induction false} SubsetKnown(w: World, w': World, all: seq<Chunk>, part: seq<Chunk>, user: Bytes)
    requires Grows(w, w') && AllKnown(w, all, user) && multiset(part) <= multiset(all)
    ensures AllKnown(w', part, user)
  {
    forall c | c in part ensures Known(w', c, user) {
      assert c in multiset(part) && c in multiset(all);
      KnownGrows(w, w', c, user);
    }
  }

  /** The list with one more chunk, its data filled in. */
  function Filled(r: seq<Chunk>, c: Chunk, data: Bytes): (r': seq<Chunk>)
    ensures c.data == [] ==> multiset(Bare(r')) == multiset(Bare(r)) + multiset{c}
  {
    BareAppend(r, [c.(data := data)]);
    r + [c.(data := data)]
  }

  lemma {:induction false} ShuffledKnown(w: World, arrivals: seq<Chunk>, chunks: seq<Chunk>, user: Bytes)
    requires AllKnown(w, chunks, user) && multiset(arrivals) == multiset(chunks)
    ensures forall i :: 0 <= i < |arrivals| ==> Known(w, arrivals[i], user)
  {
    Sorting.SameMembers(arrivals, chunks);
    forall i | 0 <= i < |arrivals| ensures Known(w, arrivals[i], user) {
      assert arrivals[i] in arrivals;
    }
  }

  lemma {:induction false} StoredAppend(w: World, r: seq<Chunk>, c: Chunk, user: Bytes)
    requires AllStored(w, r, user) && Stored(w, c, user)
    ensures AllStored(w, r + [c], user)
  {
  }

  lemma {:induction false} TakeOne<T>(s: seq<T>, i: nat)
    requires i < |s|
    ensures multiset(s[..i + 1]) == multiset(s[..i]) + multiset{s[i]}
  {
    assert s[..i + 1] == s[..i] + [s[i]];
  }

  /** The loop of the cache's FetchChunkData: chunks with a cached item get its value, the others are missing. */
  method SplitByCache(user: Bytes, chunks: seq<Chunk>, items: map<Bytes, Bytes>, ghost w: World)
    returns (found: seq<Chunk>, missing: seq<Chunk>)
    requires Valid(w) && AllKnown(w, chunks, user) && items == w.cache
    ensures multiset(Bare(found)) + multiset(missing) == multiset(chunks)
    ensures AllStored(w, found, user)
    ensures forall c :: c in missing ==> ChunkName(user, c.id) !in items
  {
    found, missing := [], [];
    for i := 0 to |chunks|
      invariant multiset(Bare(found)) + multiset(missing) == multiset(chunks[..i])
      invariant AllStored(w, found, user)
      invariant forall c :: c in missing ==> ChunkName(user, c.id) !in items
    {
      var key := ChunkName(user, chunks[i].id);
      TakeOne(chunks, i);
      assert Known(w, chunks[i], user);
      if key !in items {
        missing := missing + [chunks[i]];
      } else {
        FillKnown(w, chunks[i], user);
        StoredAppend(w, found, chunks[i].(data := items[key]), user);
        found := Filled(found, chunks[i], items[key]);
      }
    }
    assert chunks[..|chunks|] == chunks;
  }

  // ----- taking the metric name out of the matchers ---------------------------------------------

  /** The index of the first matcher of the metric name, the length if there is none. */
  function FirstName(ms: seq<Matcher>): (i: nat)
    ensures i <= |ms| && (i < |ms| ==> ms[i].name == NAME)
    ensures forall k :: 0 <= k < i ==> ms[k].name != NAME
  {
    if ms == [] || ms[0].name == NAME then 0 else 1 + FirstName(ms[1..])
  }

  /** The metric name and the remaining matchers, if the first name matcher is an equality. */
  function NameMatcher(ms: seq<Matcher>): Option<(Bytes, seq<Matcher>)> {
    var i := FirstName(ms);
    if i < |ms| && ms[i].kind.Equal? then Some((ms[i].value, ms[..i] + ms[i + 1..])) else None
  }

  /** The caller's array afterwards: compacted in place, its last element left where it was. */
  function AfterExtract(ms: seq<Matcher>): seq<Matcher> {
    if NameMatcher(ms).None? then ms else NameMatcher(ms).value.1 + [ms[|ms| - 1]]
  }

  /** extractMetricName. */
  method ExtractMetricName(a: array<Matcher>) returns (res: Outcome<Bytes>)
    modifies a
    ensures a[..] == AfterExtract(old(a[..]))
    ensures NameMatcher(old(a[..])).None? ==> res == Err
    ensures NameMatcher(old(a[..])).Some? ==>
      a.Length > 0 && res == Ok(NameMatcher(old(a[..])).value.0) && a[..a.Length - 1] == NameMatcher(old(a[..])).value.1
  {
    ghost var ms := a[..];
    var i := FindName(a);
    if i == a.Length || !a[i].kind.Equal? {
      return Err;
    }
    res := Ok(a[i].value);
    Compact(a, i);
  }

  /** The range loop: the first matcher of the metric name. */
  method FindName(a: array<Matcher>) returns (i: nat)
    ensures i == FirstName(a[..])
  {
    i := 0;
    while i < a.Length && a[i].name != NAME
      invariant i <= a.Length
      invariant forall k :: 0 <= k < i ==> a[k].name != NAME
    {
      i := i + 1;
    }
    assert forall k :: 0 <= k < a.Length ==> a[..][k] == a[k];
  }

  /** copy(a[i:], a[i+1:]): everything behind i moves down by one. */
  method Compact(a: array<Matcher>, i: nat)
    requires i < a.Length
    modifies a
    ensures a[..] == old(a[..i]) + old(a[i + 1..]) + [old(a[a.Length - 1])]
  {
    var j := i;
    while j < a.Length - 1
      invariant i <= j <= a.Length - 1
      invariant forall k :: 0 <= k < i ==> a[k] == old(a[k])
      invariant forall k :: i <= k < j ==> a[k] == old(a[k + 1])
      invariant forall k :: j <= k < a.Length ==> a[k] == old(a[k])
    {
      a[j] := a[j + 1];
      j := j + 1;
    }
  }

  /**
    A query consumes the metric name of the caller's array: a second query with the same array
    finds a name matcher only if the name matcher came last or there was another one behind it.
   */
  lemma {:induction false} NameIsConsumed(ms: seq<Matcher>)
    requires NameMatcher(ms).Some?
    ensures var i := FirstName(ms);
            FirstName(AfterExtract(ms)) < |AfterExtract(ms)| <==>
            i == |ms| - 1 || exists j :: i < j < |ms| && ms[j].name == NAME
  {
    var i, after := FirstName(ms), AfterExtract(ms);
    assert forall k :: 0 <= k < |ms| - 1 ==> after[k] == if k < i then ms[k] else ms[k + 1];
    assert after[|ms| - 1] == ms[|ms| - 1];
    if j :| i < j < |ms| && ms[j].name == NAME {
      assert after[j - 1].name == NAME;
    }
    if FirstName(after) < |ms| - 1 {
      assert FirstName(after) >= i && ms[FirstName(after) + 1].name == NAME;
    }
  }
}
