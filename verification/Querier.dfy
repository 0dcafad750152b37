/**
  querier.go and iterator.go: sample streams are grouped by metric fingerprint, sorted by time, and
  read by binary search.
 */
module Querier {
  import opened Options
  import opened Seqs
  import opened ChunkIndex
  import opened Answers
  import Sorting

  type Fingerprint = nat

  datatype SamplePair = SamplePair(timestamp: int, value: real)

  /** A series' samples as one querier returned them, under the fingerprint of its metric. */
  datatype Stream = Stream(fp: Fingerprint, values: seq<SamplePair>)

  predicate Earlier(a: SamplePair, b: SamplePair) {
    a.timestamp < b.timestamp
  }

  ghost predicate InTimeOrder(s: seq<SamplePair>) {
    Sorting.Ordered(s, Earlier)
  }

  // ----- grouping -----------------------------------------------------------------------------

  /** All samples of one series, in the order in which the streams came. */
  function Gathered(streams: seq<Stream>, fp: Fingerprint): seq<SamplePair> {
    if streams == [] then []
    else
      var last := streams[|streams| - 1];
      Gathered(streams[..|streams| - 1], fp) + if last.fp == fp then last.values else []
  }

  function Series(streams: seq<Stream>): set<Fingerprint> {
    if streams == [] then {} else Series(streams[..|streams| - 1]) + {streams[|streams| - 1].fp}
  }

  ghost predicate Grouped(groups: map<Fingerprint, seq<SamplePair>>, streams: seq<Stream>) {
    groups.Keys == Series(streams) && forall fp :: fp in groups ==> groups[fp] == Gathered(streams, fp)
  }

  lemma {:induction false} NotGathered(streams: seq<Stream>, fp: Fingerprint)
    requires fp !in Series(streams)
    ensures Gathered(streams, fp) == []
  {
    if streams != [] {
      NotGathered(streams[..|streams| - 1], fp);
    }
  }

  lemma {:induction false} GroupedStep(groups: map<Fingerprint, seq<SamplePair>>, streams: seq<Stream>, ss: Stream)
    requires Grouped(groups, streams)
    ensures Grouped(groups[ss.fp := if ss.fp in groups then groups[ss.fp] + ss.values else ss.values], streams + [ss])
  {
    var all := streams + [ss];
    assert all[..|all| - 1] == streams;
    if ss.fp !in groups {
      NotGathered(streams, ss.fp);
      assert [] + ss.values == ss.values;
    }
    forall fp | fp in groups && fp != ss.fp ensures Gathered(all, fp) == groups[fp] {
      assert Gathered(streams, fp) + [] == Gathered(streams, fp);
    }
  }

  /** The grouping loop: the first stream of a series starts its list, later ones are appended. */
  method Group(streams: seq<Stream>) returns (groups: map<Fingerprint, seq<SamplePair>>)
    ensures Grouped(groups, streams)
  {
    groups := map[];
    for i := 0 to |streams|
      invariant Grouped(groups, streams[..i])
    {
      var ss := streams[i];
      assert streams[..i + 1] == streams[..i] + [ss];
      GroupedStep(groups, streams[..i], ss);
      groups := groups[ss.fp := if ss.fp in groups then groups[ss.fp] + ss.values else ss.values];
    }
    assert streams[..|streams|] == streams;
  }

  /** A series iterator. */
  datatype Iterator = Iterator(fp: Fingerprint, values: seq<SamplePair>)

  function SeriesOf(its: seq<Iterator>): set<Fingerprint> {
    set it | it in its :: it.fp
  }

  /** One iterator for each of these series, holding a time-ordered permutation of all its samples. */
  ghost predicate Collected(its: seq<Iterator>, fps: set<Fingerprint>, streams: seq<Stream>) {
    && (forall i, j :: 0 <= i < j < |its| ==> its[i].fp != its[j].fp)
    && SeriesOf(its) == fps
    && (forall it :: it in its ==> Complete(it, streams))
  }

  ghost predicate Merged(its: seq<Iterator>, streams: seq<Stream>) {
    Collected(its, Series(streams), streams)
  }

  ghost predicate Complete(it: Iterator, streams: seq<Stream>) {
    InTimeOrder(it.values) && multiset(it.values) == multiset(Gathered(streams, it.fp))
  }

  lemma {:induction false} SeriesAppend(its: seq<Iterator>, it: Iterator)
    ensures SeriesOf(its + [it]) == SeriesOf(its) + {it.fp}
  {
    var all := its + [it];
    assert forall x :: x in all <==> x in its || x == it;
  }

  lemma {:induction false} CollectedStep(its: seq<Iterator>, fps: set<Fingerprint>, streams: seq<Stream>, it: Iterator)
    requires Collected(its, fps, streams) && it.fp !in fps && Complete(it, streams)
    ensures Collected(its + [it], fps + {it.fp}, streams)
  {
    SeriesAppend(its, it);
    assert forall k :: 0 <= k < |its| ==> its[k] in its && its[k].fp in SeriesOf(its);
  }

  /** Sorting the lists and collecting them, in the order of the map. */
  method Iterators(groups: map<Fingerprint, seq<SamplePair>>, ghost streams: seq<Stream>) returns (its: seq<Iterator>)
    requires Grouped(groups, streams)
    ensures Merged(its, streams)
  {
    its := [];
    var rest := groups.Keys;
    while rest != {}
      invariant rest <= groups.Keys && Collected(its, groups.Keys - rest, streams)
      decreases rest
    {
      var fp :| fp in rest;
      var sorted := Sorting.Sort(groups[fp], Earlier);
      CollectedStep(its, groups.Keys - rest, streams, Iterator(fp, sorted));
      assert groups.Keys - rest + {fp} == groups.Keys - (rest - {fp});
      its := its + [Iterator(fp, sorted)];
      rest := rest - {fp};
    }
  }

  /** The streams of all queriers in turn. */
  function AllStreams(results: seq<Option<seq<Stream>>>): seq<Stream>
    requires forall i :: 0 <= i < |results| ==> results[i].Some?
  {
    if results == [] then [] else AllStreams(results[..|results| - 1]) + results[|results| - 1].value
  }

  // ----- in plain terms -------------------------------------------------------------------------

  /** How often a sample occurs in the streams of one series. */
  function Tally(streams: seq<Stream>, fp: Fingerprint, x: SamplePair): nat {
    if streams == [] then 0
    else if streams[0].fp == fp then multiset(streams[0].values)[x] + Tally(streams[1..], fp, x)
    else Tally(streams[1..], fp, x)
  }

  /** ... and in all replies together. */
  function TallyAll(replies: seq<Option<seq<Stream>>>, fp: Fingerprint, x: SamplePair): nat {
    if replies == [] then 0
    else if replies[0].Some? then Tally(replies[0].value, fp, x) + TallyAll(replies[1..], fp, x)
    else TallyAll(replies[1..], fp, x)
  }

  lemma {:induction false} TallyConcat(a: seq<Stream>, b: seq<Stream>, fp: Fingerprint, x: SamplePair)
    ensures Tally(a + b, fp, x) == Tally(a, fp, x) + Tally(b, fp, x)
  {
    if a == [] {
      assert a + b == b;
    } else {
      assert (a + b)[1..] == a[1..] + b;
      TallyConcat(a[1..], b, fp, x);
    }
  }

  lemma {:induction false} GatheredTally(streams: seq<Stream>, fp: Fingerprint, x: SamplePair)
    ensures multiset(Gathered(streams, fp))[x] == Tally(streams, fp, x)
  {
    if streams != [] {
      var front, last := streams[..|streams| - 1], streams[|streams| - 1];
      GatheredTally(front, fp, x);
      TallyConcat(front, [last], fp, x);
      assert streams == front + [last] && [last][1..] == [];
    }
  }

  lemma {:induction false} SeriesMembers(streams: seq<Stream>, fp: Fingerprint)
    ensures fp in Series(streams) <==> exists s :: s in streams && s.fp == fp
  {
    if streams != [] {
      SeriesMembers(streams[..|streams| - 1], fp);
      assert streams == streams[..|streams| - 1] + [streams[|streams| - 1]];
    }
  }

  lemma {:induction false} TallyAllSnoc(
    replies: seq<Option<seq<Stream>>>, last: seq<Stream>, fp: Fingerprint, x: SamplePair)
    ensures TallyAll(replies + [Some(last)], fp, x) == TallyAll(replies, fp, x) + Tally(last, fp, x)
  {
    if replies == [] {
      assert replies + [Some(last)] == [Some(last)] && [Some(last)][1..] == [];
    } else {
      assert (replies + [Some(last)])[1..] == replies[1..] + [Some(last)];
      TallyAllSnoc(replies[1..], last, fp, x);
    }
  }

  /** The fingerprints that occur in any reply. */
  function FingerprintsOf(replies: seq<Option<seq<Stream>>>): set<Fingerprint> {
    set reply, s | reply in replies && reply.Some? && s in reply.value :: s.fp
  }

  lemma {:induction false} FingerprintsMembers(replies: seq<Option<seq<Stream>>>, fp: Fingerprint)
    requires forall i :: 0 <= i < |replies| ==> replies[i].Some?
    ensures fp in FingerprintsOf(replies) <==> exists s :: s in AllStreams(replies) && s.fp == fp
  {
    if s :| s in AllStreams(replies) && s.fp == fp {
      AllStreamsMembers(replies, s);
      var i :| 0 <= i < |replies| && s in replies[i].value;
      assert replies[i] in replies;
    }
    if fp in FingerprintsOf(replies) {
      var reply, s :| reply in replies && reply.Some? && s in reply.value && s.fp == fp;
      var i :| 0 <= i < |replies| && replies[i] == reply;
      AllStreamsMembers(replies, s);
    }
  }

  lemma {:induction false} AllStreamsTally(replies: seq<Option<seq<Stream>>>, fp: Fingerprint, x: SamplePair)
    requires forall i :: 0 <= i < |replies| ==> replies[i].Some?
    ensures Tally(AllStreams(replies), fp, x) == TallyAll(replies, fp, x)
  {
    if replies != [] {
      var front, last := replies[..|replies| - 1], replies[|replies| - 1].value;
      AllStreamsTally(front, fp, x);
      TallyConcat(AllStreams(front), last, fp, x);
      TallyAllSnoc(front, last, fp, x);
      assert replies == front + [Some(last)];
    }
  }

  lemma {:induction false} AllStreamsMembers(replies: seq<Option<seq<Stream>>>, s: Stream)
    requires forall i :: 0 <= i < |replies| ==> replies[i].Some?
    ensures s in AllStreams(replies) <==> exists i :: 0 <= i < |replies| && s in replies[i].value
  {
    if replies != [] {
      var n := |replies| - 1;
      AllStreamsMembers(replies[..n], s);
      if i :| 0 <= i < |replies| && s in replies[i].value {
        assert i < n ==> s in replies[..n][i].value;
      }
    }
  }

  /** An iterator has every sample as often as it occurs in the streams of its series, in order of time. */
  lemma {:induction false} MergedSamples(
    its: seq<Iterator>, streams: seq<Stream>, it: Iterator, x: SamplePair, a: nat, b: nat)
    requires Merged(its, streams) && it in its
    ensures multiset(it.values)[x] == Tally(streams, it.fp, x)
    ensures a < b < |it.values| ==> it.values[a].timestamp <= it.values[b].timestamp
  {
    assert Complete(it, streams);
    GatheredTally(streams, it.fp, x);
    assert a < b < |it.values| ==> !Earlier(it.values[b], it.values[a]);
  }

  // ----- asking the queriers in turn ----------------------------------------------------------

  /** One of the merged queriers: what it answers, None for an error, and whether it compacts the matchers. */
  datatype Source = Source(ask: seq<Matcher> -> Option<seq<Stream>>, compacts: bool)

  /** What querier i is asked: all share one array, and a chunk querier takes the metric name out of it. */
  function Asked(sources: seq<Source>, ms: seq<Matcher>, i: nat): seq<Matcher>
    requires i <= |sources|
  {
    if i == 0 then ms
    else
      var before := Asked(sources, ms, i - 1);
      if sources[i - 1].compacts then AfterExtract(before) else before
  }

  function Replies(sources: seq<Source>, ms: seq<Matcher>): seq<Option<seq<Stream>>> {
    seq(|sources|, i requires 0 <= i < |sources| => sources[i].ask(Asked(sources, ms, i)))
  }

  /** Taking the metric name out leaves the array as it was: there is none, or all behind it are its copies. */
  ghost predicate Unmoved(ms: seq<Matcher>) {
    NameMatcher(ms).None? || forall k :: FirstName(ms) <= k < |ms| - 1 ==> ms[k] == ms[k + 1]
  }

  lemma {:induction false} UnmovedExactly(ms: seq<Matcher>)
    ensures AfterExtract(ms) == ms <==> Unmoved(ms)
  {
    if NameMatcher(ms).Some? {
      var i, after := FirstName(ms), AfterExtract(ms);
      assert |after| == |ms| && after[|ms| - 1] == ms[|ms| - 1];
      assert forall k :: 0 <= k < |ms| - 1 ==> after[k] == if k < i then ms[k] else ms[k + 1];
    }
  }

  /** Nobody compacts the matchers before the last querier. */
  predicate CompactsLast(sources: seq<Source>) {
    forall i :: 0 <= i < |sources| - 1 ==> !sources[i].compacts
  }

  lemma {:induction false} AskedNext(sources: seq<Source>, ms: seq<Matcher>, i: nat)
    requires i < |sources| && Asked(sources, ms, i) == ms
    ensures Asked(sources, ms, i + 1) == ms <==> !sources[i].compacts || Unmoved(ms)
  {
    UnmovedExactly(ms);
  }

  lemma {:induction false} AskedSame(sources: seq<Source>, ms: seq<Matcher>, i: nat)
    requires i < |sources| && (CompactsLast(sources) || Unmoved(ms))
    ensures Asked(sources, ms, i) == ms
  {
    if i > 0 {
      AskedSame(sources, ms, i - 1);
      AskedNext(sources, ms, i - 1);
      if sources[i - 1].compacts {
        assert !CompactsLast(sources);
      }
    }
  }

  ghost predicate AllAskedSame(sources: seq<Source>, ms: seq<Matcher>) {
    forall i :: 0 <= i < |sources| ==> Asked(sources, ms, i) == ms
  }

  /**
    Exactly when all queriers are asked the same query: when no chunk querier comes before another
    querier, or taking the name out does not move anything.
   */
  lemma {:induction false} SameQueryExactly(sources: seq<Source>, ms: seq<Matcher>)
    ensures AllAskedSame(sources, ms) <==> CompactsLast(sources) || Unmoved(ms)
  {
    if CompactsLast(sources) || Unmoved(ms) {
      forall i | 0 <= i < |sources| ensures Asked(sources, ms, i) == ms {
        AskedSame(sources, ms, i);
      }
    } else if AllAskedSame(sources, ms) {
      var i :| 0 <= i < |sources| - 1 && sources[i].compacts;
      AskedNext(sources, ms, i);
    }
  }

  /** The queriers are asked in turn with the same array; the first error ends it. */
  method AskInTurn(sources: seq<Source>, matchers: array<Matcher>)
    returns (res: Option<seq<Iterator>>, ghost replies: seq<Option<seq<Stream>>>)
    modifies matchers
    ensures replies == Replies(sources, old(matchers[..]))
    ensures res.Some? <==> forall i :: 0 <= i < |replies| ==> replies[i].Some?
    ensures res.Some? ==> Merged(res.value, AllStreams(replies))
  {
    ghost var ms := matchers[..];
    replies := Replies(sources, ms);
    var streams: seq<Stream> := [];
    for i := 0 to |sources|
      invariant matchers[..] == Asked(sources, ms, i)
      invariant forall k :: 0 <= k < i ==> replies[k].Some?
      invariant streams == AllStreams(replies[..i])
    {
      var matrix := sources[i].ask(matchers[..]);
      assert matrix == replies[i];
      if matrix.None? {
        return None, replies;
      }
      if sources[i].compacts {
        var _ := ExtractMetricName(matchers);
      }
      assert replies[..i + 1][..i] == replies[..i];
      streams := streams + matrix.value;
    }
    assert replies[..|replies|] == replies;
    var groups := Group(streams);
    var its := Iterators(groups, streams);
    res := Some(its);
  }

  /**
    MergeQuerier.QueryRange: an error if some querier reports one, otherwise one iterator for every series
    in any reply, with every sample as often as it occurs in all replies, in order of time.
   */
  method QueryRange(sources: seq<Source>, matchers: array<Matcher>)
    returns (res: Option<seq<Iterator>>, ghost replies: seq<Option<seq<Stream>>>)
    modifies matchers
    ensures replies == Replies(sources, old(matchers[..]))
    ensures res.Some? <==> forall i :: 0 <= i < |replies| ==> replies[i].Some?
    ensures res.Some? ==> forall i, j :: 0 <= i < j < |res.value| ==> res.value[i].fp != res.value[j].fp
    ensures res.Some? ==> forall it, x :: it in res.value ==>
      multiset(it.values)[x] == TallyAll(replies, it.fp, x)
    ensures res.Some? ==> forall it, a, b :: it in res.value && 0 <= a < b < |it.values| ==>
      it.values[a].timestamp <= it.values[b].timestamp
    ensures res.Some? ==> (set it | it in res.value :: it.fp) == FingerprintsOf(replies)
  {
    res, replies := AskInTurn(sources, matchers);
    if res.Some? {
      RepliesMerged(res.value, replies);
    }
  }

  lemma {:induction false} RepliesMerged(its: seq<Iterator>, replies: seq<Option<seq<Stream>>>)
    requires (forall i :: 0 <= i < |replies| ==> replies[i].Some?) && Merged(its, AllStreams(replies))
    ensures forall it, x :: it in its ==> multiset(it.values)[x] == TallyAll(replies, it.fp, x)
    ensures forall it, a, b :: it in its && 0 <= a < b < |it.values| ==>
      it.values[a].timestamp <= it.values[b].timestamp
    ensures (set it | it in its :: it.fp) == FingerprintsOf(replies)
  {
    var streams := AllStreams(replies);
    forall it, x | it in its ensures multiset(it.values)[x] == TallyAll(replies, it.fp, x) {
      MergedSamples(its, streams, it, x, 0, 0);
      AllStreamsTally(replies, it.fp, x);
    }
    forall it, a, b | it in its && 0 <= a < b < |it.values| ensures it.values[a].timestamp <= it.values[b].timestamp {
      MergedSamples(its, streams, it, it.values[a], a, b);
    }
    forall fp ensures fp in SeriesOf(its) <==> fp in FingerprintsOf(replies) {
      SeriesMembers(streams, fp);
      FingerprintsMembers(replies, fp);
    }
  }

  /** ChunkQuerier.Query: chunks become streams, decoded, and are grouped and sorted in the same way. */
  method QueryChunks<C>(chunks: seq<C>, toStream: C -> Stream) returns (matrix: seq<Iterator>)
    ensures Merged(matrix, seq(|chunks|, i requires 0 <= i < |chunks| => toStream(chunks[i])))
  {
    var streams := seq(|chunks|, i requires 0 <= i < |chunks| => toStream(chunks[i]));
    var groups := Group(streams);
    matrix := Iterators(groups, streams);
  }

  // ----- reading ----------------------------------------------------------------------------------

  /** model.Earliest. */
  const EARLIEST := -0x8000_0000_0000_0000

  /** Binary search between i and j for the first sample after a time. */
  function Bisect(values: seq<SamplePair>, ts: int, i: nat, j: nat): (r: nat)
    requires InTimeOrder(values) && i <= j <= |values|
    requires forall k :: 0 <= k < i ==> values[k].timestamp <= ts
    requires forall k :: j <= k < |values| ==> values[k].timestamp > ts
    ensures r <= |values|
    ensures forall k :: 0 <= k < |values| ==> (values[k].timestamp > ts <==> r <= k)
    decreases j - i
  {
    if i == j then i
    else
      var h := (i + j) / 2;
      assert forall k :: 0 <= k < h ==> !Earlier(values[h], values[k]);
      assert forall k :: h < k < |values| ==> !Earlier(values[k], values[h]);
      if values[h].timestamp > ts then Bisect(values, ts, i, h) else Bisect(values, ts, h + 1, j)
  }

  /** The number of samples not after a time. */
  function FirstAfter(values: seq<SamplePair>, ts: int): (i: nat)
    requires InTimeOrder(values)
    ensures i <= |values|
    ensures forall k :: 0 <= k < |values| ==> (values[k].timestamp > ts <==> i <= k)
  {
    Bisect(values, ts, 0, |values|)
  }

  /** The latest sample not after ts, or the Earliest marker if there is none. */
  function ValueAtOrBeforeTime(values: seq<SamplePair>, ts: int): (r: SamplePair)
    requires InTimeOrder(values)
    ensures (forall v :: v in values ==> v.timestamp > ts) ==> r == SamplePair(-0x8000_0000_0000_0000, 0.0)
    ensures (exists v :: v in values && v.timestamp <= ts) ==>
      r in values && r.timestamp <= ts && forall v :: v in values && v.timestamp <= ts ==> v.timestamp <= r.timestamp
  {
    var i := FirstAfter(values, ts);
    if i == 0 then SamplePair(EARLIEST, 0.0)
    else
      assert forall k :: 0 <= k < i - 1 ==> !Earlier(values[i - 1], values[k]);
      values[i - 1]
  }

  function Within(oldest: int, newest: int): SamplePair -> bool {
    (v: SamplePair) => oldest <= v.timestamp <= newest
  }

  /** A slice expression values[start:end] with start above end panics at run time. */
  predicate Inverted(values: seq<SamplePair>, oldest: int, newest: int) {
    && (exists v :: v in values && newest < v.timestamp < oldest)
    && (exists v :: v in values && v.timestamp >= oldest)
  }

  /**
    RangeValues: exactly the samples in the interval.  It panics exactly on an inverted interval that
    leaves some sample strictly inside and another at or after its upper end.
   */
  function RangeValues(values: seq<SamplePair>, oldest: int, newest: int): (res: Outcome<seq<SamplePair>>)
    requires InTimeOrder(values)
    ensures !res.Err? && (res.Panic? <==> Inverted(values, oldest, newest))
    ensures res.Ok? ==> res.value == Filter(values, Within(oldest, newest))
  {
    var start := FirstAfter(values, oldest - 1);
    var end := FirstAfter(values, newest);
    InvertedExactly(values, oldest, newest, start, end);
    if start == |values| then
      FilterNone(values, Within(oldest, newest));
      Ok([])
    else if start > end then Panic
    else
      SliceIsFilter(values, oldest, newest, start, end);
      Ok(values[start..end])
  }

  /** In plain terms: every sample in the interval, as often as it was there, and no other, in order of time. */
  lemma {:induction false} RangeValuesMean(
    values: seq<SamplePair>, oldest: int, newest: int, v: SamplePair, a: nat, b: nat)
    requires InTimeOrder(values) && RangeValues(values, oldest, newest).Ok?
    ensures var r := RangeValues(values, oldest, newest).value;
            && multiset(r)[v] == (if oldest <= v.timestamp <= newest then multiset(values)[v] else 0)
            && (a < b < |r| ==> r[a].timestamp <= r[b].timestamp)
  {
    FilterCount(values, Within(oldest, newest), v);
    FilterInOrder(values, Within(oldest, newest));
    var r := RangeValues(values, oldest, newest).value;
    assert a < b < |r| ==> !Earlier(r[b], r[a]);
  }

  lemma {:induction false} FilterInOrder(values: seq<SamplePair>, keep: SamplePair -> bool)
    requires InTimeOrder(values)
    ensures InTimeOrder(Filter(values, keep))
  {
    if values != [] {
      FilterInOrder(values[1..], keep);
      FilterMembers(values[1..], keep);
      var rest := Filter(values[1..], keep);
      forall j | 0 <= j < |rest| ensures !Earlier(rest[j], values[0]) {
        assert rest[j] in values[1..];
      }
    }
  }

  lemma {:induction false} InvertedExactly(values: seq<SamplePair>, oldest: int, newest: int, start: nat, end: nat)
    requires start <= |values| && end <= |values|
    requires forall k :: 0 <= k < |values| ==> (values[k].timestamp > oldest - 1 <==> start <= k)
    requires forall k :: 0 <= k < |values| ==> (values[k].timestamp > newest <==> end <= k)
    ensures Inverted(values, oldest, newest) <==> start < |values| && end < start
  {
    if Inverted(values, oldest, newest) {
      var v :| v in values && newest < v.timestamp < oldest;
      var k :| 0 <= k < |values| && values[k] == v;
      var u :| u in values && u.timestamp >= oldest;
      var j :| 0 <= j < |values| && values[j] == u;
    }
    if start < |values| && end < start {
      assert values[end] in values && newest < values[end].timestamp < oldest;
      assert values[start] in values && values[start].timestamp >= oldest;
    }
  }

  /** A filter that drops the ends and keeps the middle. */
  lemma {:induction false} FilterMiddle<T>(s: seq<T>, i: nat, j: nat, keep: T -> bool)
    requires i <= j <= |s| && forall k :: 0 <= k < |s| ==> (keep(s[k]) <==> i <= k < j)
    ensures Filter(s, keep) == s[i..j]
  {
    if s != [] {
      var rest := s[1..];
      if i > 0 {
        FilterMiddle(rest, i - 1, j - 1, keep);
      } else if j > 0 {
        FilterMiddle(rest, 0, j - 1, keep);
      } else {
        FilterMiddle(rest, 0, 0, keep);
      }
    }
  }

  lemma {:induction false} SliceIsFilter(values: seq<SamplePair>, oldest: int, newest: int, start: nat, end: nat)
    requires start <= end <= |values|
    requires forall k :: 0 <= k < |values| ==> (values[k].timestamp > oldest - 1 <==> start <= k)
    requires forall k :: 0 <= k < |values| ==> (values[k].timestamp > newest <==> end <= k)
    ensures values[start..end] == Filter(values, Within(oldest, newest))
  {
    FilterMiddle(values, start, end, Within(oldest, newest));
  }
}
