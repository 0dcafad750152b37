/** The hour buckets under which chunk/chunk_store.go files and finds its index rows. */
module Buckets {

  const TICKS_PER_SECOND := 1000
  const SECONDS_PER_HOUR := 3600

  /** Go's integer division, which truncates toward zero. */
  function TruncDiv(a: int, b: int): int
    requires b > 0
  {
    if a >= 0 then a / b else -((-a) / b)
  }

  /** The hour of a millisecond timestamp: two truncating divisions. */
  function Hour(t: int): int {
    TruncDiv(TruncDiv(t, TICKS_PER_SECOND), SECONDS_PER_HOUR)
  }

  /** An hour is 3,600,000 milliseconds, counted from zero in both directions. */
  lemma {:induction false} HourPlainly(t: int)
    ensures t >= 0 ==> 3_600_000 * Hour(t) <= t < 3_600_000 * (Hour(t) + 1)
    ensures Hour(-t) == -Hour(t)
  {
    assert t >= 0 ==> t / 1000 / 3600 == t / 3_600_000;
  }

  lemma {:induction false} HourMonotone(t: int, t': int)
    requires t <= t'
    ensures Hour(t) <= Hour(t')
  {
    assert TruncDiv(t, TICKS_PER_SECOND) <= TruncDiv(t', TICKS_PER_SECOND);
  }

  predicate InBuckets(hour: int, from: int, through: int) {
    Hour(from) <= hour <= Hour(through)
  }

  /** Some bucket belongs to both intervals. */
  predicate BucketsMeet(from: int, through: int, from': int, through': int) {
    exists h :: Hour(from) <= h <= Hour(through) && InBuckets(h, from', through')
  }

  /** Intervals that overlap share a bucket, times before 1970 included. */
  lemma {:induction false} OverlapSharesBucket(from: int, through: int, from': int, through': int)
    requires from <= through && from' <= through'
    requires from <= through' && from' <= through
    ensures BucketsMeet(from, through, from', through')
  {
    HourMonotone(from, through);
    HourMonotone(from', through');
    HourMonotone(from, through');
    HourMonotone(from', through);
    var h := if Hour(from) <= Hour(from') then Hour(from') else Hour(from);
    assert InBuckets(h, from', through');
  }

  /** Buckets over-approximate: points of one bucket are less than two hours apart, one hour away from zero. */
  lemma {:induction false} BucketWidth(t: int, t': int)
    requires Hour(t) == Hour(t')
    ensures t' - t < 7_200_000 && (Hour(t) != 0 ==> t' - t < 3_600_000)
  {
  }

  /** Intervals that share a bucket are less than two hours apart. */
  lemma {:induction false} MeetingIsNear(from: int, through: int, from': int, through': int)
    requires BucketsMeet(from, through, from', through')
    ensures from' - through < 7_200_000 && from - through' < 7_200_000
  {
    var h :| Hour(from) <= h <= Hour(through) && InBuckets(h, from', through');
    if from' > through {
      HourMonotone(through, from');
      BucketWidth(through, from');
    }
    if from > through' {
      HourMonotone(through', from);
      BucketWidth(through', from);
    }
  }

  /** bigBuckets: the consecutive hours from the first to the last, none if the interval is reversed. */
  method BigBuckets(from: int, through: int) returns (result: seq<int>)
    ensures forall h :: h in result <==> InBuckets(h, from, through)
    ensures forall i :: 0 <= i < |result| ==> result[i] == Hour(from) + i
  {
    var i, last := Hour(from), Hour(through);
    result := [];
    while i <= last
      invariant Hour(from) <= i
      invariant i == Hour(from) + |result|
      invariant result != [] ==> i <= last + 1
      invariant forall k :: 0 <= k < |result| ==> result[k] == Hour(from) + k
      decreases last - i
    {
      result := result + [i];
      i := i + 1;
    }
    forall h | InBuckets(h, from, through) ensures h in result {
      assert result[h - Hour(from)] == h;
    }
  }
}
