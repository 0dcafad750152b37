/** The string keys of the chunk store: DynamoDB hash keys and S3 / memcache object names. */
module Keys {
  import opened ByteStrings
  import opened Seqs

  const COLON: byte := 58
  const SLASH: byte := 47
  const MINUS: byte := 45
  const ZERO: byte := 48

  // ----- decimal numbers, Go's %d -------------------------------------------------

  function Digits(n: nat): Bytes {
    if n < 10 then [ZERO + n] else Digits(n / 10) + [ZERO + n % 10]
  }

  function Decimal(n: int): Bytes {
    if n < 0 then [MINUS] + Digits(-n) else Digits(n)
  }

  /** The number a digit string denotes. */
  function ValueOf(s: Bytes): int {
    if s == [] then 0 else 10 * ValueOf(s[..|s| - 1]) + s[|s| - 1] - ZERO
  }

  lemma {:induction false} DigitsDenote(n: nat)
    ensures ValueOf(Digits(n)) == n
    ensures Digits(n) != []
    ensures forall b :: b in Digits(n) ==> ZERO <= b <= ZERO + 9
  {
    if n < 10 {
      assert [ZERO + n][..0] == [];
      assert ValueOf([]) == 0;
    } else {
      DigitsDenote(n / 10);
      var d := Digits(n);
      assert d[..|d| - 1] == Digits(n / 10);
    }
  }

  lemma {:induction false} DecimalSign(n: int)
    ensures Decimal(n) != [] && (Decimal(n)[0] == MINUS <==> n < 0)
  {
    DigitsDenote(if n < 0 then -n else n);
    assert n >= 0 ==> Decimal(n)[0] in Digits(n);
  }

  lemma {:induction false} DecimalInjective(n: int, n': int)
    requires Decimal(n) == Decimal(n')
    ensures n == n'
  {
    DigitsDenote(if n < 0 then -n else n);
    DigitsDenote(if n' < 0 then -n' else n');
    DecimalSign(n);
    DecimalSign(n');
    if n < 0 {
      assert Decimal(n)[1..] == Digits(-n) && Decimal(n')[1..] == Digits(-n');
    }
  }

  lemma {:induction false} DecimalHasNoColon(n: int)
    ensures COLON !in Decimal(n)
  {
    DigitsDenote(if n < 0 then -n else n);
  }

  // ----- separators ---------------------------------------------------------------

  /** Position of the first separator, the length if there is none. */
  function IndexOf(sep: byte, s: Bytes): nat {
    if s == [] || s[0] == sep then 0 else 1 + IndexOf(sep, s[1..])
  }

  lemma {:induction false} IndexOfSeparator(sep: byte, a: Bytes, x: Bytes)
    requires sep !in a
    ensures IndexOf(sep, a + [sep] + x) == |a|
  {
    if a != [] {
      assert (a + [sep] + x)[1..] == a[1..] + [sep] + x;
      IndexOfSeparator(sep, a[1..], x);
    }
  }

  /** A string free of the separator is recovered from what precedes the separator. */
  lemma {:induction false} SplitAtSeparator(sep: byte, a: Bytes, x: Bytes, b: Bytes, y: Bytes)
    requires sep !in a && sep !in b
    requires a + [sep] + x == b + [sep] + y
    ensures a == b && x == y
  {
    var s := a + [sep] + x;
    IndexOfSeparator(sep, a, x);
    IndexOfSeparator(sep, b, y);
    assert a == s[..|a|] && b == s[..|b|];
    assert x == s[|a| + 1..] && y == s[|b| + 1..];
  }

  // ----- hash keys ----------------------------------------------------------------

  /** hashValue: "user:hour:metric". */
  function HashValue(user: Bytes, hour: int, name: Bytes): Bytes {
    user + [COLON] + (Decimal(hour) + [COLON] + name)
  }

  /** For example "u:17:up" and, before 1970, "u:-3:up". */
  lemma {:induction false} HashValueExamples()
    ensures HashValue([117], 17, [117, 112]) == [117, 58, 49, 55, 58, 117, 112]
    ensures HashValue([117], -3, [117, 112]) == [117, 58, 45, 51, 58, 117, 112]
  {
    assert Digits(1) == [49] && Digits(17) == Digits(1) + [55];
    assert Decimal(17) == [49, 55] && Decimal(-3) == [45, 51];
    assert [117] + [COLON] + ([49, 55] + [COLON] + [117, 112]) == [117, 58, 49, 55, 58, 117, 112];
    assert [117] + [COLON] + ([45, 51] + [COLON] + [117, 112]) == [117, 58, 45, 51, 58, 117, 112];
  }

  /** A hash key determines user, hour and metric name when user IDs have no colon. */
  lemma {:induction false} HashValueInjective(u: Bytes, h: int, n: Bytes, u': Bytes, h': int, n': Bytes)
    requires COLON !in u && COLON !in u'
    requires HashValue(u, h, n) == HashValue(u', h', n')
    ensures u == u' && h == h' && n == n'
  {
    SplitAtSeparator(COLON, u, Decimal(h) + [COLON] + n, u', Decimal(h') + [COLON] + n');
    DecimalHasNoColon(h);
    DecimalHasNoColon(h');
    SplitAtSeparator(COLON, Decimal(h), n, Decimal(h'), n');
    DecimalInjective(h, h');
  }

  /** For one and the same user, colons or not, the key determines hour and metric name. */
  lemma {:induction false} HashValueOfOneUser(u: Bytes, h: int, n: Bytes, h': int, n': Bytes)
    ensures HashValue(u, h, n) == HashValue(u, h', n') ==> h == h' && n == n'
  {
    var s, s' := HashValue(u, h, n), HashValue(u, h', n');
    assert s[|u| + 1..] == Decimal(h) + [COLON] + n;
    assert s'[|u| + 1..] == Decimal(h') + [COLON] + n';
    if s == s' {
      DecimalHasNoColon(h);
      DecimalHasNoColon(h');
      SplitAtSeparator(COLON, Decimal(h), n, Decimal(h'), n');
      DecimalInjective(h, h');
    }
  }

  ghost predicate HashesCollide(u: Bytes, u': Bytes) {
    exists h, n, h', n' :: HashValue(u, h, n) == HashValue(u', h', n')
  }

  /** u' continues u with a colon, a decimal number and another colon (or its end). */
  ghost predicate ContinuesWithHour(u: Bytes, u': Bytes) {
    exists h :: u + [COLON] + Decimal(h) + [COLON] <= u' + [COLON]
  }

  /** Exactly which pairs of different user IDs can share index rows, colons allowed. */
  lemma {:induction false} HashesCollideExactly(u: Bytes, u': Bytes)
    requires u != u'
    ensures HashesCollide(u, u') <==> ContinuesWithHour(u, u') || ContinuesWithHour(u', u)
  {
    if HashesCollide(u, u') {
      var h, n, h', n' :| HashValue(u, h, n) == HashValue(u', h', n');
      if |u| <= |u'| {
        CollisionContinues(u, h, n, u', h', n');
      } else {
        CollisionContinues(u', h', n', u, h, n);
      }
    }
    if ContinuesWithHour(u, u') {
      var n, n' := ContinuationCollides(u, u');
    }
    if ContinuesWithHour(u', u) {
      var n, n' := ContinuationCollides(u', u);
    }
  }

  /** Of two prefixes of one string the shorter is a prefix of the longer. */
  lemma {:induction false} PrefixOfPrefix(p: Bytes, q: Bytes, s: Bytes)
    requires p <= s && q <= s && |p| <= |q|
    ensures p <= q
  {
  }

  /** A separator behind position i of x + d + y, with none in d, is behind d. */
  lemma {:induction false} SeparatorBehind(x: Bytes, d: Bytes, y: Bytes, i: nat)
    requires COLON !in d && |x| <= i < |x + d + y| && (x + d + y)[i] == COLON
    ensures |x| + |d| <= i
  {
    assert forall k :: 0 <= k < |d| ==> (x + d + y)[|x| + k] == d[k];
  }

  lemma {:induction false} CollisionContinues(u: Bytes, h: int, n: Bytes, u': Bytes, h': int, n': Bytes)
    requires HashValue(u, h, n) == HashValue(u', h', n') && u != u' && |u| <= |u'|
    ensures ContinuesWithHour(u, u')
  {
    var s, d := HashValue(u, h, n), Decimal(h);
    HashParts(u, h, n);
    HashParts(u', h', n');
    PrefixOfPrefix(u, u', s);
    assert s[|u'|] == COLON;
    DecimalHasNoColon(h);
    assert s == (u + [COLON]) + d + ([COLON] + n);
    SeparatorBehind(u + [COLON], d, [COLON] + n, |u'|);
    PrefixOfPrefix(u + [COLON] + d + [COLON], u' + [COLON], s);
  }

  lemma {:induction false} ContinuationCollides(u: Bytes, u': Bytes) returns (n: Bytes, n': Bytes)
    requires ContinuesWithHour(u, u')
    ensures exists h, h' :: HashValue(u, h, n) == HashValue(u', h', n')
    ensures HashesCollide(u, u') && HashesCollide(u', u)
  {
    var h :| u + [COLON] + Decimal(h) + [COLON] <= u' + [COLON];
    var p := u + [COLON] + Decimal(h) + [COLON];
    var r, z := (u' + [COLON])[|p|..], Decimal(0) + [COLON];
    n, n' := r + z, [];
    assert u' + [COLON] == p + r;
    HashParts(u, h, n);
    HashParts(u', 0, n');
    Associative(p, r, z);
    Associative(u' + [COLON], Decimal(0), [COLON]);
    assert HashValue(u, h, n) == HashValue(u', 0, n');
  }

  lemma {:induction false} HashParts(u: Bytes, h: int, n: Bytes)
    ensures HashValue(u, h, n) == u + [COLON] + Decimal(h) + [COLON] + n
    ensures n == [] ==> HashValue(u, h, n) == u + [COLON] + Decimal(h) + [COLON]
  {
  }

  // ----- object names -------------------------------------------------------------

  /** chunkName and memcacheKey: "user/chunk". */
  function ChunkName(user: Bytes, id: Bytes): Bytes {
    user + [SLASH] + id
  }

  /** For example "u/c". */
  lemma {:induction false} ChunkNameExample()
    ensures ChunkName([117], [99]) == [117, 47, 99]
  {
  }

  lemma {:induction false} ChunkNameInjective(u: Bytes, i: Bytes, u': Bytes, i': Bytes)
    requires SLASH !in u && SLASH !in u'
    requires ChunkName(u, i) == ChunkName(u', i')
    ensures u == u' && i == i'
  {
    SplitAtSeparator(SLASH, u, i, u', i');
  }

  /** Exactly which pairs of different user IDs can name the same S3 object. */
  lemma {:induction false} ChunkNamesCollideExactly(u: Bytes, u': Bytes)
    requires u != u'
    ensures (exists i, i' :: ChunkName(u, i) == ChunkName(u', i')) <==>
            u + [SLASH] <= u' || u' + [SLASH] <= u
  {
    if i, i' :| ChunkName(u, i) == ChunkName(u', i') {
      var s := ChunkName(u, i);
      assert s[..|u|] == u && s[..|u'|] == u';
      assert s[..|u| + 1] == u + [SLASH] && s[..|u'| + 1] == u' + [SLASH];
    }
    if u + [SLASH] <= u' {
      assert ChunkName(u, u'[|u| + 1..] + [SLASH]) == ChunkName(u', []);
    }
    if u' + [SLASH] <= u {
      assert ChunkName(u, []) == ChunkName(u', u[|u'| + 1..] + [SLASH]);
    }
  }
}
