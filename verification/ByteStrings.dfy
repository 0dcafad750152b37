/**
  Go strings as byte sequences, their order, and the order-preserving tuple encoding in
  which chunk/chunk_store.go stores its range keys.
 */
module ByteStrings {
  import opened Options

  type byte = x: int | 0 <= x < 256
  type Bytes = seq<byte>

  /** Byte-wise order: Go's < on strings and DynamoDB's order on binary keys. */
  predicate Less(a: Bytes, b: Bytes) {
    if b == [] then false
    else if a == [] then true
    else if a[0] != b[0] then a[0] < b[0]
    else Less(a[1..], b[1..])
  }

  predicate AtMost(a: Bytes, b: Bytes) {
    !Less(b, a)
  }

  lemma {:induction false} LessAsymmetric(a: Bytes, b: Bytes)
    ensures Less(a, b) ==> !Less(b, a)
    ensures a != b ==> Less(a, b) || Less(b, a)
    ensures !Less(a, a)
  {
    if a != [] {
      LessAsymmetric(a[1..], if b == [] then [] else b[1..]);
      assert a == [a[0]] + a[1..];
    }
    if b != [] {
      assert b == [b[0]] + b[1..];
    }
  }

  lemma {:induction false} LessTransitive(a: Bytes, b: Bytes, c: Bytes)
    requires Less(a, b) && Less(b, c)
    ensures Less(a, c)
  {
    if a != [] && a[0] == b[0] == c[0] {
      LessTransitive(a[1..], b[1..], c[1..]);
    }
  }

  /** The order is a strict total order, quantified for use under sorts. */
  lemma {:induction false} LessTotalOrder()
    ensures forall a, b :: Less(a, b) ==> !Less(b, a)
    ensures forall a, b :: a == b || Less(a, b) || Less(b, a)
    ensures forall a, b, c :: Less(a, b) && Less(b, c) ==> Less(a, c)
  {
    forall a, b ensures (Less(a, b) ==> !Less(b, a)) && (a == b || Less(a, b) || Less(b, a)) {
      LessAsymmetric(a, b);
    }
    forall a, b, c | Less(a, b) && Less(b, c) ensures Less(a, c) {
      LessTransitive(a, b, c);
    }
  }

  /** A common prefix does not matter for the order. */
  lemma {:induction false} LessCommonPrefix(p: Bytes, a: Bytes, b: Bytes)
    ensures Less(p + a, p + b) == Less(a, b)
  {
    if p == [] {
      assert p + a == a && p + b == b;
    } else {
      assert (p + a)[1..] == p[1..] + a && (p + b)[1..] == p[1..] + b;
      LessCommonPrefix(p[1..], a, b);
    }
  }

  // ----- lexicographic tuple encoding ---------------------------------------------

  predicate NullFree(s: Bytes) {
    0 !in s
  }

  /** A string is written followed by a terminating null. */
  function Terminated(s: Bytes): Bytes {
    s + [0]
  }

  /** rangeValue: the tuple (name, value, chunk ID), defined when no part embeds a null. */
  function RangeValue(name: Bytes, value: Bytes, id: Bytes): Bytes {
    Terminated(name) + (Terminated(value) + Terminated(id))
  }

  /** Reads up to and including the first null: the string read and what follows it. */
  function ReadString(s: Bytes): (r: Option<(Bytes, Bytes)>)
    ensures r.Some? ==> NullFree(r.value.0) && s == Terminated(r.value.0) + r.value.1
    ensures r.None? <==> NullFree(s)
  {
    if s == [] then None
    else if s[0] == 0 then assert s == Terminated([]) + s[1..]; Some(([], s[1..]))
    else
      var rest := ReadString(s[1..]);
      assert s == [s[0]] + s[1..];
      if rest.None? then None
      else
        assert s == Terminated([s[0]] + rest.value.0) + rest.value.1;
        Some(([s[0]] + rest.value.0, rest.value.1))
  }

  /** parseRangeValue. */
  function ParseRangeValue(s: Bytes): Option<(Bytes, Bytes, Bytes)> {
    var a := ReadString(s);
    if a.None? then None else
    var b := ReadString(a.value.1);
    if b.None? then None else
    var c := ReadString(b.value.1);
    if c.None? then None else Some((a.value.0, b.value.0, c.value.0))
  }

  lemma {:induction false} ReadTerminated(s: Bytes, rest: Bytes)
    requires NullFree(s)
    ensures ReadString(Terminated(s) + rest) == Some((s, rest))
  {
    var t := Terminated(s) + rest;
    if s == [] {
      assert t[1..] == rest;
    } else {
      assert t[1..] == Terminated(s[1..]) + rest;
      ReadTerminated(s[1..], rest);
      assert s == [s[0]] + s[1..];
    }
  }

  /** Decoding undoes encoding on null-free parts. */
  lemma {:induction false} ParseRoundTrip(name: Bytes, value: Bytes, id: Bytes)
    requires NullFree(name) && NullFree(value) && NullFree(id)
    ensures ParseRangeValue(RangeValue(name, value, id)) == Some((name, value, id))
  {
    ReadTerminated(name, Terminated(value) + Terminated(id));
    ReadTerminated(value, Terminated(id));
    ReadTerminated(id, []);
    assert Terminated(id) + [] == Terminated(id);
  }

  /** The first component dominates: the encoding of one component compares as a pair. */
  lemma {:induction false} TerminatedOrder(a: Bytes, x: Bytes, b: Bytes, y: Bytes)
    requires NullFree(a) && NullFree(b)
    ensures Less(Terminated(a) + x, Terminated(b) + y) <==> Less(a, b) || (a == b && Less(x, y))
  {
    var s, t := Terminated(a) + x, Terminated(b) + y;
    if a == [] || b == [] || a[0] != b[0] {
      assert a == [] ==> s[0] == 0 && s[1..] == x;
      assert b == [] ==> t[0] == 0 && t[1..] == y;
      assert a != [] ==> s[0] == a[0] && a[0] in a;
      assert b != [] ==> t[0] == b[0] && b[0] in b;
    } else {
      assert s[1..] == Terminated(a[1..]) + x && t[1..] == Terminated(b[1..]) + y;
      TerminatedOrder(a[1..], x, b[1..], y);
      assert a == [a[0]] + a[1..] && b == [b[0]] + b[1..];
    }
  }

  predicate TupleLess(a: (Bytes, Bytes, Bytes), b: (Bytes, Bytes, Bytes)) {
    Less(a.0, b.0) || (a.0 == b.0 && (Less(a.1, b.1) || (a.1 == b.1 && Less(a.2, b.2))))
  }

  /** The promise of the encoder: encoded keys sort exactly as the tuples do. */
  lemma {:induction false} RangeValueOrder(l: Bytes, v: Bytes, i: Bytes, l': Bytes, v': Bytes, i': Bytes)
    requires NullFree(l) && NullFree(v) && NullFree(i)
    requires NullFree(l') && NullFree(v') && NullFree(i')
    ensures Less(RangeValue(l, v, i), RangeValue(l', v', i')) <==> TupleLess((l, v, i), (l', v', i'))
  {
    TerminatedOrder(l, Terminated(v) + Terminated(i), l', Terminated(v') + Terminated(i'));
    TerminatedOrder(v, Terminated(i), v', Terminated(i'));
    TerminatedOrder(i, [], i', []);
    assert Terminated(i) + [] == Terminated(i) && Terminated(i') + [] == Terminated(i');
  }

  // ----- next ---------------------------------------------------------------------

  /** Go's string(b) for a byte b: the UTF-8 form of the code point b. */
  function Utf8OfByte(b: byte): Bytes {
    if b < 0x80 then [b] else [0xC0 + b / 64, 0x80 + b % 64]
  }

  /** The two-byte form carries six bits of the code point in its second byte and the others in the first. */
  lemma {:induction false} Utf8Denotes(b: byte)
    ensures b < 128 ==> Utf8OfByte(b) == [b]
    ensures b >= 128 ==> |Utf8OfByte(b)| == 2 && 192 <= Utf8OfByte(b)[0] < 224 && 128 <= Utf8OfByte(b)[1] < 192
    ensures b >= 128 ==> 64 * (Utf8OfByte(b)[0] - 192) + (Utf8OfByte(b)[1] - 128) == b
  {
  }

  /** uint8 increment, wrapping at 255. */
  function Increment(b: byte): byte {
    if b == 255 then 0 else b + 1
  }

  /** next: the last byte incremented and re-encoded; slicing "" panics. */
  function Next(s: Bytes): Bytes
    requires s != []
  {
    s[..|s| - 1] + Utf8OfByte(Increment(s[|s| - 1]))
  }

  /** next changes only the last byte, to the form of its successor. */
  lemma {:induction false} NextMeans(s: Bytes, b: byte)
    ensures b < 127 ==> Next(s + [b]) == s + [b + 1]
    ensures 127 <= b < 255 ==> Next(s + [b]) == s + Utf8OfByte(b + 1)
    ensures b == 255 ==> Next(s + [b]) == s + [0]
  {
    assert (s + [b])[..|s|] == s;
  }

  /** The last byte is small enough for next to move upwards; true of every valid UTF-8 string. */
  predicate Advances(s: Bytes) {
    s != [] && s[|s| - 1] <= 0xC3
  }

  /** next is above its input exactly when the last byte is at most 0xC3, else it is below. */
  lemma {:induction false} NextAbove(s: Bytes)
    requires s != []
    ensures Less(s, Next(s)) <==> Advances(s)
    ensures Less(Next(s), s) <==> !Advances(s)
  {
    var p, b := s[..|s| - 1], s[|s| - 1];
    assert s == p + [b];
    var u := Utf8OfByte(Increment(b));
    LessCommonPrefix(p, [b], u);
    LessCommonPrefix(p, u, [b]);
    if b == 0xC3 {
      assert u == [0xC3, 0x84];
      assert u[1..] == [0x84] && [b][1..] == [];
    } else {
      assert u[0] != b;
    }
  }

  /** next keeps a null-free string null-free exactly when the last byte is not 0xFF. */
  lemma {:induction false} NextNullFree(s: Bytes)
    requires s != [] && NullFree(s)
    ensures NullFree(Next(s)) <==> s[|s| - 1] != 0xFF
  {
    var u := Utf8OfByte(Increment(s[|s| - 1]));
    assert s[|s| - 1] == 0xFF ==> u == [0] && Next(s)[|s| - 1] == 0;
    assert s[|s| - 1] != 0xFF ==> 0 !in u;
  }
}
