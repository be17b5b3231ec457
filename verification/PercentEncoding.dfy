/**
 Percent-encoding of query strings: a segmented loop over UTF-16 code units against the percent-encoding (section 2.1
 of RFC 3986) of UTF-8 (section 3 of RFC 3629).

 A JavaScript string is its code units. The input's UTF-8 form is stated from its code points: `Units` spells them in
 UTF-16 and `Percent` in percent-encoded UTF-8.
 */
module PercentEncoding {
  type Unit = bv16

  type Point = bv32

  type Byte = bv8

  datatype Option<T> = None | Some(value: T)

  const LIMIT: nat := 1024

  datatype Format = RFC1738 | RFC3986

  // ----- code points -----

  predicate IsScalar(p: Point) { p < 0xd800 || 0xe000 <= p < 0x11_0000 }

  predicate IsHigh(u: Unit) { 0xd800 <= u < 0xdc00 }

  predicate IsSurrogate(u: Unit) { 0xd800 <= u < 0xe000 }

  predicate Scalars(points: seq<Point>) {
    forall i | 0 <= i < |points| :: IsScalar(points[i])
  }

  function UnitsOf(p: Point): (r: seq<Unit>)
    requires IsScalar(p)
    ensures 1 <= |r| <= 2
  {
    if p < 0x1_0000 then [p as Unit] else [HighHalf(p), LowHalf(p)]
  }

  function HighHalf(p: Point): Unit
    requires 0x1_0000 <= p < 0x11_0000
  {
    0xd800 | (((p - 0x1_0000) >> 10) as Unit)
  }

  function LowHalf(p: Point): Unit
    requires 0x1_0000 <= p < 0x11_0000
  {
    0xdc00 | (((p - 0x1_0000) & 0x3ff) as Unit)
  }

  function Units(points: seq<Point>): seq<Unit>
    requires Scalars(points)
  {
    if points == [] then [] else UnitsOf(points[0]) + Units(points[1..])
  }

  // ----- the specification: percent-encoded UTF-8 -----

  // Continuation bytes: `10` and six bits of the code point.
  function Bits0(p: Point): Byte { 0x80 | ((p & 0x3f) as Byte) }

  function Bits6(p: Point): Byte { 0x80 | (((p >> 6) & 0x3f) as Byte) }

  function Bits12(p: Point): Byte { 0x80 | (((p >> 12) & 0x3f) as Byte) }

  function Utf8(p: Point): (r: seq<Byte>)
    requires IsScalar(p)
    ensures 1 <= |r| <= 4
  {
    if p < 0x80 then [p as Byte]
    else if p < 0x800 then [0xc0 | ((p >> 6) as Byte), Bits0(p)]
    else if p < 0x1_0000 then [0xe0 | ((p >> 12) as Byte), Bits6(p), Bits0(p)]
    else [0xf0 | ((p >> 18) as Byte), Bits12(p), Bits6(p), Bits0(p)]
  }

  // Section 2.3 of RFC 3986; the older format also leaves parentheses alone.
  predicate Unreserved(b: Byte, format: Format) {
    || b == 0x2d || b == 0x2e || b == 0x5f || b == 0x7e
    || 0x30 <= b <= 0x39 || 0x41 <= b <= 0x5a || 0x61 <= b <= 0x7a
    || (format == RFC1738 && (b == 0x28 || b == 0x29))
  }

  function Digit(n: Byte): Unit
    requires n < 16
  {
    if n < 10 then 0x30 + (n as Unit) else 0x37 + (n as Unit)
  }

  function Escaped(b: Byte): seq<Unit> { [0x25, Digit(b >> 4), Digit(b & 0xf)] }

  const HEX_DIGITS := "0123456789ABCDEF"

  /** A byte is escaped as section 2.1 of RFC 3986 recommends, with upper-case digits, the high half first. */
  lemma EscapedInUpperCase(b: Byte)
    ensures |Escaped(b)| == 3 && Escaped(b)[0] as int == '%' as int
    ensures Escaped(b)[1] as int == HEX_DIGITS[b as int / 16] as int
    ensures Escaped(b)[2] as int == HEX_DIGITS[b as int % 16] as int
  {
    Halves(b);
    UpperDigit(b >> 4);
    UpperDigit(b & 0xf);
  }

  lemma Halves(b: Byte)
    ensures (b >> 4) as int == b as int / 16 && (b & 0xf) as int == b as int % 16 && b >> 4 < 16 && b & 0xf < 16
  {
    assert b >> 4 == b / 16 && b & 0xf == b % 16;
  }

  lemma UpperDigit(n: Byte)
    requires n < 16
    ensures Digit(n) as int == HEX_DIGITS[n as int] as int
  {}

  function PercentByte(b: Byte, format: Format): seq<Unit> {
    if Unreserved(b, format) then [b as Unit] else Escaped(b)
  }

  function PercentBytes(bytes: seq<Byte>, format: Format): seq<Unit> {
    if bytes == [] then [] else PercentByte(bytes[0], format) + PercentBytes(bytes[1..], format)
  }

  function PercentOf(p: Point, format: Format): seq<Unit>
    requires IsScalar(p)
  {
    PercentBytes(Utf8(p), format)
  }

  function Utf8All(points: seq<Point>): seq<Byte>
    requires Scalars(points)
  {
    if points == [] then [] else Utf8(points[0]) + Utf8All(points[1..])
  }

  function Percent(points: seq<Point>, format: Format): seq<Unit>
    requires Scalars(points)
  {
    PercentBytes(Utf8All(points), format)
  }

  // ----- the encoder -----

  function HexTable(n: Point): seq<Unit>
    requires n < 256
  {
    Escaped(n as Byte)
  }

  predicate Plain(c: Unit, format: Format) {
    || c == 0x2d || c == 0x2e || c == 0x5f || c == 0x7e
    || 0x30 <= c <= 0x39 || 0x41 <= c <= 0x5a || 0x61 <= c <= 0x7a
    || (format == RFC1738 && (c == 0x28 || c == 0x29))
  }

  // The code point that a surrogate makes with what follows it; past the end of the segment counts as 0.
  function Joined(c: Unit, next: Unit): Point {
    0x1_0000 + ((((c as Point) & 0x3ff) << 10) | ((next as Point) & 0x3ff))
  }

  function FourEscapes(q: Point): seq<Unit>
    requires 0x1_0000 <= q < 0x11_0000
  {
    HexTable(0xf0 | (q >> 18)) + HexTable(0x80 | ((q >> 12) & 0x3f)) + HexTable(0x80 | ((q >> 6) & 0x3f))
    + HexTable(0x80 | (q & 0x3f))
  }

  // What one step of the loop appends.
  function Piece(c: Unit, next: Unit, format: Format): seq<Unit> {
    var p := c as Point;
    if Plain(c, format) then [c]
    else if c < 0x80 then HexTable(p)
    else if c < 0x800 then HexTable(0xc0 | (p >> 6)) + HexTable(0x80 | (p & 0x3f))
    else if !IsSurrogate(c) then
      HexTable(0xe0 | (p >> 12)) + HexTable(0x80 | ((p >> 6) & 0x3f)) + HexTable(0x80 | (p & 0x3f))
    else FourEscapes(Joined(c, next))
  }

  function Next(segment: seq<Unit>, i: nat): Unit { if i + 1 < |segment| then segment[i + 1] else 0 }

  // How many code units one step of the loop takes.
  function Taken(segment: seq<Unit>, i: nat): (n: nat)
    requires i < |segment|
    ensures 1 <= n <= 2 && i + n <= |segment|
  {
    if IsSurrogate(segment[i]) && i + 1 < |segment| then 2 else 1
  }

  function SegmentFrom(segment: seq<Unit>, i: nat, format: Format): seq<Unit>
    requires i <= |segment|
    decreases |segment| - i
  {
    if i == |segment| then []
    else Piece(segment[i], Next(segment, i), format) + SegmentFrom(segment, i + Taken(segment, i), format)
  }

  // How far the first segment goes.
  function Cut(s: seq<Unit>): (n: nat)
    ensures n <= |s| && (s != [] ==> n > 0)
  {
    if |s| < LIMIT then |s| else LIMIT
  }

  function Encoded(s: seq<Unit>, format: Format): seq<Unit> {
    if s == [] then [] else SegmentFrom(s[..Cut(s)], 0, format) + Encoded(s[Cut(s)..], format)
  }

  method EncodeSegment(segment: seq<Unit>, format: Format) returns (out: seq<Unit>)
    ensures out == SegmentFrom(segment, 0, format)
  {
    hide Piece;
    out := [];
    var i := 0;
    while i < |segment|
      invariant i <= |segment| && SegmentFrom(segment, 0, format) == out + SegmentFrom(segment, i, format)
    {
      var piece := Piece(segment[i], Next(segment, i), format);
      ghost var n := i + Taken(segment, i);
      assert out + (piece + SegmentFrom(segment, n, format)) == (out + piece) + SegmentFrom(segment, n, format);
      out := out + piece;
      if IsSurrogate(segment[i]) && i + 1 < |segment| { i := i + 1; }
      i := i + 1;
    }
  }

  function SegmentAt(s: seq<Unit>, j: nat): seq<Unit>
    requires j < |s|
  {
    if |s| >= LIMIT then (if j + LIMIT <= |s| then s[j..j + LIMIT] else s[j..]) else s[j..]
  }

  function RestAt(s: seq<Unit>, j: nat): seq<Unit> { if j < |s| then s[j..] else [] }

  lemma EncodedStep(s: seq<Unit>, j: nat, format: Format)
    requires j < |s|
    ensures Encoded(RestAt(s, j), format)
         == SegmentFrom(SegmentAt(s, j), 0, format) + Encoded(RestAt(s, j + LIMIT), format)
  {
    hide SegmentFrom;
    var rest := RestAt(s, j);
    assert rest[..Cut(rest)] == SegmentAt(s, j) && rest[Cut(rest)..] == RestAt(s, j + LIMIT);
  }

  method Encode(s: seq<Unit>, format: Format) returns (out: seq<Unit>)
    ensures out == Encoded(s, format)
  {
    hide SegmentFrom, Encoded;
    out := [];
    var j := 0;
    assert RestAt(s, 0) == s;
    while j < |s|
      invariant (|s| < LIMIT && j < |s| ==> j == 0) && Encoded(s, format) == out + Encoded(RestAt(s, j), format)
    {
      EncodedStep(s, j, format);
      var segment := if |s| >= LIMIT then (if j + LIMIT <= |s| then s[j..j + LIMIT] else s[j..]) else s;
      assert segment == SegmentAt(s, j);
      var piece := EncodeSegment(segment, format);
      Joins(out, piece, Encoded(RestAt(s, j + LIMIT), format));
      out := out + piece;
      j := j + LIMIT;
    }
    EncodedNothing(format);
  }

  lemma Joins(a: seq<Unit>, b: seq<Unit>, c: seq<Unit>)
    ensures a + (b + c) == (a + b) + c
  {}

  lemma EncodedNothing(format: Format)
    ensures Encoded([], format) == []
  {}

  // ----- what the encoder emits, as code points -----

  function Emitted(c: Unit, next: Unit): (p: Point)
    ensures IsScalar(p)
  {
    if IsSurrogate(c) then Joined(c, next) else c as Point
  }

  lemma PercentStep(b: Byte, rest: seq<Byte>, format: Format)
    ensures PercentBytes([b] + rest, format) == PercentByte(b, format) + PercentBytes(rest, format)
  {
    hide PercentByte;
    assert ([b] + rest)[1..] == rest;
  }

  lemma PercentTwo(a: Byte, b: Byte, format: Format)
    ensures PercentBytes([b], format) == PercentByte(b, format)
    ensures PercentBytes([a, b], format) == PercentByte(a, format) + PercentByte(b, format)
  {
    hide PercentByte, PercentBytes;
    PercentStep(b, [], format);
    PercentStep(a, [b], format);
    PercentNone(format);
    assert [b] + [] == [b] && [a] + [b] == [a, b];
    assert PercentByte(b, format) + [] == PercentByte(b, format);
  }

  lemma PercentNone(format: Format)
    ensures PercentBytes([], format) == []
  {}

  lemma PercentFour(a: Byte, b: Byte, c: Byte, d: Byte, format: Format)
    ensures PercentBytes([b, c, d], format) == PercentByte(b, format) + PercentByte(c, format) + PercentByte(d, format)
    ensures PercentBytes([a, b, c, d], format)
         == PercentByte(a, format) + PercentByte(b, format) + PercentByte(c, format) + PercentByte(d, format)
  {
    hide PercentByte, PercentBytes;
    PercentTwo(c, d, format);
    PercentStep(b, [c, d], format);
    PercentStep(a, [b, c, d], format);
    assert [b] + [c, d] == [b, c, d] && [a] + [b, c, d] == [a, b, c, d];
    Regroup(PercentByte(a, format), PercentByte(b, format), PercentByte(c, format), PercentByte(d, format));
  }

  lemma Regroup(a: seq<Unit>, b: seq<Unit>, c: seq<Unit>, d: seq<Unit>)
    ensures b + (c + d) == b + c + d
    ensures a + (b + c + d) == a + b + c + d
  {}

  // One step of the loop appends the percent-encoded UTF-8 of the code point it emits.
  lemma PieceIsPercent(c: Unit, next: Unit, format: Format)
    ensures Piece(c, next, format) == PercentOf(Emitted(c, next), format)
  {
    hide PercentBytes, PercentByte, Escaped, Utf8, Unreserved;
    var p := Emitted(c, next);
    if p < 0x80 {
      PieceOne(c, format);
    } else if p < 0x800 {
      PieceTwo(c, format);
    } else if p < 0x1_0000 {
      PieceThree(c, format);
    } else {
      PieceFour(c, next, format);
    }
  }

  // A byte above 127 is always escaped.
  lemma HighByte(b: Byte, format: Format)
    requires b >= 0x80
    ensures PercentByte(b, format) == Escaped(b)
  {
    hide Escaped;
  }

  lemma PieceOne(c: Unit, format: Format)
    requires c < 0x80
    ensures Piece(c, 0, format) == PercentOf(c as Point, format)
  {
    hide PercentBytes, Escaped;
    PercentTwo(0, c as Byte, format);
  }

  lemma Continuations(p: Point)
    ensures 0x80 | (p & 0x3f) < 0x100 && HexTable(0x80 | (p & 0x3f)) == Escaped(Bits0(p)) && Bits0(p) >= 0x80
    ensures 0x80 | ((p >> 6) & 0x3f) < 0x100
    ensures HexTable(0x80 | ((p >> 6) & 0x3f)) == Escaped(Bits6(p)) && Bits6(p) >= 0x80
    ensures 0x80 | ((p >> 12) & 0x3f) < 0x100
    ensures HexTable(0x80 | ((p >> 12) & 0x3f)) == Escaped(Bits12(p)) && Bits12(p) >= 0x80
  {
    hide Escaped;
  }

  lemma PieceTwo(c: Unit, format: Format)
    requires 0x80 <= c < 0x800
    ensures Piece(c, 0, format) == PercentOf(c as Point, format)
  {
    hide PercentBytes, PercentByte, Escaped, Bits0;
    var p := c as Point;
    var a := 0xc0 | ((p >> 6) as Byte);
    Continuations(p);
    PercentTwo(a, Bits0(p), format);
    HighByte(a, format);
    HighByte(Bits0(p), format);
  }

  lemma PieceThree(c: Unit, format: Format)
    requires 0x800 <= c && !IsSurrogate(c)
    ensures Piece(c, 0, format) == PercentOf(c as Point, format)
  {
    hide PercentBytes, PercentByte, Escaped, Bits0, Bits6;
    var p := c as Point;
    var a := 0xe0 | ((p >> 12) as Byte);
    Continuations(p);
    PercentFour(0, a, Bits6(p), Bits0(p), format);
    HighByte(a, format);
    HighByte(Bits6(p), format);
    HighByte(Bits0(p), format);
  }

  lemma JoinedRange(c: Unit, next: Unit)
    ensures 0x1_0000 <= Joined(c, next) < 0x11_0000
  {}

  lemma LeadOfFour(q: Point)
    requires 0x1_0000 <= q < 0x11_0000
    ensures q >> 18 < 0x10 && 0xf0 | (q >> 18) < 0x100
    ensures HexTable(0xf0 | (q >> 18)) == Escaped(0xf0 | ((q >> 18) as Byte)) && 0xf0 | ((q >> 18) as Byte) >= 0x80
  {
    hide Escaped;
  }

  // The byte that starts a code point beyond the first plane.
  function Bits18(q: Point): Byte
    requires 0x1_0000 <= q < 0x11_0000
  {
    0xf0 | ((q >> 18) as Byte)
  }

  lemma Utf8Four(q: Point)
    requires 0x1_0000 <= q < 0x11_0000
    ensures Utf8(q) == [Bits18(q), Bits12(q), Bits6(q), Bits0(q)]
  {
    hide Bits0, Bits6, Bits12;
  }

  lemma EscapesOfFour(q: Point)
    requires 0x1_0000 <= q < 0x11_0000
    ensures FourEscapes(q) == Escaped(Bits18(q)) + Escaped(Bits12(q)) + Escaped(Bits6(q)) + Escaped(Bits0(q))
  {
    hide Bits0, Bits6, Bits12, HexTable, Escaped;
    Continuations(q);
    LeadOfFour(q);
  }

  lemma PieceFour(c: Unit, next: Unit, format: Format)
    requires IsSurrogate(c)
    ensures Piece(c, next, format) == PercentOf(Joined(c, next), format)
  {
    hide PercentBytes, PercentByte, Escaped, Joined, Bits0, Bits6, Bits12, FourEscapes, Utf8, Bits18;
    var q := Joined(c, next);
    JoinedRange(c, next);
    EscapesOfFour(q);
    Utf8Four(q);
    PercentFour(Bits18(q), Bits12(q), Bits6(q), Bits0(q), format);
    HighBytes(q, format);
  }

  lemma HighBytes(q: Point, format: Format)
    requires 0x1_0000 <= q < 0x11_0000
    ensures PercentByte(Bits18(q), format) == Escaped(Bits18(q)) && PercentByte(Bits12(q), format) == Escaped(Bits12(q))
    ensures PercentByte(Bits6(q), format) == Escaped(Bits6(q)) && PercentByte(Bits0(q), format) == Escaped(Bits0(q))
  {
    hide PercentByte, Escaped;
    HighByte(Bits18(q), format);
    HighByte(Bits12(q), format);
    HighByte(Bits6(q), format);
    HighByte(Bits0(q), format);
  }
}
