/** A percent-decoder and a strict UTF-8 decoder, and that they undo the specified encoding. */
module PercentDecoding {
  import opened PercentEncoding

  // ----- decoding -----

  function HexValue(u: Unit): Option<Byte> {
    if 0x30 <= u <= 0x39 then Some((u - 0x30) as Byte)
    else if 0x41 <= u <= 0x46 then Some((u - 0x37) as Byte)
    else if 0x61 <= u <= 0x66 then Some((u - 0x57) as Byte)
    else None
  }

  // The byte that the text starts with, and how many code units spell it.
  function NextByte(t: seq<Unit>): (r: Option<(Byte, nat)>)
    requires t != []
    ensures r.Some? ==> 1 <= r.value.1 <= |t|
  {
    if t[0] == 0x25 then
      if |t| < 3 || HexValue(t[1]).None? || HexValue(t[2]).None? then None
      else Some(((HexValue(t[1]).value << 4) | HexValue(t[2]).value, 3))
    else if t[0] < 0x80 then Some((t[0] as Byte, 1))
    else None
  }

  function Unescaped(t: seq<Unit>): Option<seq<Byte>> {
    if t == [] then Some([])
    else
      var b := NextByte(t);
      if b.None? then None
      else
        var rest := Unescaped(t[b.value.1..]);
        if rest.None? then None else Some([b.value.0] + rest.value)
  }

  predicate IsContinuation(b: Byte) { b & 0xc0 == 0x80 }

  function Tail(b: Byte): Point { (b & 0x3f) as Point }

  // The code point of two, three or four bytes: no overlong forms, no surrogates, nothing past the last plane.
  function PointOfTwo(a: Byte, b: Byte): (r: Option<Point>)
    ensures r.Some? ==> IsScalar(r.value)
  {
    var p := (((a & 0x1f) as Point) << 6) | Tail(b);
    if !IsContinuation(b) || p < 0x80 then None else Some(p)
  }

  function PointOfThree(a: Byte, b: Byte, c: Byte): (r: Option<Point>)
    ensures r.Some? ==> IsScalar(r.value)
  {
    var p := (((a & 0xf) as Point) << 12) | (Tail(b) << 6) | Tail(c);
    if !IsContinuation(b) || !IsContinuation(c) || p < 0x800 || !IsScalar(p) then None else Some(p)
  }

  function Assembled(a: Point, b: Point, c: Point, d: Point): Point { (a << 18) | (b << 12) | (c << 6) | d }

  function PointOfFour(a: Byte, b: Byte, c: Byte, d: Byte): (r: Option<Point>)
    ensures r.Some? ==> IsScalar(r.value)
  {
    var p := Assembled((a & 0x7) as Point, Tail(b), Tail(c), Tail(d));
    if !IsContinuation(b) || !IsContinuation(c) || !IsContinuation(d) || p < 0x1_0000 || !IsScalar(p) then None
    else Some(p)
  }

  // How many bytes the code point takes that starts with this one; 0 when none does.
  function Length(a: Byte): nat {
    if a < 0x80 then 1
    else if a & 0xe0 == 0xc0 then 2
    else if a & 0xf0 == 0xe0 then 3
    else if a & 0xf8 == 0xf0 then 4
    else 0
  }

  // The code point that the bytes start with.
  function NextPoint(bytes: seq<Byte>): (r: Option<Point>)
    requires bytes != [] && 1 <= Length(bytes[0]) <= |bytes|
    ensures r.Some? ==> IsScalar(r.value)
  {
    if Length(bytes[0]) == 1 then Some(bytes[0] as Point)
    else if Length(bytes[0]) == 2 then PointOfTwo(bytes[0], bytes[1])
    else if Length(bytes[0]) == 3 then PointOfThree(bytes[0], bytes[1], bytes[2])
    else PointOfFour(bytes[0], bytes[1], bytes[2], bytes[3])
  }

  function FromUtf8(bytes: seq<Byte>): (r: Option<seq<Point>>)
    ensures r.Some? ==> Scalars(r.value)
  {
    if bytes == [] then Some([])
    else
      var n := Length(bytes[0]);
      if n == 0 || n > |bytes| || NextPoint(bytes).None? then None
      else
        var rest := FromUtf8(bytes[n..]);
        if rest.None? then None else Some([NextPoint(bytes).value] + rest.value)
  }

  lemma NextByteBack(b: Byte, format: Format, rest: seq<Unit>)
    ensures var t := PercentByte(b, format);
            t != [] && NextByte(t + rest) == Some((b, |t|)) && (t + rest)[|t|..] == rest
  {
    var t := PercentByte(b, format);
    if !Unreserved(b, format) {
      assert (t + rest)[0] == 0x25 && (t + rest)[1] == Digit(b >> 4) && (t + rest)[2] == Digit(b & 0xf);
      DigitBack(b >> 4);
      DigitBack(b & 0xf);
      assert ((b >> 4) << 4) | (b & 0xf) == b;
    }
  }

  lemma DigitBack(n: Byte)
    requires n < 16
    ensures HexValue(Digit(n)) == Some(n)
  {}

  /** Percent-decoding restores the bytes. */
  lemma {:induction false} UnescapedBack(bytes: seq<Byte>, format: Format)
    ensures Unescaped(PercentBytes(bytes, format)) == Some(bytes)
    decreases |bytes|
  {
    hide PercentByte, NextByte;
    if bytes != [] {
      var rest := PercentBytes(bytes[1..], format);
      NextByteBack(bytes[0], format, rest);
      UnescapedBack(bytes[1..], format);
      assert bytes == [bytes[0]] + bytes[1..];
    }
  }

  // The bits of a code point, put together again.
  lemma OneBack(p: Point)
    requires p < 0x80
    ensures Length(p as Byte) == 1 && (p as Byte) as Point == p
  {}

  lemma TwoBack(p: Point)
    requires 0x80 <= p < 0x800
    ensures var a := 0xc0 | ((p >> 6) as Byte); Length(a) == 2 && PointOfTwo(a, Bits0(p)) == Some(p)
  {}

  lemma ThreeBack(p: Point)
    requires 0x800 <= p < 0x1_0000 && IsScalar(p)
    ensures var a := 0xe0 | ((p >> 12) as Byte); Length(a) == 3 && PointOfThree(a, Bits6(p), Bits0(p)) == Some(p)
  {}

  lemma TailBits(p: Point)
    ensures IsContinuation(Bits0(p)) && Tail(Bits0(p)) == p & 0x3f
    ensures IsContinuation(Bits6(p)) && Tail(Bits6(p)) == (p >> 6) & 0x3f
    ensures IsContinuation(Bits12(p)) && Tail(Bits12(p)) == (p >> 12) & 0x3f
  {}

  lemma LeadBits(p: Point)
    requires 0x1_0000 <= p < 0x11_0000
    ensures Length(Bits18(p)) == 4 && (Bits18(p) & 0x7) as Point == p >> 18
  {}

  lemma AllBits(p: Point)
    requires p < 0x11_0000
    ensures Assembled(p >> 18, (p >> 12) & 0x3f, (p >> 6) & 0x3f, p & 0x3f) == p
  {}

  lemma FourBack(p: Point)
    requires 0x1_0000 <= p < 0x11_0000
    ensures Length(Bits18(p)) == 4 && PointOfFour(Bits18(p), Bits12(p), Bits6(p), Bits0(p)) == Some(p)
  {
    hide Bits0, Bits6, Bits12, Bits18, Length, Tail, IsContinuation, Assembled;
    TailBits(p);
    LeadBits(p);
    AllBits(p);
  }

  lemma NextPointBack(p: Point, rest: seq<Byte>)
    requires IsScalar(p)
    ensures var bytes := Utf8(p) + rest;
            Length(bytes[0]) == |Utf8(p)| && NextPoint(bytes) == Some(p) && bytes[|Utf8(p)|..] == rest
  {
    hide Bits0, Bits6, Bits12, Length, PointOfTwo, PointOfThree, PointOfFour;
    var bytes := Utf8(p) + rest;
    assert bytes[0] == Utf8(p)[0];
    if p < 0x80 {
      OneBack(p);
    } else if p < 0x800 {
      TwoBack(p);
      assert bytes[1] == Utf8(p)[1];
    } else if p < 0x1_0000 {
      ThreeBack(p);
      assert bytes[1] == Utf8(p)[1] && bytes[2] == Utf8(p)[2];
    } else {
      FourBack(p);
      assert bytes[1] == Utf8(p)[1] && bytes[2] == Utf8(p)[2] && bytes[3] == Utf8(p)[3];
    }
  }

  /** A strict UTF-8 decoder restores the code points. */
  lemma {:induction false} FromUtf8Back(points: seq<Point>)
    requires Scalars(points)
    ensures FromUtf8(Utf8All(points)) == Some(points)
    decreases |points|
  {
    hide Utf8, NextPoint, Length;
    if points != [] {
      NextPointBack(points[0], Utf8All(points[1..]));
      FromUtf8Back(points[1..]);
      assert points == [points[0]] + points[1..];
    }
  }
}
