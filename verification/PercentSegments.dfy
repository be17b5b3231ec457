/** When the segmented encoder is right: exactly when no surrogate pair straddles a segment boundary. */
module PercentSegments {
  import opened PercentEncoding
  import opened PercentDecoding

  // ----- segments -----

  // The code points that the loop emits from a segment, and from all segments.
  function EmittedFrom(segment: seq<Unit>, i: nat): (r: seq<Point>)
    requires i <= |segment|
    ensures Scalars(r)
    decreases |segment| - i
  {
    if i == |segment| then []
    else [Emitted(segment[i], Next(segment, i))] + EmittedFrom(segment, i + Taken(segment, i))
  }

  function EmittedAll(s: seq<Unit>): (r: seq<Point>)
    ensures Scalars(r)
  {
    if s == [] then [] else EmittedFrom(s[..Cut(s)], 0) + EmittedAll(s[Cut(s)..])
  }

  lemma {:induction false} PercentConcat(a: seq<Byte>, b: seq<Byte>, format: Format)
    ensures PercentBytes(a + b, format) == PercentBytes(a, format) + PercentBytes(b, format)
    decreases |a|
  {
    hide PercentByte;
    if a == [] {
      assert a + b == b;
    } else {
      PercentConcat(a[1..], b, format);
      assert (a + b)[1..] == a[1..] + b;
    }
  }

  lemma {:induction false} Utf8Concat(a: seq<Point>, b: seq<Point>)
    requires Scalars(a) && Scalars(b)
    ensures Scalars(a + b) && Utf8All(a + b) == Utf8All(a) + Utf8All(b)
    decreases |a|
  {
    hide Utf8;
    if a == [] {
      assert a + b == b;
    } else {
      Utf8Concat(a[1..], b);
      assert (a + b)[1..] == a[1..] + b;
    }
  }

  lemma Utf8One(p: Point)
    requires IsScalar(p)
    ensures Utf8All([p]) == Utf8(p)
  {
    hide Utf8;
    assert Utf8All([p][1..]) == [];
  }

  lemma {:induction false} SegmentIsPercent(segment: seq<Unit>, i: nat, format: Format)
    requires i <= |segment|
    ensures SegmentFrom(segment, i, format) == Percent(EmittedFrom(segment, i), format)
    decreases |segment| - i
  {
    hide Piece, Emitted, Utf8, Utf8All, PercentBytes, Next;
    if i < |segment| {
      var p := Emitted(segment[i], Next(segment, i));
      var rest := EmittedFrom(segment, i + Taken(segment, i));
      SegmentIsPercent(segment, i + Taken(segment, i), format);
      PieceIsPercent(segment[i], Next(segment, i), format);
      Utf8One(p);
      Utf8Concat([p], rest);
      PercentConcat(Utf8(p), Utf8All(rest), format);
    } else {
      NothingIsNothing(format);
    }
  }

  lemma NothingIsNothing(format: Format)
    ensures Percent([], format) == []
  {}

  /** The output is always the percent-encoded UTF-8 of the code points that the loop emits. */
  lemma {:induction false} EncodedIsPercent(s: seq<Unit>, format: Format)
    ensures Encoded(s, format) == Percent(EmittedAll(s), format)
    decreases |s|
  {
    hide SegmentFrom, EmittedFrom, Utf8All, PercentBytes;
    if s != [] {
      var first, rest := EmittedFrom(s[..Cut(s)], 0), EmittedAll(s[Cut(s)..]);
      SegmentIsPercent(s[..Cut(s)], 0, format);
      EncodedIsPercent(s[Cut(s)..], format);
      Utf8Concat(first, rest);
      PercentConcat(Utf8All(first), Utf8All(rest), format);
    } else {
      NothingIsNothing(format);
    }
  }

  // How often a segment ends in a surrogate that has nothing left to join.
  function DanglingFrom(segment: seq<Unit>, i: nat): nat
    requires i <= |segment|
    decreases |segment| - i
  {
    if i == |segment| then 0
    else
      (if IsSurrogate(segment[i]) && i + 1 == |segment| then 1 else 0) + DanglingFrom(segment, i + Taken(segment, i))
  }

  function DanglingAll(s: seq<Unit>): nat {
    if s == [] then 0 else DanglingFrom(s[..Cut(s)], 0) + DanglingAll(s[Cut(s)..])
  }

  lemma {:induction false} UnitsConcat(a: seq<Point>, b: seq<Point>)
    requires Scalars(a) && Scalars(b)
    ensures Scalars(a + b) && Units(a + b) == Units(a) + Units(b)
    decreases |a|
  {
    hide UnitsOf;
    if a == [] {
      assert a + b == b;
    } else {
      UnitsConcat(a[1..], b);
      assert (a + b)[1..] == a[1..] + b;
    }
  }

  lemma EmittedLength(c: Unit, next: Unit)
    ensures |UnitsOf(Emitted(c, next))| == if IsSurrogate(c) then 2 else 1
  {
    JoinedRange(c, next);
  }

  lemma {:induction false} UnitsEmitted(segment: seq<Unit>, i: nat)
    requires i <= |segment|
    ensures |Units(EmittedFrom(segment, i))| == |segment| - i + DanglingFrom(segment, i)
    decreases |segment| - i
  {
    hide Emitted, UnitsOf, Next;
    if i < |segment| {
      EmittedLength(segment[i], Next(segment, i));
      UnitsEmitted(segment, i + Taken(segment, i));
      var r := EmittedFrom(segment, i);
      assert r[1..] == EmittedFrom(segment, i + Taken(segment, i));
    }
  }

  // Every dangling surrogate makes the emitted text longer than the input.
  lemma {:induction false} UnitsEmittedAll(s: seq<Unit>)
    ensures |Units(EmittedAll(s))| == |s| + DanglingAll(s)
    decreases |s|
  {
    hide EmittedFrom, DanglingFrom, Units;
    if s != [] {
      UnitsEmitted(s[..Cut(s)], 0);
      UnitsEmittedAll(s[Cut(s)..]);
      UnitsConcat(EmittedFrom(s[..Cut(s)], 0), EmittedAll(s[Cut(s)..]));
    } else {
      NoUnits();
    }
  }

  lemma NoUnits()
    ensures Units([]) == []
  {}

  // ----- well-formed text -----

  lemma HighBits(v: Point)
    requires v < 0x10_0000
    ensures 0xd800 <= 0xd800 | ((v >> 10) as Unit) < 0xdc00
    ensures ((0xd800 | ((v >> 10) as Unit)) as Point) & 0x3ff == v >> 10
  {}

  lemma LowBits(v: Point)
    requires v < 0x10_0000
    ensures 0xdc00 <= 0xdc00 | ((v & 0x3ff) as Unit)
    ensures ((0xdc00 | ((v & 0x3ff) as Unit)) as Point) & 0x3ff == v & 0x3ff
  {}

  lemma HalvesOf(p: Point)
    requires 0x1_0000 <= p < 0x11_0000
    ensures IsHigh(HighHalf(p)) && IsSurrogate(HighHalf(p)) && !IsHigh(LowHalf(p))
    ensures (HighHalf(p) as Point) & 0x3ff == (p - 0x1_0000) >> 10
    ensures (LowHalf(p) as Point) & 0x3ff == (p - 0x1_0000) & 0x3ff
  {
    HighBits(p - 0x1_0000);
    LowBits(p - 0x1_0000);
  }

  lemma HalvesJoin(v: Point)
    requires v < 0x10_0000
    ensures ((v >> 10) << 10) | (v & 0x3ff) == v
  {}

  lemma PairBack(p: Point)
    requires 0x1_0000 <= p < 0x11_0000
    ensures Joined(HighHalf(p), LowHalf(p)) == p
  {
    hide HighHalf, LowHalf;
    HalvesOf(p);
    HalvesJoin(p - 0x1_0000);
  }

  lemma PointBack(p: Point, next: Unit)
    requires IsScalar(p)
    ensures var u := UnitsOf(p);
            && (IsSurrogate(u[0]) <==> |u| == 2) && (IsHigh(u[0]) <==> |u| == 2)
            && (|u| == 2 ==> !IsHigh(u[1]))
            && Emitted(u[0], if |u| == 2 then u[1] else next) == p
  {
    if p < 0x1_0000 {
      PlaneZero(p, next);
    } else {
      hide HighHalf, LowHalf, Joined, IsHigh, IsSurrogate;
      HalvesOf(p);
      PairBack(p);
    }
  }

  lemma Narrowed(p: Point)
    requires p < 0xd800 || 0xe000 <= p < 0x1_0000
    ensures !(0xd800 <= (p as Unit) < 0xe000) && (p as Unit) as Point == p
  {}

  lemma PlaneZero(p: Point, next: Unit)
    requires IsScalar(p) && p < 0x1_0000
    ensures !IsSurrogate(p as Unit) && !IsHigh(p as Unit) && Emitted(p as Unit, next) == p
  {
    hide Joined;
    Narrowed(p);
  }

  lemma UnitsHead(points: seq<Point>)
    requires Scalars(points) && points != []
    ensures Scalars(points[1..]) && Units(points) == UnitsOf(points[0]) + Units(points[1..])
  {}

  // From where a code point starts, the loop emits the code points.
  lemma {:induction false} EmitsPoints(segment: seq<Unit>, i: nat, points: seq<Point>)
    requires i <= |segment| && Scalars(points) && segment[i..] == Units(points)
    ensures EmittedFrom(segment, i) == points && DanglingFrom(segment, i) == 0
    decreases |points|
  {
    hide Emitted, UnitsOf, IsSurrogate, IsHigh;
    if points != [] {
      var u := UnitsOf(points[0]);
      PointBack(points[0], Next(segment, i));
      assert segment[i..] == u + Units(points[1..]);
      assert segment[i] == segment[i..][0] == u[0];
      if |u| == 2 { assert segment[i + 1] == segment[i..][1] == u[1]; }
      assert segment[i + |u|..] == segment[i..][|u|..] == Units(points[1..]);
      EmitsPoints(segment, i + |u|, points[1..]);
      assert points == [points[0]] + points[1..];
    }
  }

  // Text that does not stop after a high surrogate stops between code points.
  lemma {:induction false} Divide(points: seq<Point>, n: nat) returns (m: nat)
    requires Scalars(points) && n <= |Units(points)| && (n > 0 ==> !IsHigh(Units(points)[n - 1]))
    ensures m <= |points| && Units(points[..m]) == Units(points)[..n] && Units(points[m..]) == Units(points)[n..]
    decreases |points|
  {
    hide UnitsOf, IsSurrogate, IsHigh, Emitted, Units;
    NoUnits();
    if n == 0 {
      m := 0;
      assert points[..0] == [] && points[0..] == points;
    } else {
      assert points != [];
      var u := UnitsOf(points[0]);
      var rest := points[1..];
      UnitsHead(points);
      PointBack(points[0], 0);
      assert n >= |u|;
      assert n > |u| ==> Units(points)[n - 1] == Units(rest)[n - |u| - 1];
      var k := Divide(rest, n - |u|);
      m := k + 1;
      UnitsHead(points[..m]);
      assert points[..m][1..] == rest[..k] && points[m..] == rest[k..] && points[..m][0] == points[0];
      assert Units(points)[..n] == u + Units(rest)[..n - |u|];
      assert Units(points)[n..] == Units(rest)[n - |u|..];
    }
  }

  // Text that stops after a high surrogate leaves it dangling.
  lemma {:induction false} CutsPair(segment: seq<Unit>, i: nat, points: seq<Point>, n: nat)
    requires Scalars(points) && 0 < n <= |Units(points)| && IsHigh(Units(points)[n - 1])
    requires i <= |segment| && segment[i..] == Units(points)[..n]
    ensures DanglingFrom(segment, i) > 0
    decreases |points|
  {
    hide UnitsOf, Emitted;
    var u := UnitsOf(points[0]);
    var rest := points[1..];
    PointBack(points[0], 0);
    assert Units(points) == u + Units(rest);
    assert segment[i] == segment[i..][0] == u[0];
    if n > |u| {
      assert Units(points)[n - 1] == Units(rest)[n - |u| - 1];
      assert segment[i + |u|..] == segment[i..][|u|..] == Units(rest)[..n - |u|];
      CutsPair(segment, i + |u|, rest, n - |u|);
    }
  }

  // Some segment, other than the last, ends in the first half of a surrogate pair.
  predicate Straddles(s: seq<Unit>) {
    exists k :: 1 <= k < |s| && k * LIMIT < |s| && IsHigh(s[k * LIMIT - 1])
  }

  lemma {:induction false} WholeEmits(points: seq<Point>)
    requires Scalars(points) && !Straddles(Units(points))
    ensures EmittedAll(Units(points)) == points
    decreases |Units(points)|
  {
    hide EmittedFrom, IsHigh, Units;
    NoUnits();
    var s := Units(points);
    if s == [] {
      NoPoints(points);
    } else {
      var n := Cut(s);
      if n == |s| {
        assert s[..n] == s && s[n..] == [] && s[0..] == s;
        EmitsPoints(s, 0, points);
      } else {
        assert !IsHigh(s[1 * LIMIT - 1]);
        var m := Divide(points, n);
        assert s[..n][0..] == s[..n];
        EmitsPoints(s[..n], 0, points[..m]);
        StraddlesLater(s);
        WholeEmits(points[m..]);
        assert points[..m] + points[m..] == points;
      }
    }
  }

  lemma NoPoints(points: seq<Point>)
    requires Scalars(points) && Units(points) == []
    ensures points == []
  {
    hide UnitsOf;
  }

  // A boundary after the first is a boundary of what follows the first segment.
  lemma StraddlesLater(s: seq<Unit>)
    requires |s| > LIMIT && !IsHigh(s[LIMIT - 1])
    ensures Straddles(s[LIMIT..]) <==> Straddles(s)
  {
    hide IsHigh;
    var rest := s[LIMIT..];
    if Straddles(rest) {
      var k :| 1 <= k < |rest| && k * LIMIT < |rest| && IsHigh(rest[k * LIMIT - 1]);
      assert IsHigh(s[(k + 1) * LIMIT - 1]);
    }
    if Straddles(s) {
      var k :| 1 <= k < |s| && k * LIMIT < |s| && IsHigh(s[k * LIMIT - 1]);
      assert k > 1;
      assert IsHigh(rest[(k - 1) * LIMIT - 1]);
    }
  }

  lemma {:induction false} StraddlingDangles(points: seq<Point>)
    requires Scalars(points) && Straddles(Units(points))
    ensures DanglingAll(Units(points)) > 0
    decreases |Units(points)|
  {
    hide DanglingFrom, IsHigh, Units;
    var s := Units(points);
    var first := s[..LIMIT];
    if IsHigh(s[LIMIT - 1]) {
      assert first[0..] == first;
      CutsPair(first, 0, points, LIMIT);
    } else {
      var m := Divide(points, LIMIT);
      StraddlesLater(s);
      StraddlingDangles(points[m..]);
    }
  }

  /**
   A well-formed string is encoded as its percent-encoded UTF-8 exactly when no surrogate pair straddles a segment
   boundary.
   */
  lemma EncodesUtf8(points: seq<Point>, format: Format)
    requires Scalars(points)
    ensures Encoded(Units(points), format) == Percent(points, format) <==> !Straddles(Units(points))
  {
    hide EmittedAll, Units, Utf8All, PercentBytes, FromUtf8, Unescaped, Straddles, Encoded;
    var s := Units(points);
    EncodedIsPercent(s, format);
    if Straddles(s) {
      StraddlingDangles(points);
      UnitsEmittedAll(s);
      if Encoded(s, format) == Percent(points, format) {
        DecodesTo(EmittedAll(s), format);
        DecodesTo(points, format);
      }
    } else {
      WholeEmits(points);
    }
  }

  // Percent-decoding, then strict UTF-8 decoding, into UTF-16.
  function Decoded(t: seq<Unit>): Option<seq<Unit>> {
    var bytes := Unescaped(t);
    if bytes.None? then None
    else
      var points := FromUtf8(bytes.value);
      if points.None? then None else Some(Units(points.value))
  }

  lemma DecodesTo(points: seq<Point>, format: Format)
    requires Scalars(points)
    ensures Unescaped(Percent(points, format)) == Some(Utf8All(points))
    ensures FromUtf8(Utf8All(points)) == Some(points)
    ensures Decoded(Percent(points, format)) == Some(Units(points))
  {
    hide Units, FromUtf8, Unescaped;
    UnescapedBack(Utf8All(points), format);
    FromUtf8Back(points);
  }

  /** Decoding restores a well-formed string exactly when no surrogate pair straddles a segment boundary. */
  lemma DecodingRestores(points: seq<Point>, format: Format)
    requires Scalars(points)
    ensures Decoded(Encoded(Units(points), format)) == Some(Units(points)) <==> !Straddles(Units(points))
  {
    hide EmittedAll, Units, Utf8All, PercentBytes, FromUtf8, Unescaped, Straddles, Encoded, Decoded, Percent;
    var s := Units(points);
    EncodedIsPercent(s, format);
    DecodesTo(EmittedAll(s), format);
    if Straddles(s) {
      StraddlingDangles(points);
      UnitsEmittedAll(s);
    } else {
      WholeEmits(points);
    }
  }

  lemma LetterUnits()
    ensures UnitsOf(0x61) == [0x61]
  {}

  lemma {:induction false} PlainUnits(n: nat, last: Point)
    requires IsScalar(last)
    ensures var points := seq(n, _ => 0x61 as Point) + [last];
            Scalars(points) && Units(points) == seq(n, _ => 0x61 as Unit) + UnitsOf(last)
    decreases n
  {
    hide UnitsOf;
    var points := seq(n, _ => 0x61 as Point) + [last];
    UnitsHead(points);
    if n == 0 {
      assert points[1..] == [];
      assert UnitsOf(last) + [] == UnitsOf(last);
    } else {
      assert points[1..] == seq(n - 1, _ => 0x61 as Point) + [last];
      PlainUnits(n - 1, last);
      LetterUnits();
      assert [0x61 as Unit] + (seq(n - 1, _ => 0x61 as Unit) + UnitsOf(last))
          == seq(n, _ => 0x61 as Unit) + UnitsOf(last);
    }
  }

  /** 1023 letters and then an emoji are not encoded as their UTF-8. */
  lemma StraddlingEmoji(format: Format)
    ensures var points := seq(1023, _ => 0x61 as Point) + [0x1_f600];
            Scalars(points) && Encoded(Units(points), format) != Percent(points, format)
  {
    hide Encoded, Percent, Units;
    var points := seq(1023, _ => 0x61 as Point) + [0x1_f600];
    PlainUnits(1023, 0x1_f600);
    HalvesOf(0x1_f600);
    assert IsHigh(Units(points)[1 * LIMIT - 1]);
    EncodesUtf8(points, format);
  }
}
