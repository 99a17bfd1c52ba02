/** Well-formed UTF-8, and when concatenated text is: the rewrite inserts ASCII text
    behind an ASCII character, which neither mends nor breaks a program. */
module Utf8 {
  import opened Qpy

  predicate Continues(s: string, from: nat, to: nat) {
    to <= |s| && forall i :: from <= i < to ==> 0x80 <= ByteOf(s[i]) <= 0xBF
  }

  /** Well-formed UTF-8 (section 4 of RFC 3629). */
  predicate IsUtf8(s: string)
    decreases |s|
  {
    s == "" ||
    (var b := ByteOf(s[0]);
     if b < 0x80 then IsUtf8(s[1..])
     else if 0xC2 <= b <= 0xDF then Continues(s, 1, 2) && IsUtf8(s[2..])
     else if 0xE0 <= b <= 0xEF then
       && Continues(s, 1, 3)
       && (b == 0xE0 ==> ByteOf(s[1]) >= 0xA0) && (b == 0xED ==> ByteOf(s[1]) <= 0x9F)
       && IsUtf8(s[3..])
     else if 0xF0 <= b <= 0xF4 then
       && Continues(s, 1, 4)
       && (b == 0xF0 ==> ByteOf(s[1]) >= 0x90) && (b == 0xF4 ==> ByteOf(s[1]) <= 0x8F)
       && IsUtf8(s[4..])
     else false)
  }

  predicate IsAscii(s: string) {
    forall i :: 0 <= i < |s| ==> ByteOf(s[i]) < 0x80
  }

  lemma {:induction false} AsciiIsUtf8(s: string)
    requires IsAscii(s)
    ensures IsUtf8(s)
  {
    if s != "" {
      AsciiIsUtf8(s[1..]);
    }
  }

  /** Whether a text continues a character is decided before an ASCII character. */
  lemma SameContinuation(a: string, b: string, to: nat)
    requires a != "" && ByteOf(a[|a| - 1]) < 0x80 && 1 < to
    ensures Continues(a + b, 1, to) ==> to < |a| || |a| == 1
    ensures Continues(a, 1, to) ==> to < |a|
    ensures to <= |a| ==> (Continues(a + b, 1, to) <==> Continues(a, 1, to))
  {
    assert (a + b)[|a| - 1] == a[|a| - 1];
    if to <= |a| {
      assert forall i :: 1 <= i < to ==> (a + b)[i] == a[i];
    }
  }

  /** Behind an ASCII character, the two parts of a text are well-formed exactly
      when the whole is. */
  lemma {:induction false} Utf8Concat(a: string, b: string)
    requires a != "" ==> ByteOf(a[|a| - 1]) < 0x80
    ensures IsUtf8(a + b) <==> IsUtf8(a) && IsUtf8(b)
    decreases |a|
  {
    if a == "" {
      assert a + b == b;
    } else {
      var lead := ByteOf(a[0]);
      var n := if lead < 0x80 then 1 else if lead <= 0xDF then 2 else if lead <= 0xEF then 3 else 4;
      if n > 1 {
        SameContinuation(a, b, n);
      }
      if n <= |a| {
        assert (a + b)[n..] == a[n..] + b;
        Utf8Concat(a[n..], b);
      }
      Utf8Step(a, b, n);
    }
  }

  lemma Utf8Step(a: string, b: string, n: nat)
    requires a != "" && ByteOf(a[|a| - 1]) < 0x80
    requires var lead := ByteOf(a[0]); n == if lead < 0x80 then 1 else if lead <= 0xDF then 2 else if lead <= 0xEF then 3 else 4
    requires n <= |a| ==> (a + b)[n..] == a[n..] + b && (IsUtf8(a[n..] + b) <==> IsUtf8(a[n..]) && IsUtf8(b))
    ensures IsUtf8(a + b) <==> IsUtf8(a) && IsUtf8(b)
  {
    assert (a + b)[0] == a[0];
    if n > 1 {
      assert |a| > 1 && (a + b)[1] == a[1];
      SameContinuation(a, b, n);
    }
    hide ByteOf, Continues;
  }

  // ----- what well-formed text is

  /** A code point, cut into the six-bit digits that its bytes hold. */
  datatype Point = One(a: nat) | Two(a: nat, b: nat) | Three(a: nat, b: nat, c: nat) | Four(a: nat, b: nat, c: nat, d: nat) {
    function Code(): nat {
      match this
      case One(a) => a
      case Two(a, b) => 64 * a + b
      case Three(a, b, c) => 4096 * a + 64 * b + c
      case Four(a, b, c, d) => 262144 * a + 4096 * b + 64 * c + d
    }

    /** No code has more bytes than it needs, none is a surrogate, and none is beyond
        the last one. */
    predicate Valid() {
      match this
      case One(a) => a < 0x80
      case Two(_, b) => b < 64 && 0x80 <= Code() < 0x800
      case Three(_, b, c) => b < 64 && c < 64 && (0x800 <= Code() < 0xD800 || 0xE000 <= Code() < 0x10000)
      case Four(_, b, c, d) => b < 64 && c < 64 && d < 64 && 0x10000 <= Code() < 0x110000
    }

    /** The bytes of one code point (section 3 of RFC 3629). */
    function Bytes(): string
      requires Valid()
    {
      match this
      case One(a) => [a as char]
      case Two(a, b) => [(0xC0 + a) as char, (0x80 + b) as char]
      case Three(a, b, c) => [(0xE0 + a) as char, (0x80 + b) as char, (0x80 + c) as char]
      case Four(a, b, c, d) => [(0xF0 + a) as char, (0x80 + b) as char, (0x80 + c) as char, (0x80 + d) as char]
    }
  }

  function TextBytes(points: seq<Point>): string
    requires forall i :: 0 <= i < |points| ==> points[i].Valid()
  {
    if points == [] then "" else points[0].Bytes() + TextBytes(points[1..])
  }

  ghost predicate IsTextOf(s: string, points: seq<Point>) {
    (forall i :: 0 <= i < |points| ==> points[i].Valid()) && s == TextBytes(points)
  }

  lemma PointIsUtf8(point: Point, rest: string)
    requires point.Valid()
    ensures IsUtf8(point.Bytes() + rest) <==> IsUtf8(rest)
  {
    hide IsUtf8;
    match point
    case One(_) => ShortIsUtf8(point, rest);
    case Two(_, _) => ShortIsUtf8(point, rest);
    case Three(_, _, _) => ThreeIsUtf8(point, rest);
    case Four(_, _, _, _) => FourIsUtf8(point, rest);
  }

  lemma ShortIsUtf8(point: Point, rest: string)
    requires point.Valid() && (point.One? || point.Two?)
    ensures IsUtf8(point.Bytes() + rest) <==> IsUtf8(rest)
  {
    var s := point.Bytes() + rest;
    assert s != "" && s[|point.Bytes()|..] == rest;
  }

  lemma ThreeIsUtf8(point: Point, rest: string)
    requires point.Valid() && point.Three?
    ensures IsUtf8(point.Bytes() + rest) <==> IsUtf8(rest)
  {
    var s := point.Bytes() + rest;
    assert s != "" && s[3..] == rest;
    assert s[0] == point.Bytes()[0] && s[1] == point.Bytes()[1] && s[2] == point.Bytes()[2];
    assert Continues(s, 1, 3);
  }

  lemma FourDigits(point: Point)
    requires point.Valid() && point.Four?
    ensures point.a <= 4 && (point.a == 0 ==> point.b >= 16) && (point.a == 4 ==> point.b < 16)
  {
  }

  lemma FourIsUtf8(point: Point, rest: string)
    requires point.Valid() && point.Four?
    ensures IsUtf8(point.Bytes() + rest) <==> IsUtf8(rest)
  {
    FourDigits(point);
    var bytes := point.Bytes();
    assert bytes == [(0xF0 + point.a) as char, (0x80 + point.b) as char, (0x80 + point.c) as char, (0x80 + point.d) as char];
    assert point.b < 64 && point.c < 64 && point.d < 64;
    hide Point.Valid, Point.Bytes, Point.Code;
    var s := bytes + rest;
    assert s != "" && s[4..] == rest;
    assert s[0] == bytes[0] && s[1] == bytes[1] && s[2] == bytes[2] && s[3] == bytes[3];
    assert Continues(s, 1, 4);
  }

  lemma {:induction false} TextIsUtf8(points: seq<Point>)
    requires forall i :: 0 <= i < |points| ==> points[i].Valid()
    ensures IsUtf8(TextBytes(points))
  {
    hide Point.Bytes, Point.Valid;
    if points != [] {
      TextIsUtf8(points[1..]);
      PointIsUtf8(points[0], TextBytes(points[1..]));
    }
  }

  /** The first code point of a well-formed text. */
  lemma FirstPoint(s: string) returns (point: Point)
    requires IsUtf8(s) && s != "" && forall i :: 0 <= i < |s| ==> s[i] as int < 256
    ensures point.Valid() && |point.Bytes()| <= |s| && point.Bytes() == s[..|point.Bytes()|] && IsUtf8(s[|point.Bytes()|..])
  {
    var b := s[0] as int;
    if b < 0x80 {
      point := One(b);
    } else if b <= 0xDF {
      point := Two(b - 0xC0, s[1] as int - 0x80);
    } else if b <= 0xEF {
      point := Three(b - 0xE0, s[1] as int - 0x80, s[2] as int - 0x80);
    } else {
      point := FirstFour(s);
    }
  }

  lemma FirstFour(s: string) returns (point: Point)
    requires IsUtf8(s) && s != "" && s[0] as int >= 0xF0 && forall i :: 0 <= i < |s| ==> s[i] as int < 256
    ensures point.Valid() && |point.Bytes()| <= |s| && point.Bytes() == s[..|point.Bytes()|] && IsUtf8(s[|point.Bytes()|..])
  {
    assert Continues(s, 1, 4) && IsUtf8(s[4..]);
    var a, b, c, d := s[0] as int - 0xF0, s[1] as int - 0x80, s[2] as int - 0x80, s[3] as int - 0x80;
    assert 0 <= a <= 4 && 0 <= b < 64 && 0 <= c < 64 && 0 <= d < 64 && (a == 0 ==> b >= 16) && (a == 4 ==> b < 16);
    hide IsUtf8, Continues;
    point := Four(a, b, c, d);
    assert point.Bytes() == s[..4];
  }

  lemma TextPrepend(s: string, point: Point, points: seq<Point>)
    requires point.Valid() && |point.Bytes()| <= |s| && point.Bytes() == s[..|point.Bytes()|]
    requires IsTextOf(s[|point.Bytes()|..], points)
    ensures IsTextOf(s, [point] + points)
  {
    hide Point.Bytes, Point.Valid;
    assert ([point] + points)[1..] == points;
    assert s == s[..|point.Bytes()|] + s[|point.Bytes()|..];
  }

  lemma {:induction false} Utf8IsText(s: string)
    requires IsUtf8(s) && forall i :: 0 <= i < |s| ==> s[i] as int < 256
    ensures exists points :: IsTextOf(s, points)
    decreases |s|
  {
    if s == "" {
      assert IsTextOf(s, []);
    } else {
      var point := FirstPoint(s);
      var n := |point.Bytes()|;
      assert n > 0;
      hide Point.Bytes, Point.Valid, IsUtf8, IsTextOf;
      Utf8IsText(s[n..]);
      var points :| IsTextOf(s[n..], points);
      TextPrepend(s, point, points);
    }
  }

  /** Bytes are well-formed exactly when they are the bytes of some code points. */
  lemma Utf8Exact(s: string)
    requires forall i :: 0 <= i < |s| ==> s[i] as int < 256
    ensures IsUtf8(s) <==> exists points :: IsTextOf(s, points)
  {
    hide IsUtf8;
    if IsUtf8(s) {
      Utf8IsText(s);
    }
    if points :| IsTextOf(s, points) {
      TextIsUtf8(points);
    }
  }
}
