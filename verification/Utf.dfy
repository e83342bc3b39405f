/** The converter pair between UTF-16 and UTF-8. The grammar and the encodings are those of RFC 3629 (sections
    3 and 4) and RFC 2781 (sections 2.1 and 2.2); the methods are the source's loops, bit operations included. */
module Utf {
  import opened PrefixCode

  type Byte = bv8
  type Unit = bv16
  type Point = bv32

  // ---------------------------------------------------------------- RFC 3629

  predicate Tail(b: Byte) {
    0x80 <= b <= 0xBF
  }

  predicate Char2(a: Byte, b: Byte) {
    0xC2 <= a <= 0xDF && Tail(b)
  }

  predicate Char3(a: Byte, b: Byte, c: Byte) {
    Tail(c) && (
      || (a == 0xE0 && 0xA0 <= b <= 0xBF)
      || (0xE1 <= a <= 0xEC && Tail(b))
      || (a == 0xED && 0x80 <= b <= 0x9F)
      || (0xEE <= a <= 0xEF && Tail(b)))
  }

  predicate Char4(a: Byte, b: Byte, c: Byte, d: Byte) {
    Tail(c) && Tail(d) && (
      || (a == 0xF0 && 0x90 <= b <= 0xBF)
      || (0xF1 <= a <= 0xF3 && Tail(b))
      || (a == 0xF4 && 0x80 <= b <= 0x8F))
  }

  /** The length of the UTF8-char at the front, 0 if there is none. */
  function CharLength(s: seq<Byte>): (n: nat)
    ensures n <= |s|
  {
    if |s| >= 1 && s[0] <= 0x7F then 1
    else if |s| >= 2 && Char2(s[0], s[1]) then 2
    else if |s| >= 3 && Char3(s[0], s[1], s[2]) then 3
    else if |s| >= 4 && Char4(s[0], s[1], s[2], s[3]) then 4
    else 0
  }

  /** Six more bits of a number, from a tail octet. */
  function Add(cp: Point, b: Byte): Point {
    (cp << 6) | (b & 0x3F) as Point
  }

  /** The bits an n-octet sequence carries in its first octet. */
  function LeadBits(a: Byte, n: nat): Point {
    if n == 1 then a as Point
    else if n == 2 then (a & 0x1F) as Point
    else if n == 3 then (a & 0x0F) as Point
    else (a & 0x07) as Point
  }

  /** The number read from the first octet of an n-octet sequence and the next k ones. */
  function Gather(s: seq<Byte>, n: nat, k: nat): Point
    requires k < |s|
  {
    if k == 0 then LeadBits(s[0], n) else Add(Gather(s, n, k - 1), s[k])
  }

  /** The character number of the UTF8-char at the front. */
  function PointAt(s: seq<Byte>): Point
    requires CharLength(s) > 0
  {
    Gather(s, CharLength(s), CharLength(s) - 1)
  }

  predicate Scalar(cp: Point) {
    cp < 0xD800 || 0xDFFF < cp <= 0x10FFFF
  }

  function TailOctet(x: Point): Byte {
    (0x80 | (x & 0x3F)) as Byte
  }

  /** The octets of one character number. */
  function Octets(cp: Point): (s: seq<Byte>)
    requires cp <= 0x10FFFF
    ensures |s| > 0
  {
    if cp < 0x80 then [cp as Byte]
    else if cp < 0x800 then [(0xC0 | (cp >> 6)) as Byte, TailOctet(cp)]
    else if cp < 0x10000 then [(0xE0 | (cp >> 12)) as Byte, TailOctet(cp >> 6), TailOctet(cp)]
    else [(0xF0 | (cp >> 18)) as Byte, TailOctet(cp >> 12), TailOctet(cp >> 6), TailOctet(cp)]
  }

  // ---------------------------------------------------------------- RFC 2781

  predicate High(u: Unit) {
    0xD800 <= u <= 0xDBFF
  }

  predicate Low(u: Unit) {
    0xDC00 <= u <= 0xDFFF
  }

  /** The number of units of the character at the front, 0 for an unpaired surrogate. */
  function UnitLength(s: seq<Unit>): (n: nat)
    ensures n <= |s|
  {
    if |s| >= 1 && !High(s[0]) && !Low(s[0]) then 1
    else if |s| >= 2 && High(s[0]) && Low(s[1]) then 2
    else 0
  }

  function Pair(high: Unit, low: Unit): Point {
    0x10000 + (((high as Point - 0xD800) << 10) | (low as Point - 0xDC00))
  }

  function UnitPoint(s: seq<Unit>): Point
    requires UnitLength(s) > 0
  {
    if UnitLength(s) == 1 then s[0] as Point else Pair(s[0], s[1])
  }

  function HighUnit(x: Point): (u: Unit)
    requires x < 0x100000
    ensures High(u)
  {
    HalvesFit(x);
    (0xD800 + (x >> 10)) as Unit
  }

  function LowUnit(x: Point): (u: Unit)
    ensures Low(u)
  {
    HalvesFit(x);
    (0xDC00 + (x & 0x3FF)) as Unit
  }

  lemma HalvesFit(x: Point)
    ensures x < 0x100000 ==> 0xD800 <= 0xD800 + (x >> 10) <= 0xDBFF
    ensures 0xDC00 <= 0xDC00 + (x & 0x3FF) <= 0xDFFF
  {
  }

  /** The units of one character number. */
  function Units(cp: Point): (s: seq<Unit>)
    requires cp <= 0x10FFFF
    ensures |s| > 0
  {
    if cp < 0x10000 then [cp as Unit] else [HighUnit(cp - 0x10000), LowUnit(cp - 0x10000)]
  }

  // ---------------------------------------------------------------- bits, no sequences

  /** The tests on the first octet sort it by the length it announces. */
  lemma LeadClasses(a: Byte)
    ensures a & 0xE0 == 0xC0 <==> 0xC0 <= a <= 0xDF
    ensures a & 0xF0 == 0xE0 <==> 0xE0 <= a <= 0xEF
    ensures a & 0xF8 == 0xF0 <==> 0xF0 <= a <= 0xF7
  {
  }

  lemma TailMask(b: Byte)
    ensures b & 0xC0 == 0x80 <==> Tail(b)
  {
  }

  /** The range check after decoding accepts exactly what the grammar does: no overlong form, no surrogate,
      nothing above U+10FFFF. */
  lemma Accepts2(a: Byte, b: Byte)
    requires 0xC0 <= a <= 0xDF && Tail(b)
    ensures var cp := Add((a & 0x1F) as Point, b); cp < 0x800 && ((0x80 <= cp && Scalar(cp)) <==> Char2(a, b))
  {
  }

  lemma Accepts3(a: Byte, b: Byte, c: Byte)
    requires 0xE0 <= a <= 0xEF && Tail(b) && Tail(c)
    ensures var cp := Add(Add((a & 0x0F) as Point, b), c);
      cp < 0x10000 && ((0x800 <= cp && Scalar(cp)) <==> Char3(a, b, c))
  {
  }

  lemma Accepts4(a: Byte, b: Byte, c: Byte, d: Byte)
    requires 0xF0 <= a <= 0xF7 && Tail(b) && Tail(c) && Tail(d)
    ensures var cp := Add(Add(Add((a & 0x07) as Point, b), c), d);
      (0x10000 <= cp && Scalar(cp)) <==> Char4(a, b, c, d)
  {
  }

  // The number of a surrogate pair, as a variable: the bit form of Pair stays inside these two.

  lemma PairIsHigh(high: Unit, low: Unit, cp: Point)
    requires High(high) && Low(low) && cp == Pair(high, low)
    ensures 0x10000 <= cp <= 0x10FFFF
  {
  }

  lemma PairSplits(high: Unit, low: Unit, cp: Point)
    requires High(high) && Low(low) && cp == Pair(high, low) && 0x10000 <= cp <= 0x10FFFF
    ensures HighUnit(cp - 0x10000) == high && LowUnit(cp - 0x10000) == low
  {
  }

  lemma PairJoins(cp: Point)
    requires 0x10000 <= cp <= 0x10FFFF
    ensures Pair(HighUnit(cp - 0x10000), LowUnit(cp - 0x10000)) == cp
  {
  }

  // ---------------------------------------------------------------- one character

  // What CharLength and PointAt say of a string whose first octets are known.

  lemma Front1(s: seq<Byte>, a: Byte)
    requires |s| >= 1 && s[0] == a && a <= 0x7F
    ensures CharLength(s) == 1 && PointAt(s) == a as Point
  {
  }

  lemma Front2(s: seq<Byte>, a: Byte, b: Byte)
    requires |s| >= 2 && s[0] == a && s[1] == b && 0xC0 <= a <= 0xDF
    ensures (CharLength(s) > 0 <==> Char2(a, b)) && (CharLength(s) > 0 ==> CharLength(s) == 2)
    ensures Gather(s, 2, 0) == (a & 0x1F) as Point
    ensures Gather(s, 2, 1) == Add((a & 0x1F) as Point, b)
  {
    assert Gather(s, 2, 0) == LeadBits(a, 2);
  }

  lemma Front3(s: seq<Byte>, a: Byte, b: Byte, c: Byte)
    requires |s| >= 3 && s[0] == a && s[1] == b && s[2] == c && 0xE0 <= a <= 0xEF
    ensures (CharLength(s) > 0 <==> Char3(a, b, c)) && (CharLength(s) > 0 ==> CharLength(s) == 3)
    ensures Gather(s, 3, 0) == (a & 0x0F) as Point
    ensures Gather(s, 3, 2) == Add(Add((a & 0x0F) as Point, b), c)
  {
    assert Gather(s, 3, 0) == LeadBits(a, 3);
    assert Gather(s, 3, 1) == Add(LeadBits(a, 3), b);
  }

  lemma Front4(s: seq<Byte>, a: Byte, b: Byte, c: Byte, d: Byte)
    requires |s| >= 4 && s[0] == a && s[1] == b && s[2] == c && s[3] == d && 0xF0 <= a <= 0xF7
    ensures (CharLength(s) > 0 <==> Char4(a, b, c, d)) && (CharLength(s) > 0 ==> CharLength(s) == 4)
    ensures Gather(s, 4, 0) == (a & 0x07) as Point
    ensures Gather(s, 4, 3) == Add(Add(Add((a & 0x07) as Point, b), c), d)
  {
    assert Gather(s, 4, 0) == LeadBits(a, 4);
    assert Gather(s, 4, 1) == Add(LeadBits(a, 4), b);
    assert Gather(s, 4, 2) == Add(Add(LeadBits(a, 4), b), c);
  }

  /** The four forms, read and written, on octets alone. */
  lemma Read1(cp: Point)
    requires cp < 0x80
    ensures cp as Byte <= 0x7F && (cp as Byte) as Point == cp
  {
  }

  lemma Read2(cp: Point, a: Byte, b: Byte)
    requires 0x80 <= cp < 0x800 && a == (0xC0 | (cp >> 6)) as Byte && b == TailOctet(cp)
    ensures 0xC0 <= a <= 0xDF && Char2(a, b) && Add((a & 0x1F) as Point, b) == cp
  {
  }

  lemma Form3(cp: Point, a: Byte, b: Byte, c: Byte)
    requires 0x800 <= cp < 0x10000 && Scalar(cp)
    requires a == (0xE0 | (cp >> 12)) as Byte && b == TailOctet(cp >> 6) && c == TailOctet(cp)
    ensures Char3(a, b, c)
  {
  }

  lemma Read3(cp: Point, a: Byte, b: Byte, c: Byte)
    requires 0x800 <= cp < 0x10000 && Scalar(cp)
    requires a == (0xE0 | (cp >> 12)) as Byte && b == TailOctet(cp >> 6) && c == TailOctet(cp)
    ensures Add(Add((a & 0x0F) as Point, b), c) == cp
  {
  }

  lemma Form4(cp: Point, a: Byte, b: Byte, c: Byte, d: Byte)
    requires 0x10000 <= cp <= 0x10FFFF
    requires a == (0xF0 | (cp >> 18)) as Byte && b == TailOctet(cp >> 12) && c == TailOctet(cp >> 6)
    requires d == TailOctet(cp)
    ensures Char4(a, b, c, d)
  {
  }

  lemma Read4(cp: Point, a: Byte, b: Byte, c: Byte, d: Byte)
    requires 0x10000 <= cp <= 0x10FFFF
    requires a == (0xF0 | (cp >> 18)) as Byte && b == TailOctet(cp >> 12) && c == TailOctet(cp >> 6)
    requires d == TailOctet(cp)
    ensures Add(Add(Add((a & 0x07) as Point, b), c), d) == cp
  {
  }

  lemma Write2(a: Byte, b: Byte)
    requires Char2(a, b)
    ensures var cp := Add((a & 0x1F) as Point, b);
      0x80 <= cp < 0x800 && (0xC0 | (cp >> 6)) as Byte == a && TailOctet(cp) == b
  {
  }

  lemma Write3(a: Byte, b: Byte, c: Byte)
    requires Char3(a, b, c)
    ensures var cp := Add(Add((a & 0x0F) as Point, b), c);
      && 0x800 <= cp < 0x10000 && Scalar(cp)
      && (0xE0 | (cp >> 12)) as Byte == a && TailOctet(cp >> 6) == b && TailOctet(cp) == c
  {
  }

  lemma Write4(a: Byte, b: Byte, c: Byte, d: Byte)
    requires Char4(a, b, c, d)
    ensures var cp := Add(Add(Add((a & 0x07) as Point, b), c), d);
      && 0x10000 <= cp <= 0x10FFFF && (0xF0 | (cp >> 18)) as Byte == a
      && TailOctet(cp >> 12) == b && TailOctet(cp >> 6) == c && TailOctet(cp) == d
  {
  }

  lemma Narrow(cp: Point)
    requires Scalar(cp) && cp < 0x10000
    ensures (cp as Unit) as Point == cp && !High(cp as Unit) && !Low(cp as Unit)
  {
  }

  lemma Widen(u: Unit)
    requires !High(u) && !Low(u)
    ensures u as Point < 0x10000 && Scalar(u as Point) && (u as Point) as Unit == u
  {
  }

  lemma FrontUnit(s: seq<Unit>, u: Unit)
    requires |s| >= 1 && s[0] == u && !High(u) && !Low(u)
    ensures UnitLength(s) == 1 && UnitPoint(s) == u as Point
  {
  }

  lemma FrontPair(s: seq<Unit>, u: Unit, v: Unit)
    requires |s| >= 2 && s[0] == u && s[1] == v && High(u) && Low(v)
    ensures UnitLength(s) == 2 && UnitPoint(s) == Pair(u, v)
  {
  }

  // ---------------------------------------------------------------- one character

  /** What is written for a scalar value is read back as that value, whatever follows it. */
  lemma OctetsRead(cp: Point, rest: seq<Byte>)
    requires Scalar(cp)
    ensures var s := Octets(cp) + rest;
      && CharLength(s) == |Octets(cp)| && PointAt(s) == cp && s[CharLength(s)..] == rest
  {
    var s, n := Octets(cp) + rest, |Octets(cp)|;
    assert s[n..] == rest;
    if cp < 0x80 {
      Read1(cp);
      Front1(s, cp as Byte);
    } else if cp < 0x800 {
      var a, b := (0xC0 | (cp >> 6)) as Byte, TailOctet(cp);
      Read2(cp, a, b);
      Front2(s, a, b);
    } else if cp < 0x10000 {
      var a, b, c := (0xE0 | (cp >> 12)) as Byte, TailOctet(cp >> 6), TailOctet(cp);
      Form3(cp, a, b, c);
      Read3(cp, a, b, c);
      Front3(s, a, b, c);
    } else {
      var a, b, c, d := (0xF0 | (cp >> 18)) as Byte, TailOctet(cp >> 12), TailOctet(cp >> 6), TailOctet(cp);
      Form4(cp, a, b, c, d);
      Read4(cp, a, b, c, d);
      Front4(s, a, b, c, d);
    }
  }

  lemma Written1(s: seq<Byte>, a: Byte)
    requires CharLength(s) == 1 && s[0] == a
    ensures Scalar(PointAt(s)) && Octets(PointAt(s)) == [a]
  {
    Front1(s, a);
    assert (a as Point) as Byte == a;
  }

  lemma Written2(s: seq<Byte>, a: Byte, b: Byte)
    requires CharLength(s) == 2 && s[0] == a && s[1] == b
    ensures Scalar(PointAt(s)) && Octets(PointAt(s)) == [a, b]
  {
    Front2(s, a, b);
    Write2(a, b);
  }

  lemma Written3(s: seq<Byte>, a: Byte, b: Byte, c: Byte)
    requires CharLength(s) == 3 && s[0] == a && s[1] == b && s[2] == c
    ensures Scalar(PointAt(s)) && Octets(PointAt(s)) == [a, b, c]
  {
    Front3(s, a, b, c);
    Write3(a, b, c);
  }

  lemma Written4(s: seq<Byte>, a: Byte, b: Byte, c: Byte, d: Byte)
    requires CharLength(s) == 4 && s[0] == a && s[1] == b && s[2] == c && s[3] == d
    ensures Scalar(PointAt(s)) && Octets(PointAt(s)) == [a, b, c, d]
  {
    Front4(s, a, b, c, d);
    Write4(a, b, c, d);
  }

  /** What is read from a character is a scalar value, and is written as that character. */
  lemma CharWritten(s: seq<Byte>)
    requires CharLength(s) > 0
    ensures Scalar(PointAt(s)) && Octets(PointAt(s)) == s[..CharLength(s)]
  {
    match CharLength(s)
    case 1 => Written1(s, s[0]);
    case 2 => Written2(s, s[0], s[1]);
    case 3 => Written3(s, s[0], s[1], s[2]);
    case _ => Written4(s, s[0], s[1], s[2], s[3]);
  }

  lemma UnitsRead(cp: Point, rest: seq<Unit>)
    requires Scalar(cp)
    ensures var s := Units(cp) + rest;
      && UnitLength(s) == |Units(cp)| && UnitPoint(s) == cp && s[UnitLength(s)..] == rest
  {
    var s := Units(cp) + rest;
    assert s[|Units(cp)|..] == rest;
    if cp < 0x10000 {
      Narrow(cp);
      FrontUnit(s, cp as Unit);
    } else {
      PairJoins(cp);
      FrontPair(s, HighUnit(cp - 0x10000), LowUnit(cp - 0x10000));
    }
  }

  lemma WrittenUnit(s: seq<Unit>, u: Unit)
    requires UnitLength(s) == 1 && s[0] == u
    ensures Scalar(UnitPoint(s)) && Units(UnitPoint(s)) == [u]
  {
    FrontUnit(s, u);
    Widen(u);
  }

  lemma HighWritten(cp: Point, u: Unit, v: Unit)
    requires 0x10000 <= cp <= 0x10FFFF && HighUnit(cp - 0x10000) == u && LowUnit(cp - 0x10000) == v
    ensures Scalar(cp) && Units(cp) == [u, v]
  {
  }

  lemma WrittenPair(s: seq<Unit>, u: Unit, v: Unit)
    requires UnitLength(s) == 2 && s[0] == u && s[1] == v
    ensures Scalar(UnitPoint(s)) && Units(UnitPoint(s)) == [u, v]
  {
    var cp := UnitPoint(s);
    FrontPair(s, u, v);
    PairIsHigh(u, v, cp);
    PairSplits(u, v, cp);
    HighWritten(cp, u, v);
  }

  lemma UnitsWritten(s: seq<Unit>)
    requires UnitLength(s) > 0
    ensures Scalar(UnitPoint(s)) && Units(UnitPoint(s)) == s[..UnitLength(s)]
  {
    if UnitLength(s) == 1 {
      WrittenUnit(s, s[0]);
    } else {
      WrittenPair(s, s[0], s[1]);
    }
  }

  // ---------------------------------------------------------------- whole strings

  function Code8(): Code<Byte, Point> {
    Code(s => CharLength(s), s => if CharLength(s) > 0 then PointAt(s) else 0, p => Scalar(p),
         p => if p <= 0x10FFFF then Octets(p) else [])
  }

  function Code16(): Code<Unit, Point> {
    Code(s => UnitLength(s), s => if UnitLength(s) > 0 then UnitPoint(s) else 0, p => Scalar(p),
         p => if p <= 0x10FFFF then Units(p) else [])
  }

  /** UTF8-octets of section 4 of RFC 3629. */
  predicate Utf8(s: seq<Byte>) {
    WellFormed(Code8(), s)
  }

  /** No unpaired surrogate. */
  predicate Utf16(s: seq<Unit>) {
    WellFormed(Code16(), s)
  }

  /** What Str8ToStr16 returns. */
  function To16(s: seq<Byte>): seq<Unit> {
    Convert(Code8(), Code16(), s)
  }

  /** What Str16ToStr8 returns. */
  function To8(s: seq<Unit>): seq<Byte> {
    Convert(Code16(), Code8(), s)
  }

  lemma Code8IsLawful()
    ensures Lawful(Code8())
  {
    forall s | CharLength(s) > 0 ensures Scalar(PointAt(s)) && Octets(PointAt(s)) == s[..CharLength(s)] {
      CharWritten(s);
    }
    forall p, rest | Scalar(p)
      ensures CharLength(Octets(p) + rest) == |Octets(p)| > 0 && PointAt(Octets(p) + rest) == p
    {
      OctetsRead(p, rest);
    }
  }

  lemma Code16IsLawful()
    ensures Lawful(Code16())
  {
    forall s | UnitLength(s) > 0 ensures Scalar(UnitPoint(s)) && Units(UnitPoint(s)) == s[..UnitLength(s)] {
      UnitsWritten(s);
    }
    forall p, rest | Scalar(p)
      ensures UnitLength(Units(p) + rest) == |Units(p)| > 0 && UnitPoint(Units(p) + rest) == p
    {
      UnitsRead(p, rest);
    }
  }

  /** The grammar of section 4 of RFC 3629 describes exactly the encodings of section 3. */
  lemma GrammarIsEncodings(s: seq<Byte>)
    ensures Utf8(s) <==> exists ps :: Scalars(Code8(), ps) && Encode(Code8(), ps) == s
  {
    Code8IsLawful();
    WellFormedIsEncoded(Code8(), s);
  }

  /** A string of units has no unpaired surrogate exactly when it encodes scalar values. */
  lemma PairedIsEncodings(s: seq<Unit>)
    ensures Utf16(s) <==> exists ps :: Scalars(Code16(), ps) && Encode(Code16(), ps) == s
  {
    Code16IsLawful();
    WellFormedIsEncoded(Code16(), s);
  }

  /** UTF-8 to UTF-16 and back, for every well-formed string. */
  lemma RoundTrip8(s: seq<Byte>)
    requires Utf8(s)
    ensures Utf16(To16(s)) && To8(To16(s)) == s
  {
    Code8IsLawful();
    Code16IsLawful();
    RoundTrip(Code8(), Code16(), s);
  }

  /** UTF-16 to UTF-8 and back, for every well-formed string. */
  lemma RoundTrip16(s: seq<Unit>)
    requires Utf16(s)
    ensures Utf8(To8(s)) && To16(To8(s)) == s
  {
    Code8IsLawful();
    Code16IsLawful();
    RoundTrip(Code16(), Code8(), s);
  }

  /** Malformed input, and only that, is turned into the empty string (which is also what the empty string is
      turned into). */
  lemma RefusedExactly(s: seq<Byte>, t: seq<Unit>)
    ensures To16(s) == [] <==> s == [] || !Utf8(s)
    ensures To8(t) == [] <==> t == [] || !Utf16(t)
  {
    Code8IsLawful();
    Code16IsLawful();
    EmptyMeansRefused(Code8(), Code16(), s);
    EmptyMeansRefused(Code16(), Code8(), t);
  }

  // ---------------------------------------------------------------- the source's loops

  method AppendUtf8(out: seq<Byte>, cp: Point) returns (r: seq<Byte>)
    requires cp <= 0x10FFFF
    ensures r == out + Octets(cp)
  {
    r := out;
    if cp < 0x80 {
      r := r + [cp as Byte];
    } else if cp < 0x800 {
      r := r + [(0xC0 | (cp >> 6)) as Byte];
      r := r + [(0x80 | (cp & 0x3F)) as Byte];
    } else if cp < 0x10000 {
      r := r + [(0xE0 | (cp >> 12)) as Byte];
      r := r + [(0x80 | ((cp >> 6) & 0x3F)) as Byte];
      r := r + [(0x80 | (cp & 0x3F)) as Byte];
    } else {
      r := r + [(0xF0 | (cp >> 18)) as Byte];
      r := r + [(0x80 | ((cp >> 12) & 0x3F)) as Byte];
      r := r + [(0x80 | ((cp >> 6) & 0x3F)) as Byte];
      r := r + [(0x80 | (cp & 0x3F)) as Byte];
    }
  }

  /** Once the tail octets are there, the range check decides as the grammar does. */
  lemma RangeCheck2(s: seq<Byte>, a: Byte, b: Byte)
    requires |s| >= 2 && s[0] == a && s[1] == b && 0xC0 <= a <= 0xDF && Tail(b)
    ensures var cp := Gather(s, 2, 1); InRange(cp, 0x80) <==> CharLength(s) > 0
    ensures CharLength(s) > 0 ==> CharLength(s) == 2
  {
    Front2(s, a, b);
    Accepts2(a, b);
  }

  lemma RangeCheck3(s: seq<Byte>, a: Byte, b: Byte, c: Byte)
    requires |s| >= 3 && s[0] == a && s[1] == b && s[2] == c && 0xE0 <= a <= 0xEF && Tail(b) && Tail(c)
    ensures var cp := Gather(s, 3, 2); InRange(cp, 0x800) <==> CharLength(s) > 0
    ensures CharLength(s) > 0 ==> CharLength(s) == 3
  {
    Front3(s, a, b, c);
    Accepts3(a, b, c);
  }

  lemma RangeCheck4(s: seq<Byte>, a: Byte, b: Byte, c: Byte, d: Byte)
    requires |s| >= 4 && s[0] == a && s[1] == b && s[2] == c && s[3] == d
    requires 0xF0 <= a <= 0xF7 && Tail(b) && Tail(c) && Tail(d)
    ensures var cp := Gather(s, 4, 3); InRange(cp, 0x10000) <==> CharLength(s) > 0
    ensures CharLength(s) > 0 ==> CharLength(s) == 4
  {
    Front4(s, a, b, c, d);
    Accepts4(a, b, c, d);
  }

  /** The check after decoding: neither too small for its length, nor too large, nor a surrogate. */
  predicate InRange(cp: Point, minValue: Point) {
    !(cp < minValue || cp > 0x10FFFF || (cp >= 0xD800 && cp <= 0xDFFF))
  }

  /** The announced number of tail octets and the smallest number that needs them; none for an octet that cannot
      start a sequence. */
  function Announced(a: Byte): nat {
    if a <= 0x7F then 0 else if 0xC0 <= a <= 0xDF then 1 else if 0xE0 <= a <= 0xEF then 2
    else if 0xF0 <= a <= 0xF7 then 3 else 4
  }

  function Smallest(n: nat): Point {
    if n == 1 then 0x80 else if n == 2 then 0x800 else 0x10000
  }

  lemma RangeCheck(s: seq<Byte>, extra: nat)
    requires s != [] && extra == Announced(s[0]) && 1 <= extra <= 3 && extra < |s|
    requires forall j | 1 <= j <= extra :: Tail(s[j])
    ensures InRange(Gather(s, extra + 1, extra), Smallest(extra)) <==> CharLength(s) > 0
    ensures CharLength(s) > 0 ==> CharLength(s) == extra + 1
  {
    if extra == 1 {
      RangeCheck2(s, s[0], s[1]);
    } else if extra == 2 {
      RangeCheck3(s, s[0], s[1], s[2]);
    } else {
      RangeCheck4(s, s[0], s[1], s[2], s[3]);
    }
  }

  /** Reads one character. A refusal leaves the position where it was. */
  method DecodeUtf8(s: seq<Byte>, pos: nat) returns (ok: bool, next: nat, cp: Point)
    requires pos < |s|
    ensures ok <==> CharLength(s[pos..]) > 0
    ensures ok ==> next == pos + CharLength(s[pos..]) && cp == PointAt(s[pos..])
    ensures !ok ==> next == pos
  {
    ghost var rest := s[pos..];
    var lead := s[pos];
    assert lead == rest[0];
    var extra, bits, minValue := Lead(lead);
    if extra == 0 {
      Front1(rest, lead);
      return true, pos + 1, bits;
    } else if extra > 3 {
      return false, pos, bits;
    }
    if pos + extra >= |s| {
      return false, pos, bits;
    }
    var tails;
    tails, cp := Tails(s, pos, extra, bits);
    if !tails {
      return false, pos, cp;
    }
    RangeCheck(rest, extra);
    if !InRange(cp, minValue) {
      return false, pos, cp;
    }
    return true, pos + extra + 1, cp;
  }

  /** The tail octets, up to the first that is none. */
  method Tails(s: seq<Byte>, pos: nat, extra: nat, bits: Point) returns (ok: bool, cp: Point)
    requires pos + extra < |s| && bits == LeadBits(s[pos], extra + 1)
    ensures ok <==> forall j | 1 <= j <= extra :: Tail(s[pos..][j])
    ensures ok ==> cp == Gather(s[pos..], extra + 1, extra)
  {
    ghost var rest := s[pos..];
    cp := bits;
    for i := 1 to extra + 1
      invariant cp == Gather(rest, extra + 1, i - 1)
      invariant forall j | 1 <= j < i :: Tail(rest[j])
    {
      var octet := s[pos + i];
      assert octet == rest[i];
      TailMask(octet);
      if octet & 0xC0 != 0x80 {
        return false, cp;
      }
      cp := Add(cp, octet);
    }
    return true, cp;
  }

  /** The tests on the first octet; 4 stands for an octet that cannot start a sequence. */
  method Lead(lead: Byte) returns (extra: nat, cp: Point, minValue: Point)
    ensures extra == Announced(lead)
    ensures extra <= 3 ==> cp == LeadBits(lead, extra + 1)
    ensures 1 <= extra <= 3 ==> minValue == Smallest(extra)
  {
    LeadClasses(lead);
    extra, cp, minValue := 0, 0, 0;
    if lead < 0x80 {
      cp := lead as Point;
    } else if lead & 0xE0 == 0xC0 {
      extra, cp, minValue := 1, (lead & 0x1F) as Point, 0x80;
    } else if lead & 0xF0 == 0xE0 {
      extra, cp, minValue := 2, (lead & 0x0F) as Point, 0x800;
    } else if lead & 0xF8 == 0xF0 {
      extra, cp, minValue := 3, (lead & 0x07) as Point, 0x10000;
    } else {
      extra := 4;
    }
  }

  method AppendUtf16(out: seq<Unit>, cp: Point) returns (r: seq<Unit>)
    requires cp <= 0x10FFFF
    ensures r == out + Units(cp)
  {
    r := out;
    if cp >= 0x10000 {
      var x := cp - 0x10000;
      r := r + [HighUnit(x)];
      r := r + [LowUnit(x)];
    } else {
      r := r + [cp as Unit];
    }
  }

  lemma Step16(s: seq<Byte>, pos: nat, out: seq<Unit>, next: nat, cp: Point)
    requires pos < |s| && Converted(Code8(), Code16(), s, pos, out)
    requires CharLength(s[pos..]) > 0 && next == pos + CharLength(s[pos..]) && cp == PointAt(s[pos..])
    ensures cp <= 0x10FFFF && Converted(Code8(), Code16(), s, next, out + Units(cp))
  {
    Code8IsLawful();
    ConvertedStep(Code8(), Code16(), s, pos, out);
  }

  method Str8ToStr16(s: seq<Byte>) returns (out: seq<Unit>)
    ensures out == To16(s)
  {
    out := [];
    var pos := 0;
    while pos < |s|
      invariant pos <= |s| && Converted(Code8(), Code16(), s, pos, out)
      decreases |s| - pos
    {
      var ok, next, cp := DecodeUtf8(s, pos);
      if !ok {
        ConvertedStops(Code8(), Code16(), s, pos, out);
        return [];
      }
      Step16(s, pos, out, next, cp);
      out := AppendUtf16(out, cp);
      pos := next;
    }
    ConvertedStops(Code8(), Code16(), s, pos, out);
  }

  /** One character of Str16ToStr8: how many units it takes, none if the surrogate is not paired. */
  method DecodeUtf16(s: seq<Unit>, i: nat) returns (units: nat, cp: Point)
    requires i < |s|
    ensures units == UnitLength(s[i..])
    ensures units > 0 ==> cp == UnitPoint(s[i..])
  {
    ghost var rest := s[i..];
    assert rest[0] == s[i];
    var unit := s[i];
    if 0xD800 <= unit < 0xDC00 {
      if i + 1 >= |s| {
        return 0, 0;
      }
      var low := s[i + 1];
      assert rest[1] == low;
      if low < 0xDC00 || low > 0xDFFF {
        return 0, 0;
      }
      FrontPair(rest, unit, low);
      return 2, 0x10000 + (((unit as Point - 0xD800) << 10) | (low as Point - 0xDC00));
    } else if 0xDC00 <= unit <= 0xDFFF {
      return 0, 0;
    }
    FrontUnit(rest, unit);
    return 1, unit as Point;
  }

  lemma Step8(s: seq<Unit>, i: nat, out: seq<Byte>, next: nat, cp: Point)
    requires i < |s| && Converted(Code16(), Code8(), s, i, out)
    requires UnitLength(s[i..]) > 0 && next == i + UnitLength(s[i..]) && cp == UnitPoint(s[i..])
    ensures cp <= 0x10FFFF && Converted(Code16(), Code8(), s, next, out + Octets(cp))
  {
    Code16IsLawful();
    ConvertedStep(Code16(), Code8(), s, i, out);
  }

  method Str16ToStr8(s: seq<Unit>) returns (out: seq<Byte>)
    ensures out == To8(s)
  {
    out := [];
    var i := 0;
    while i < |s|
      invariant i <= |s| && Converted(Code16(), Code8(), s, i, out)
    {
      var units, cp := DecodeUtf16(s, i);
      if units == 0 {
        ConvertedStops(Code16(), Code8(), s, i, out);
        return [];
      }
      Step8(s, i, out, i + units, cp);
      out := AppendUtf8(out, cp);
      i := i + units;
    }
    ConvertedStops(Code16(), Code8(), s, i, out);
  }
}
