/** UTF-16 pickle strings (src/browser/session_chromium.cpp:90-167) and the JSON strings that spell the same units. */
module Utf16 {
  import opened Base
  import opened JsonText

  type Unit = u: int | 0 <= u < 0x1_0000
  type Units = seq<Unit>

  predicate PairAt(u: Units) { |u| >= 2 && IsHigh(u[0]) && IsLow(u[1]) }

  /** What the loop of read_string16 appends for the units that are left. */
  function Decode(u: Units): Bytes {
    if u == [] then []
    else if PairAt(u) then Utf8(Combine(u[0], u[1])) + Decode(u[2..])
    else Utf8(u[0]) + Decode(u[1..])
  }

  // ---------------------------------------------------------------- the reader

  function Unit16(low: Byte, high: Byte): Unit { Join(low, high) }

  function Unit32(b: Bytes): nat
    requires |b| == 4
  {
    Join4(b[0], b[1], b[2], b[3])
  }

  /** The `count` little-endian units at `p`. */
  function UnitsAt(data: Bytes, p: nat, count: nat): (u: Units)
    requires p + 2 * count <= |data|
    ensures |u| == count
  {
    seq(count, k requires 0 <= k < count => Unit16(data[p + 2 * k], data[p + 2 * k + 1]))
  }

  function Aligned(n: nat): (a: nat)
    ensures n <= a < n + 4 && a % 4 == 0
  {
    (n + 3) / 4 * 4
  }

  /** The unit count that stands at `p`. */
  function CountAt(data: Bytes, p: nat): nat
    requires p + 4 <= |data|
  {
    Unit32(data[p..p + 4])
  }

  class Reader {
    const data: Bytes
    var offset: nat

    constructor (data: Bytes)
      ensures this.data == data && offset == 0
    {
      this.data := data;
      offset := 0;
    }

    method ReadU32() returns (ok: bool, value: nat)
      modifies this
      ensures ok == (old(offset) + 4 <= |data|)
      ensures ok ==> value == CountAt(data, old(offset)) && offset == old(offset) + 4
      ensures !ok ==> offset == old(offset)
    {
      if offset + 4 > |data| {
        return false, 0;
      }
      value := Join4(data[offset], data[offset + 1], data[offset + 2], data[offset + 3]);
      offset := offset + 4;
      return true, value;
    }

    /**
     * read_string16. Doubling the count wraps at 32 bits; where the wrapped double still fits what is left of
     * the data, the loop would run past it, so that case is left to the caller.
     */
    method ReadString16() returns (ok: bool, out: Bytes)
      requires offset + 4 <= |data| && CountAt(data, offset) >= 0x8000_0000 ==>
                 2 * CountAt(data, offset) % 0x1_0000_0000 > |data| - offset - 4
      modifies this
      ensures ok <==> && old(offset) + 4 <= |data| && CountAt(data, old(offset)) < 0x8000_0000
                      && old(offset) + 4 + 2 * CountAt(data, old(offset)) <= |data|
      ensures ok ==> out == Decode(UnitsAt(data, old(offset) + 4, CountAt(data, old(offset))))
      ensures ok ==> offset == Aligned(old(offset) + 4 + 2 * CountAt(data, old(offset)))
    {
      var count;
      out := [];
      ok, count := ReadU32();
      if !ok || 2 * count % 0x1_0000_0000 > |data| - offset {
        return false, [];
      }
      out := DecodeUnits(count);
      offset := Aligned(offset);
      return true, out;
    }

    /** The loop of read_string16. */
    method DecodeUnits(count: nat) returns (out: Bytes)
      requires offset + 2 * count <= |data|
      modifies this
      ensures offset == old(offset) + 2 * count
      ensures out == Decode(UnitsAt(data, old(offset), count))
    {
      hide Utf8, Decode, Combine, UnitsAt;
      ghost var start, u := offset, UnitsAt(data, offset, count);
      out := [];
      var i := 0;
      assert u[0..] == u;
      while i < count
        invariant 0 <= i <= count && offset == start + 2 * i
        invariant Decode(u) == out + Decode(u[i..])
      {
        UnitAt(data, start, count, i);
        DecodeStep(u, i, out);
        var code: nat := Unit16(data[offset], data[offset + 1]);
        offset := offset + 2;
        if IsHigh(code) && i + 1 < count {
          UnitAt(data, start, count, i + 1);
          var low := Unit16(data[offset], data[offset + 1]);
          if IsLow(low) {
            code := Combine(code, low);
            offset := offset + 2;
            i := i + 1;
          }
        }
        out := out + Utf8(code);
        i := i + 1;
      }
      DecodeEnd(u[i..]);
    }
  }

  lemma UnitAt(data: Bytes, p: nat, count: nat, k: nat)
    requires p + 2 * count <= |data| && k < count
    ensures UnitsAt(data, p, count)[k] == Unit16(data[p + 2 * k], data[p + 2 * k + 1])
  {
  }

  lemma DecodeStep(u: Units, i: nat, out: Bytes)
    requires i < |u|
    ensures i + 1 < |u| && IsHigh(u[i]) && IsLow(u[i + 1]) ==>
              out + Decode(u[i..]) == out + Utf8(Combine(u[i], u[i + 1])) + Decode(u[i + 2..])
    ensures !(i + 1 < |u| && IsHigh(u[i]) && IsLow(u[i + 1])) ==>
              out + Decode(u[i..]) == out + Utf8(u[i]) + Decode(u[i + 1..])
  {
    hide Utf8, Combine;
    var v := u[i..];
    assert v[1..] == u[i + 1..];
    if i + 1 < |u| && IsHigh(u[i]) && IsLow(u[i + 1]) {
      assert PairAt(v);
      assert v[2..] == u[i + 2..];
      Assoc(out, Utf8(Combine(u[i], u[i + 1])), Decode(u[i + 2..]));
    } else {
      Assoc(out, Utf8(u[i]), Decode(u[i + 1..]));
    }
  }

  lemma DecodeEnd(u: Units)
    requires u == []
    ensures Decode(u) == []
  {
  }

  // ---------------------------------------------------------------- the pickle form

  function Word16(u: Unit): Bytes { [u % 256, u / 256] }

  function Word32(n: nat): (b: Bytes)
    requires n < 0x1_0000_0000
    ensures |b| == 4
  {
    [n % 0x100, n / 0x100 % 0x100, n / 0x1_0000 % 0x100, n / 0x100_0000]
  }

  function Words16(u: Units): (b: Bytes)
    ensures |b| == 2 * |u|
  {
    if u == [] then [] else Word16(u[0]) + Words16(u[1..])
  }

  lemma Word32Reads(n: nat)
    requires n < 0x1_0000_0000
    ensures Unit32(Word32(n)) == n
  {
    assert n / 0x100 / 0x100 == n / 0x1_0000 && n / 0x1_0000 / 0x100 == n / 0x100_0000;
    assert Join(n / 0x1_0000 % 0x100, n / 0x100_0000) == n / 0x1_0000;
    assert Join(n / 0x100 % 0x100, n / 0x1_0000) == n / 0x100;
  }

  lemma CountReads(data: Bytes, p: nat, n: nat)
    requires n < 0x1_0000_0000 && At(data, p, Word32(n))
    ensures p + 4 <= |data| && CountAt(data, p) == n
  {
    hide Word32, Unit32;
    Word32Reads(n);
  }

  lemma {:induction false} Words16At(u: Units, k: nat)
    requires k < |u|
    ensures Words16(u)[2 * k] == u[k] % 256 && Words16(u)[2 * k + 1] == u[k] / 256
  {
    if k > 0 {
      Words16At(u[1..], k - 1);
    }
  }

  lemma PickledUnit(data: Bytes, p: nat, u: Units, k: nat)
    requires At(data, p, Words16(u)) && p + 2 * |u| <= |data| && k < |u|
    ensures UnitsAt(data, p, |u|)[k] == u[k]
  {
    hide Words16, At, Word16;
    Words16At(u, k);
    AtByte(data, p, Words16(u), 2 * k);
    AtByte(data, p, Words16(u), 2 * k + 1);
  }

  lemma UnitsRead(data: Bytes, p: nat, u: Units)
    requires At(data, p, Words16(u))
    ensures p + 2 * |u| <= |data| && UnitsAt(data, p, |u|) == u
  {
    hide Words16, UnitsAt;
    assert p + |Words16(u)| <= |data|;
    AllUnitsRead(data, p, u, UnitsAt(data, p, |u|));
  }

  lemma AllUnitsRead(data: Bytes, p: nat, u: Units, v: Units)
    requires At(data, p, Words16(u)) && p + 2 * |u| <= |data| && v == UnitsAt(data, p, |u|)
    ensures v == u
  {
    hide *;
    forall k | 0 <= k < |u|
      ensures v[k] == u[k]
    {
      PickledUnit(data, p, u, k);
    }
    assert |v| == |u|;
  }

  /** A pickled string is read back unit by unit. */
  lemma PickleReads(data: Bytes, p: nat, u: Units)
    requires |u| < 0x8000_0000 && At(data, p, Word32(|u|)) && At(data, p + 4, Words16(u))
    ensures p + 4 + 2 * |u| <= |data| && CountAt(data, p) == |u| && UnitsAt(data, p + 4, |u|) == u
  {
    hide *;
    CountReads(data, p, |u|);
    UnitsRead(data, p + 4, u);
  }

  // ---------------------------------------------------------------- code points

  type Point = c: int | 0 <= c < 0x11_0000

  /** RFC 3629 excludes the surrogates. */
  predicate IsScalar(c: Point) { !IsHigh(c) && !IsLow(c) }

  /** UTF-16 of one code point. */
  function UnitsOf(c: Point): Units {
    if c < 0x1_0000 then [c] else [0xD800 + (c - 0x1_0000) / 0x400, 0xDC00 + (c - 0x1_0000) % 0x400]
  }

  function AllUnits(points: seq<Point>): Units {
    if points == [] then [] else UnitsOf(points[0]) + AllUnits(points[1..])
  }

  function AllUtf8(points: seq<Point>): Bytes {
    if points == [] then [] else Utf8(points[0]) + AllUtf8(points[1..])
  }

  /** The code points of a unit string; a surrogate without its partner stands for itself. */
  function PointsOf(u: Units): seq<Point> {
    if u == [] then []
    else if PairAt(u) then [Combine(u[0], u[1])] + PointsOf(u[2..])
    else [u[0]] + PointsOf(u[1..])
  }

  lemma {:induction false} DecodeIsUtf8OfPoints(u: Units)
    ensures Decode(u) == AllUtf8(PointsOf(u))
  {
    hide Utf8, Combine;
    if u != [] {
      var rest := if PairAt(u) then u[2..] else u[1..];
      DecodeIsUtf8OfPoints(rest);
      assert PointsOf(u)[1..] == PointsOf(rest);
    }
  }

  lemma CombineSplits(high: Unit, low: Unit)
    requires IsHigh(high) && IsLow(low)
    ensures UnitsOf(Combine(high, low)) == [high, low]
  {
  }

  /** No information is lost in going to code points, whatever the units. */
  lemma {:induction false} UnitsOfPoints(u: Units)
    ensures AllUnits(PointsOf(u)) == u
  {
    hide Combine, UnitsOf;
    if u == [] {
    } else if PairAt(u) {
      UnitsOfPoints(u[2..]);
      CombineSplits(u[0], u[1]);
      assert PointsOf(u)[1..] == PointsOf(u[2..]);
      assert u == [u[0], u[1]] + u[2..];
    } else {
      UnitsOfPoints(u[1..]);
      SingleUnit(u[0]);
      assert PointsOf(u)[1..] == PointsOf(u[1..]);
      assert u == [u[0]] + u[1..];
    }
  }

  lemma SingleUnit(u: Unit)
    ensures UnitsOf(u) == [u]
  {
  }

  lemma SplitCombines(c: Point)
    requires c >= 0x1_0000
    ensures |UnitsOf(c)| == 2 && IsHigh(UnitsOf(c)[0]) && IsLow(UnitsOf(c)[1])
    ensures Combine(UnitsOf(c)[0], UnitsOf(c)[1]) == c
  {
  }

  lemma {:induction false} PointsOfUnits(points: seq<Point>)
    requires forall c <- points :: IsScalar(c)
    ensures PointsOf(AllUnits(points)) == points
  {
    hide Combine, UnitsOf;
    if points != [] {
      assert points[0] in points;
      var c, u := points[0], AllUnits(points);
      var rest := AllUnits(points[1..]);
      PointsOfUnits(points[1..]);
      if c >= 0x1_0000 {
        SplitCombines(c);
        assert u[2..] == rest;
      } else {
        SingleUnit(c);
        assert u[1..] == rest;
      }
    }
  }

  /** On well-formed UTF-16 the reader produces the UTF-8 of the same characters. */
  lemma Transcodes(points: seq<Point>)
    requires forall c <- points :: IsScalar(c)
    ensures Decode(AllUnits(points)) == AllUtf8(points)
  {
    PointsOfUnits(points);
    DecodeIsUtf8OfPoints(AllUnits(points));
  }

  // ---------------------------------------------------------------- UTF-8 tells code points apart

  /** The length that the first byte announces. */
  function Announced(b: Byte): nat {
    if b < 0x80 then 1 else if b < 0xE0 then 2 else if b < 0xF0 then 3 else 4
  }

  /** The templates of section 3 of RFC 3629, read backwards. */
  function PointOf(s: Bytes): int
    requires 1 <= |s| <= 4
  {
    if |s| == 1 then s[0]
    else if |s| == 2 then Place(s[0], 0xC0, 0x40) + Place(s[1], 0x80, 1)
    else if |s| == 3 then Place(s[0], 0xE0, 0x1000) + Place(s[1], 0x80, 0x40) + Place(s[2], 0x80, 1)
    else Place(s[0], 0xF0, 0x4_0000) + Place(s[1], 0x80, 0x1000) + Place(s[2], 0x80, 0x40) + Place(s[3], 0x80, 1)
  }

  /** The payload bits of a byte with marker `mark`, at their place value. */
  function Place(b: int, mark: int, weight: int): int { (b - mark) * weight }

  lemma Digits64(c: nat)
    ensures c == c / 0x1000 * 0x1000 + c / 0x40 % 0x40 * 0x40 + c % 0x40
    ensures c == c / 0x4_0000 * 0x4_0000 + c / 0x1000 % 0x40 * 0x1000 + c / 0x40 % 0x40 * 0x40 + c % 0x40
  {
    assert c / 0x40 / 0x40 == c / 0x1000;
    assert c / 0x1000 / 0x40 == c / 0x4_0000;
  }

  lemma Utf8Reads(c: Point)
    ensures Announced(Utf8(c)[0]) == |Utf8(c)| && PointOf(Utf8(c)) == c
    ensures forall i :: 1 <= i < |Utf8(c)| ==> 0x80 <= Utf8(c)[i] < 0xC0
  {
    Digits64(c);
  }

  lemma FirstPoint(c: Point, x: Bytes, d: Point, y: Bytes)
    requires Utf8(c) + x == Utf8(d) + y
    ensures c == d && x == y
  {
    hide Utf8, PointOf;
    Utf8Reads(c);
    Utf8Reads(d);
    var s := Utf8(c) + x;
    assert s[0] == Utf8(c)[0] == Utf8(d)[0];
    assert s[..|Utf8(c)|] == Utf8(c) && s[..|Utf8(d)|] == Utf8(d);
    assert s[|Utf8(c)|..] == x && s[|Utf8(d)|..] == y;
  }

  lemma {:induction false} AllUtf8Injective(a: seq<Point>, b: seq<Point>)
    requires AllUtf8(a) == AllUtf8(b)
    ensures a == b
  {
    hide Utf8;
    if a == [] || b == [] {
      assert a != [] ==> |AllUtf8(a)| > 0;
      assert b != [] ==> |AllUtf8(b)| > 0;
    } else {
      FirstPoint(a[0], AllUtf8(a[1..]), b[0], AllUtf8(b[1..]));
      AllUtf8Injective(a[1..], b[1..]);
      assert a == [a[0]] + a[1..] && b == [b[0]] + b[1..];
    }
  }

  /** Different unit strings, well formed or not, give different bytes. */
  lemma DecodeIsInjective(u: Units, v: Units)
    requires Decode(u) == Decode(v)
    ensures u == v
  {
    DecodeIsUtf8OfPoints(u);
    DecodeIsUtf8OfPoints(v);
    AllUtf8Injective(PointsOf(u), PointsOf(v));
    UnitsOfPoints(u);
    UnitsOfPoints(v);
  }

  // ---------------------------------------------------------------- the same units in a JSON string

  /** From `p` on, `t` spells each unit as a \u escape, in digits of either case, and closes the string. */
  predicate Spells(t: Bytes, p: nat, u: Units)
    decreases |u|
  {
    if u == [] then Sees(t, p, QUOTE)
    else
      && p + 6 <= |t| && t[p] == BACKSLASH && t[p + 1] == LETTER_U
      && Hex4(t, p + 2) == Done(u[0] as nat, p + 6)
      && Spells(t, p + 6, u[1..])
  }

  lemma PairStep(t: Bytes, p: nat, u: Units, out: Bytes)
    requires p <= |t| && Spells(t, p, u) && PairAt(u)
    ensures p + 12 <= |t| && Spells(t, p + 12, u[2..])
    ensures StringTail(t, p, out) == StringTail(t, p + 12, out + Utf8(Combine(u[0], u[1])))
  {
    hide Hex4, Utf8, Combine;
    assert Spells(t, p + 6, u[1..]);
    assert u[1..][1..] == u[2..] && u[1..][0] == u[1];
    assert UnicodeEscape(t, p + 2) == Done(Utf8(Combine(u[0], u[1])), p + 12);
    EscapeIs(t, p);
  }

  lemma EscapeIs(t: Bytes, p: nat)
    requires p + 6 <= |t| && t[p] == BACKSLASH && t[p + 1] == LETTER_U
    ensures EscapeSequence(t, p + 1) == UnicodeEscape(t, p + 2)
  {
  }

  lemma LoneStep(t: Bytes, p: nat, u: Units, out: Bytes)
    requires p <= |t| && Spells(t, p, u) && u != [] && !PairAt(u)
    ensures p + 6 <= |t| && Spells(t, p + 6, u[1..])
    ensures StringTail(t, p, out) == StringTail(t, p + 6, out + Utf8(u[0]))
  {
    hide Hex4, Utf8, Combine;
    EscapeIs(t, p);
    if |u| > 1 {
      assert u[1..][0] == u[1];
      assert Hex4(t, p + 8).Done? && Hex4(t, p + 8).value == u[1];
    } else {
      assert u[1..] == [];
    }
    assert UnicodeEscape(t, p + 2) == Done(Utf8(u[0]), p + 6);
  }

  /** The JSON parser and read_string16 agree on every unit string. */
  lemma {:induction false} SpellingParses(t: Bytes, p: nat, u: Units, out: Bytes)
    requires p <= |t| && Spells(t, p, u)
    ensures StringTail(t, p, out) == Done(out + Decode(u), p + 6 * |u| + 1)
    decreases |u|
  {
    hide EscapeSequence, Hex4, Utf8, Combine;
    if u == [] {
      assert out + [] == out;
    } else if PairAt(u) {
      PairStep(t, p, u, out);
      var bytes := Utf8(Combine(u[0], u[1]));
      SpellingParses(t, p + 12, u[2..], out + bytes);
      Assoc(out, bytes, Decode(u[2..]));
    } else {
      LoneStep(t, p, u, out);
      SpellingParses(t, p + 6, u[1..], out + Utf8(u[0]));
      Assoc(out, Utf8(u[0]), Decode(u[1..]));
    }
  }

  /** The document "\uXXXX...": parsing it gives what read_string16 gives on the same units. */
  lemma DocumentOfUnits(c: DoubleText, t: Bytes, u: Units)
    requires Sees(t, 0, QUOTE) && Spells(t, 1, u) && |t| == 6 * |u| + 2
    ensures Parse(c, t) == Ok(String(Decode(u)))
  {
    hide StringTail, Decode;
    SpellingParses(t, 1, u, []);
    assert [] + Decode(u) == Decode(u);
    assert t[0] != 0xEF;
    assert |t| >= 3 ==> t[..3][0] == t[0];
  }

  /** Such documents exist for every unit string. */
  function Spelling(u: Units): Bytes {
    if u == [] then [QUOTE]
    else
      [BACKSLASH, LETTER_U, HexDigit(u[0] / 0x1000), HexDigit(u[0] / 0x100 % 16),
       HexDigit(u[0] / 16 % 16), HexDigit(u[0] % 16)] + Spelling(u[1..])
  }

  lemma HexDigitReads(n: nat)
    requires n < 16
    ensures HexValue(HexDigit(n)) == Some(n)
  {
  }

  lemma Hex4Reads(t: Bytes, p: nat, u: Unit)
    requires p + 4 <= |t|
    requires t[p] == HexDigit(u / 0x1000) && t[p + 1] == HexDigit(u / 0x100 % 16)
    requires t[p + 2] == HexDigit(u / 16 % 16) && t[p + 3] == HexDigit(u % 16)
    ensures Hex4(t, p) == Done(u as nat, p + 4)
  {
    hide HexDigit, HexValue;
    var a, b, c, d := u / 0x1000, u / 0x100 % 16, u / 16 % 16, u % 16;
    HexDigitReads(a);
    HexDigitReads(b);
    HexDigitReads(c);
    HexDigitReads(d);
    assert HexDigits(t, p + 4, 0, ((a * 16 + b) * 16 + c) * 16 + d) == Done(u as nat, p + 4) by {
      assert u / 0x100 / 16 == u / 0x1000 && u / 16 / 16 == u / 0x100;
    }
    assert HexDigits(t, p + 3, 1, (a * 16 + b) * 16 + c) == Done(u as nat, p + 4);
    assert HexDigits(t, p + 2, 2, a * 16 + b) == Done(u as nat, p + 4);
    assert HexDigits(t, p + 1, 3, a) == Done(u as nat, p + 4);
  }

  lemma {:induction false} SpellingSpells(before: Bytes, u: Units)
    ensures Spells(before + Spelling(u), |before|, u)
    ensures |Spelling(u)| == 6 * |u| + 1
    decreases |u|
  {
    hide Hex4, HexDigit;
    var t := before + Spelling(u);
    if u != [] {
      var head := Spelling(u)[..6];
      SpellingSpells(before + head, u[1..]);
      SpellingHead(before, u, head);
      Hex4Reads(t, |before| + 2, u[0]);
    }
  }

  lemma SpellingHead(before: Bytes, u: Units, head: Bytes)
    requires u != [] && |Spelling(u)| >= 6 && head == Spelling(u)[..6]
    ensures before + head + Spelling(u[1..]) == before + Spelling(u)
  {
    assert Spelling(u) == head + Spelling(u[1..]);
    Assoc(before, head, Spelling(u[1..]));
  }

  /** For every unit string: the JSON round through \u escapes is read_string16. */
  lemma JsonAgreesWithReader(c: DoubleText, u: Units)
    ensures Parse(c, [QUOTE] + Spelling(u)) == Ok(String(Decode(u)))
  {
    SpellingSpells([QUOTE], u);
    DocumentOfUnits(c, [QUOTE] + Spelling(u), u);
  }
}
