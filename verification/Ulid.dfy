/** Sortable identifiers (src/core/ulid.cpp). */
module Ulid {
  import opened Base

  const TIMESTAMP_CHARS := 10
  const ULID_LENGTH := 26

  /** Crockford base32. */
  function Alphabet(): (a: Bytes)
    ensures |a| == 32
  {
    Ascii("0123456789ABCDEFGHJKMNPQRSTVWXYZ")
  }

  function Digit(v: nat): Byte
    requires v < 32
  {
    Alphabet()[v]
  }

  predicate IsLower(c: Byte) { 0x61 <= c <= 0x7A }

  /** The search over the letters of the alphabet. */
  function FindLetter(upper: Byte, i: nat): (r: int)
    requires 10 <= i <= 32
    ensures -1 <= r < 32
    decreases 32 - i
  {
    if i == 32 then -1 else if Alphabet()[i] == upper then i else FindLetter(upper, i + 1)
  }

  /** decode_char: either case, with i and l read as 1 and o as 0. */
  function DecodeChar(c: Byte): (r: int)
    ensures -1 <= r < 32
  {
    if 0x30 <= c <= 0x39 then c - 0x30
    else if c == 0x69 || c == 0x49 || c == 0x6C || c == 0x4C then 1
    else if c == 0x6F || c == 0x4F then 0
    else FindLetter(if IsLower(c) then c - 32 else c, 10)
  }

  // ---------------------------------------------------------------- numbers as digits

  function Power32(n: nat): (p: nat)
    ensures p > 0
  {
    if n == 0 then 1 else 32 * Power32(n - 1)
  }

  /** The last `width` base-32 digits of `v`, highest first. */
  function Digits(v: nat, width: nat): (d: Bytes)
    ensures |d| == width
  {
    if width == 0 then [] else Digits(v / 32, width - 1) + [Digit(v % 32)]
  }

  const TIMES := 0x1_0000_0000_0000
  const WORDS := 0x100_0000_0000

  /** generate_ulid from a time in milliseconds and two random words. */
  function Generate(millis: int, hi: nat, lo: nat): (u: Bytes)
    ensures |u| == ULID_LENGTH
  {
    Digits((if millis < 0 then 0 else millis) % TIMES, 10) + Digits(hi % WORDS, 8) + Digits(lo % WORDS, 8)
  }

  predicate IsValid(text: Bytes) {
    && |text| == ULID_LENGTH
    && (forall i :: 0 <= i < |text| ==> DecodeChar(text[i]) >= 0)
    && DecodeChar(text[0]) <= 7
  }

  /** The value of a run of digits, or None at the first byte that is none. */
  function Value(text: Bytes): Option<nat> {
    if text == [] then Some(0)
    else
      var n := |text| - 1;
      match Value(text[..n])
      case None => None
      case Some(v) => if DecodeChar(text[n]) < 0 then None else Some(32 * v + DecodeChar(text[n]))
  }

  /** ulid_timestamp: zero for a text that has none. */
  function TimestampOf(text: Bytes): nat {
    if |text| < TIMESTAMP_CHARS then 0
    else
      match Value(text[..TIMESTAMP_CHARS])
      case None => 0
      case Some(v) => v
  }

  // ---------------------------------------------------------------- single characters

  /** The alphabet skips I, L, O and U. */
  function Letter(i: nat): int {
    if i < 10 then 0x30 + i
    else if i < 18 then 55 + i
    else if i < 20 then 56 + i
    else if i < 22 then 57 + i
    else if i < 27 then 58 + i
    else 59 + i
  }

  lemma AlphabetAt(i: nat)
    requires i < 32
    ensures Alphabet()[i] == Letter(i)
  {
  }

  lemma AlphabetOrdered(i: nat, j: nat)
    requires i < j < 32
    ensures Alphabet()[i] < Alphabet()[j]
  {
    hide Alphabet;
    AlphabetAt(i);
    AlphabetAt(j);
  }

  lemma {:induction false} LetterFound(v: nat, i: nat)
    requires 10 <= i <= v < 32
    ensures FindLetter(Alphabet()[v], i) == v
    decreases v - i
  {
    hide Alphabet;
    if i < v {
      AlphabetOrdered(i, v);
      LetterFound(v, i + 1);
    }
  }

  /** Every digit decodes to its value. */
  lemma DigitDecodes(v: nat)
    requires v < 32
    ensures DecodeChar(Digit(v)) == v
  {
    hide Alphabet, FindLetter;
    AlphabetAt(v);
    if v >= 10 {
      LetterFound(v, 10);
    }
  }

  /** Either case of a letter decodes to the same value. */
  lemma CaseDoesNotMatter(c: Byte)
    requires IsLower(c)
    ensures DecodeChar(c) == DecodeChar(c - 32)
  {
    hide FindLetter;
  }

  // ---------------------------------------------------------------- round trip

  lemma {:induction false} DigitsRead(v: nat, width: nat)
    requires v < Power32(width)
    ensures Value(Digits(v, width)) == Some(v)
  {
    hide Digit, DecodeChar;
    if width > 0 {
      DigitsRead(v / 32, width - 1);
      DigitDecodes(v % 32);
      assert Digits(v, width)[..width - 1] == Digits(v / 32, width - 1);
    }
  }

  lemma {:induction false} DigitsAreDigits(v: nat, width: nat, i: nat)
    requires i < width
    ensures DecodeChar(Digits(v, width)[i]) >= 0
  {
    hide Digit, DecodeChar;
    if i < width - 1 {
      DigitsAreDigits(v / 32, width - 1, i);
    } else {
      DigitDecodes(v % 32);
    }
  }

  lemma {:induction false} FirstDigit(v: nat, width: nat, bound: nat)
    requires width > 0 && v < bound * Power32(width - 1) && bound <= 32
    ensures DecodeChar(Digits(v, width)[0]) < bound
  {
    hide Digit, DecodeChar;
    if width == 1 {
      DigitDecodes(v % 32);
    } else {
      assert bound * Power32(width - 1) == 32 * (bound * Power32(width - 2));
      FirstDigit(v / 32, width - 1, bound);
    }
  }

  lemma Powers()
    ensures Power32(8) == WORDS && 8 * Power32(9) == TIMES && TIMES <= Power32(10)
  {
    assert Power32(4) == 0x10_0000;
    assert Power32(7) == 0x8_0000_0000;
  }

  /** A generated id is valid and gives its time back. */
  lemma GeneratedIsValid(millis: int, hi: nat, lo: nat)
    ensures IsValid(Generate(millis, hi, lo))
    ensures 0 <= millis < TIMES ==> TimestampOf(Generate(millis, hi, lo)) == millis
  {
    hide Digits, DecodeChar, Value;
    var u := Generate(millis, hi, lo);
    var t: nat := (if millis < 0 then 0 else millis) % TIMES;
    var a, b, c := Digits(t, 10), Digits(hi % WORDS, 8), Digits(lo % WORDS, 8);
    Powers();
    FirstDigit(t, 10, 8);
    DigitsRead(t, 10);
    assert u[..10] == a;
    forall i | 0 <= i < |u|
      ensures DecodeChar(u[i]) >= 0
    {
      if i < 10 {
        DigitsAreDigits(t, 10, i);
      } else if i < 18 {
        DigitsAreDigits(hi % WORDS, 8, i - 10);
      } else {
        DigitsAreDigits(lo % WORDS, 8, i - 18);
      }
    }
  }

  // ---------------------------------------------------------------- order

  /** Lexicographic order of byte strings, as std::string compares. */
  predicate Less(a: Bytes, b: Bytes) {
    if b == [] then false
    else if a == [] then true
    else a[0] < b[0] || (a[0] == b[0] && Less(a[1..], b[1..]))
  }

  lemma {:induction false} LessAppend(a: Bytes, b: Bytes, x: Bytes, y: Bytes)
    requires |a| == |b|
    ensures Less(a + x, b + y) <==> Less(a, b) || (a == b && Less(x, y))
  {
    if a == [] {
      assert a + x == x && b + y == y;
    } else {
      assert (a + x)[0] == a[0] && (b + y)[0] == b[0];
      assert (a + x)[1..] == a[1..] + x && (b + y)[1..] == b[1..] + y;
      LessAppend(a[1..], b[1..], x, y);
      assert a == [a[0]] + a[1..] && b == [b[0]] + b[1..];
    }
  }

  lemma DigitOrder(v: nat, w: nat)
    requires v < 32 && w < 32
    ensures Digit(v) < Digit(w) <==> v < w
    ensures Digit(v) == Digit(w) <==> v == w
  {
    hide Alphabet;
    if v < w {
      AlphabetOrdered(v, w);
    } else if w < v {
      AlphabetOrdered(w, v);
    }
  }

  /** Fixed-width digits order as the numbers do. */
  lemma {:induction false} DigitsOrder(v: nat, w: nat, width: nat)
    requires v < Power32(width) && w < Power32(width)
    ensures Less(Digits(v, width), Digits(w, width)) <==> v < w
    ensures Digits(v, width) == Digits(w, width) <==> v == w
  {
    hide Digit;
    if width > 0 {
      var a, b := Digits(v / 32, width - 1), Digits(w / 32, width - 1);
      DigitsOrder(v / 32, w / 32, width - 1);
      DigitOrder(v % 32, w % 32);
      hide Less;
      LessAppend(a, b, [Digit(v % 32)], [Digit(w % 32)]);
      LessOne(Digit(v % 32), Digit(w % 32));
      assert Digits(v, width)[..width - 1] == a && Digits(w, width)[..width - 1] == b;
      assert Digits(v, width)[width - 1] == Digit(v % 32) && Digits(w, width)[width - 1] == Digit(w % 32);
    }
  }

  lemma LessOne(x: Byte, y: Byte)
    ensures Less([x], [y]) <==> x < y
  {
    assert [x][1..] == [] && [y][1..] == [];
  }

  /** The order of (time, high word, low word). */
  predicate Before(t: nat, hi: nat, lo: nat, u: nat, hj: nat, lp: nat) {
    t < u || (t == u && (hi < hj || (hi == hj && lo < lp)))
  }

  /** Ids sort by time, then by the random words, and two are equal only when all three agree. */
  lemma SortsByTime(t: nat, hi: nat, lo: nat, u: nat, hj: nat, lp: nat)
    requires t < TIMES && u < TIMES
    ensures Less(Generate(t, hi, lo), Generate(u, hj, lp)) <==>
            Before(t, hi % WORDS, lo % WORDS, u, hj % WORDS, lp % WORDS)
    ensures Generate(t, hi, lo) == Generate(u, hj, lp) <==> t == u && hi % WORDS == hj % WORDS && lo % WORDS == lp % WORDS
  {
    Powers();
    DigitsOrder(t, u, 10);
    DigitsOrder(hi % WORDS, hj % WORDS, 8);
    DigitsOrder(lo % WORDS, lp % WORDS, 8);
    GenerateIs(t, hi, lo);
    GenerateIs(u, hj, lp);
    hide *;
    LessThree(Digits(t, 10), Digits(hi % WORDS, 8), Digits(lo % WORDS, 8), Digits(u, 10), Digits(hj % WORDS, 8), Digits(lp % WORDS, 8));
    BeforeIs(t, hi % WORDS, lo % WORDS, u, hj % WORDS, lp % WORDS);
  }

  lemma BeforeIs(t: nat, hi: nat, lo: nat, u: nat, hj: nat, lp: nat)
    ensures Before(t, hi, lo, u, hj, lp) <==> t < u || (t == u && (hi < hj || (hi == hj && lo < lp)))
  {
  }

  lemma GenerateIs(t: nat, hi: nat, lo: nat)
    requires t < TIMES
    ensures Generate(t, hi, lo) == Digits(t, 10) + Digits(hi % WORDS, 8) + Digits(lo % WORDS, 8)
  {
    hide Digits;
    assert t % TIMES == t;
  }

  lemma LessThree(a: Bytes, b: Bytes, c: Bytes, d: Bytes, e: Bytes, f: Bytes)
    requires |a| == |d| && |b| == |e| && |c| == |f|
    ensures Less(a + b + c, d + e + f) <==> Less(a, d) || (a == d && (Less(b, e) || (b == e && Less(c, f))))
    ensures a + b + c == d + e + f <==> a == d && b == e && c == f
  {
    hide Less;
    LessAppend(a + b, d + e, c, f);
    LessAppend(a, d, b, e);
    Parts(a, b, c, d, e, f);
  }

  lemma Parts(a: Bytes, b: Bytes, c: Bytes, d: Bytes, e: Bytes, f: Bytes)
    requires |a| == |d| && |b| == |e| && |c| == |f|
    ensures a + b == d + e <==> a == d && b == e
    ensures a + b + c == d + e + f <==> a == d && b == e && c == f
  {
    assert (a + b)[..|a|] == a && (a + b)[|a|..] == b;
    assert (d + e)[..|d|] == d && (d + e)[|d|..] == e;
    assert (a + b + c)[..|a + b|] == a + b && (a + b + c)[|a + b|..] == c;
    assert (d + e + f)[..|d + e|] == d + e && (d + e + f)[|d + e|..] == f;
  }

  // ---------------------------------------------------------------- the methods

  /** One of the three loops of generate_ulid: `width` digits of `v` into `out` from `start` on. */
  method WriteDigits(out: array<Byte>, start: nat, width: nat, v: nat)
    requires start + width <= out.Length
    modifies out
    ensures out[..start] == old(out[..start]) && out[start + width..] == old(out[start + width..])
    ensures out[start..start + width] == Digits(v, width)
  {
    hide Digit;
    var rest: nat := v;
    var i: nat := width;
    assert Digits(v, width) == Digits(rest, i) + out[start + i..start + width];
    while i > 0
      invariant i <= width
      invariant out[..start] == old(out[..start]) && out[start + width..] == old(out[start + width..])
      invariant Digits(v, width) == Digits(rest, i) + out[start + i..start + width]
    {
      ghost var done := out[start + i..start + width];
      i := i - 1;
      out[start + i] := Digit(rest % 32);
      assert out[start + i..start + width] == [Digit(rest % 32)] + done;
      rest := rest / 32;
    }
  }

  method GenerateUlid(millis: int, hi: nat, lo: nat) returns (u: Bytes)
    ensures u == Generate(millis, hi, lo)
  {
    hide Digits;
    var t: nat := (if millis < 0 then 0 else millis) % TIMES;
    var out := new Byte[26](i => 0x30);
    WriteDigits(out, 0, 10, t);
    WriteDigits(out, 10, 8, hi % WORDS);
    assert out[..10] == Digits(t, 10);
    ghost var front := out[..18];
    assert front == out[..10] + out[10..18];
    WriteDigits(out, 18, 8, lo % WORDS);
    assert out[..] == out[..18] + out[18..26];
    u := out[..];
  }

  method ReadTimestamp(text: Bytes) returns (millis: nat)
    ensures millis == TimestampOf(text)
  {
    hide DecodeChar;
    if |text| < TIMESTAMP_CHARS {
      return 0;
    }
    var head := text[..TIMESTAMP_CHARS];
    millis := 0;
    for i := 0 to TIMESTAMP_CHARS
      invariant Value(head[..i]) == Some(millis)
    {
      assert head[..i + 1][..i] == head[..i];
      if DecodeChar(text[i]) < 0 {
        BadDigit(head, i + 1);
        return 0;
      }
      millis := 32 * millis + DecodeChar(text[i]);
    }
    assert head[..TIMESTAMP_CHARS] == head;
  }

  lemma {:induction false} BadDigit(text: Bytes, n: nat)
    requires n <= |text| && Value(text[..n]) == None
    ensures Value(text) == None
    decreases |text| - n
  {
    hide DecodeChar;
    if n < |text| {
      assert text[..n + 1][..n] == text[..n];
      BadDigit(text, n + 1);
    } else {
      assert text[..n] == text;
    }
  }
}
