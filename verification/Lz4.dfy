/** The LZ4 block decoder and the mozlz4 wrapper (src/browser/session_firefox.cpp:17-63, 119-140). */
module Lz4 {
  import opened Base

  // ---------------------------------------------------------------- the block format

  /** Literals, then a match of `length` bytes starting `offset` back. */
  datatype Sequence = Sequence(literals: Bytes, offset: nat, length: nat)

  /** The closing literals and the ignored low nibble of their token. */
  datatype Tail = Tail(literals: Bytes, nibble: nat)

  /** A block ends in literals, or, as this decoder also takes it, right after a match. */
  datatype Block = Block(sequences: seq<Sequence>, tail: Option<Tail>)

  function Nibble(n: nat): (k: nat)
    ensures k < 16
  {
    if n < 15 then n else 15
  }

  function ExtraBytes(n: nat): Bytes { if n < 255 then [n] else [255] + ExtraBytes(n - 255) }

  /** The bytes that carry what does not fit the token. */
  function Extra(n: nat): Bytes { if n < 15 then [] else ExtraBytes(n - 15) }

  function EncodeSequence(s: Sequence): Bytes
    requires 0 < s.offset < 65536 && s.length >= 4
  {
    [16 * Nibble(|s.literals|) + Nibble(s.length - 4)]
    + (Extra(|s.literals|) + (s.literals + ([s.offset % 256, s.offset / 256] + Extra(s.length - 4))))
  }

  function EncodeTail(t: Tail): Bytes
    requires t.nibble < 16
  {
    [16 * Nibble(|t.literals|) + t.nibble] + (Extra(|t.literals|) + t.literals)
  }

  /** Overlapping copies repeat the last `offset` bytes with that period. */
  function Copy(out: Bytes, offset: nat, length: nat): (r: Bytes)
    requires 0 < offset <= |out|
    ensures |r| == |out| + length
  {
    out + seq(length, k requires 0 <= k < length => out[|out| - offset + k % offset])
  }

  predicate ValidSequence(s: Sequence, out: Bytes) {
    0 < s.offset < 65536 && s.length >= 4 && s.offset <= |out + s.literals|
  }

  function Apply(s: Sequence, out: Bytes): Bytes
    requires ValidSequence(s, out)
  {
    Copy(out + s.literals, s.offset, s.length)
  }

  /** `b` makes sense when `out` has been produced before it. */
  predicate Valid(b: Block, out: Bytes)
    decreases |b.sequences|
  {
    if b.sequences == [] then b.tail.Some? ==> b.tail.value.nibble < 16
    else
      var s := b.sequences[0];
      ValidSequence(s, out) && Valid(b.(sequences := b.sequences[1..]), Apply(s, out))
  }

  function Encode(b: Block, out: Bytes): Bytes
    requires Valid(b, out)
    decreases |b.sequences|
  {
    if b.sequences == [] then (match b.tail case Some(t) => EncodeTail(t) case None => [])
    else
      var s := b.sequences[0];
      EncodeSequence(s) + Encode(b.(sequences := b.sequences[1..]), Apply(s, out))
  }

  function Expand(b: Block, out: Bytes): Bytes
    requires Valid(b, out)
    decreases |b.sequences|
  {
    if b.sequences == [] then (match b.tail case Some(t) => out + t.literals case None => out)
    else
      var s := b.sequences[0];
      Expand(b.(sequences := b.sequences[1..]), Apply(s, out))
  }

  // ---------------------------------------------------------------- the decoder

  datatype Length = Length(value: nat, rest: Bytes)

  function ReadExtra(rest: Bytes, value: nat): (r: Option<Length>)
    ensures r.Some? ==> |r.value.rest| < |rest|
  {
    if rest == [] then None
    else if rest[0] == 255 then ReadExtra(rest[1..], value + 255)
    else Some(Length(value + rest[0], rest[1..]))
  }

  function ReadLength(nibble: nat, rest: Bytes): (r: Option<Length>)
    ensures r.Some? ==> |r.value.rest| <= |rest|
  {
    if nibble == 15 then ReadExtra(rest, 15) else Some(Length(nibble, rest))
  }

  function Decode(rest: Bytes, out: Bytes): Option<Bytes>
    decreases |rest|
  {
    if rest == [] then Some(out)
    else
      match ReadLength(rest[0] / 16, rest[1..])
      case None => None
      case Some(Length(n, r)) =>
        if n > |r| then None
        else if n == |r| then Some(out + r)
        else DecodeMatch(rest[0] % 16, r[n..], out + r[..n])
  }

  /** The match half of a sequence. */
  function DecodeMatch(nibble: nat, rest: Bytes, out: Bytes): Option<Bytes>
    decreases |rest|
  {
    if |rest| < 2 then None
    else
      var offset: int := Join(rest[0], rest[1]);
      if offset == 0 || offset > |out| then None
      else
        match ReadLength(nibble, rest[2..])
        case None => None
        case Some(Length(m, r)) => Decode(r, Copy(out, offset, m + 4))
  }

  // ---------------------------------------------------------------- completeness

  lemma {:induction false} ReadExtraBytes(n: nat, value: nat, rest: Bytes)
    ensures ReadExtra(ExtraBytes(n) + rest, value) == Some(Length(value + n, rest))
    decreases n
  {
    var s := ExtraBytes(n) + rest;
    if n < 255 {
      assert s[1..] == rest;
    } else {
      assert s[1..] == ExtraBytes(n - 255) + rest;
      ReadExtraBytes(n - 255, value + 255, rest);
    }
  }

  lemma ReadsBack(n: nat, rest: Bytes)
    ensures ReadLength(Nibble(n), Extra(n) + rest) == Some(Length(n, rest))
  {
    if n < 15 {
      assert [] + rest == rest;
    } else {
      ReadExtraBytes(n - 15, 15, rest);
    }
  }

  lemma SequenceDecodes(s: Sequence, rest: Bytes, out: Bytes)
    requires ValidSequence(s, out)
    ensures Decode(EncodeSequence(s) + rest, out) == Decode(rest, Apply(s, out))
  {
    hide Extra, ReadLength, Copy, DecodeMatch;
    var pair := [s.offset % 256, s.offset / 256];
    var afterPair := Extra(s.length - 4) + rest;
    var afterLiterals := pair + afterPair;
    var afterExtra := s.literals + afterLiterals;
    var token := 16 * Nibble(|s.literals|) + Nibble(s.length - 4);
    var all := EncodeSequence(s) + rest;
    assert all == [token] + (Extra(|s.literals|) + afterExtra);
    assert all[1..] == Extra(|s.literals|) + afterExtra;
    assert token / 16 == Nibble(|s.literals|) && token % 16 == Nibble(s.length - 4);
    ReadsBack(|s.literals|, afterExtra);
    assert afterExtra[..|s.literals|] == s.literals && afterExtra[|s.literals|..] == afterLiterals;
    MatchDecodes(s, rest, out + s.literals, afterLiterals);
  }

  lemma MatchDecodes(s: Sequence, rest: Bytes, out: Bytes, all: Bytes)
    requires 0 < s.offset < 65536 && s.length >= 4 && s.offset <= |out|
    requires all == [s.offset % 256, s.offset / 256] + (Extra(s.length - 4) + rest)
    ensures DecodeMatch(Nibble(s.length - 4), all, out) == Decode(rest, Copy(out, s.offset, s.length))
  {
    hide Extra, ReadLength, Copy, Decode;
    assert all[2..] == Extra(s.length - 4) + rest;
    assert Join(all[0], all[1]) == s.offset;
    ReadsBack(s.length - 4, rest);
  }

  lemma TailDecodes(t: Tail, out: Bytes)
    requires t.nibble < 16
    ensures Decode(EncodeTail(t), out) == Some(out + t.literals)
  {
    hide Extra, ReadLength, DecodeMatch;
    var token := 16 * Nibble(|t.literals|) + t.nibble;
    assert EncodeTail(t)[1..] == Extra(|t.literals|) + t.literals;
    assert token / 16 == Nibble(|t.literals|);
    ReadsBack(|t.literals|, t.literals);
  }

  /** Every valid block decodes to its expansion. */
  lemma {:induction false} DecodeOfEncode(b: Block, out: Bytes)
    requires Valid(b, out)
    ensures Decode(Encode(b, out), out) == Some(Expand(b, out))
    decreases |b.sequences|
  {
    if b.sequences == [] {
      if b.tail.Some? {
        TailDecodes(b.tail.value, out);
      }
    } else {
      hide Decode, EncodeSequence;
      var s, rest := b.sequences[0], b.(sequences := b.sequences[1..]);
      SequenceDecodes(s, Encode(rest, Apply(s, out)), out);
      DecodeOfEncode(rest, Apply(s, out));
    }
  }

  // ---------------------------------------------------------------- soundness

  lemma {:induction false} ExtraBytesOf(rest: Bytes, value: nat)
    requires ReadExtra(rest, value).Some?
    ensures var l := ReadExtra(rest, value).value;
            l.value >= value && rest == ExtraBytes(l.value - value) + l.rest
    decreases |rest|
  {
    if rest[0] == 255 {
      ExtraBytesOf(rest[1..], value + 255);
      var l := ReadExtra(rest, value).value;
      assert rest == [255] + rest[1..];
      Assoc([255], ExtraBytes(l.value - value - 255), l.rest);
    }
  }

  lemma LengthOf(nibble: nat, rest: Bytes)
    requires nibble < 16 && ReadLength(nibble, rest).Some?
    ensures var l := ReadLength(nibble, rest).value;
            nibble == Nibble(l.value) && rest == Extra(l.value) + l.rest
  {
    if nibble == 15 {
      ExtraBytesOf(rest, 15);
    } else {
      assert [] + rest == rest;
    }
  }

  lemma TailBytes(rest: Bytes, l: Length)
    requires rest != [] && ReadLength(rest[0] / 16, rest[1..]) == Some(l) && l.value == |l.rest|
    ensures EncodeTail(Tail(l.rest, rest[0] % 16)) == rest
  {
    hide ReadLength, Extra;
    LengthOf(rest[0] / 16, rest[1..]);
    assert rest == [rest[0]] + rest[1..];
  }

  /** Whatever is accepted is the encoding of a valid block, and the result is its expansion. */
  lemma {:induction false} EncodeOfDecode(rest: Bytes, out: Bytes) returns (b: Block)
    requires Decode(rest, out).Some?
    ensures Valid(b, out) && Encode(b, out) == rest && Decode(rest, out) == Some(Expand(b, out))
    decreases |rest|
  {
    hide ReadLength, DecodeMatch, EncodeTail;
    if rest == [] {
      b := Block([], None);
    } else {
      var l := ReadLength(rest[0] / 16, rest[1..]).value;
      if l.value == |l.rest| {
        TailBytes(rest, l);
        b := Block([], Some(Tail(l.rest, rest[0] % 16)));
      } else {
        b := MatchOfDecode(rest, l, out);
      }
    }
  }

  lemma {:induction false} MatchOfDecode(rest: Bytes, l: Length, out: Bytes) returns (b: Block)
    requires rest != [] && ReadLength(rest[0] / 16, rest[1..]) == Some(l) && l.value < |l.rest|
    requires Decode(rest, out).Some?
    ensures Valid(b, out) && Encode(b, out) == rest && Decode(rest, out) == Some(Expand(b, out))
    decreases |rest|, 0
  {
    var literals, r := l.rest[..l.value], l.rest[l.value..];
    var m := ReadLength(rest[0] % 16, r[2..]).value;
    var s := Sequence(literals, Join(r[0], r[1]), m.value + 4);
    var tail := EncodeOfDecode(m.rest, Apply(s, out));
    b := Block([s] + tail.sequences, tail.tail);
    assert b.(sequences := b.sequences[1..]) == tail;
    SequenceBytes(rest, l, m, s);
  }

  lemma SequenceBytes(rest: Bytes, l: Length, m: Length, s: Sequence)
    requires rest != [] && ReadLength(rest[0] / 16, rest[1..]) == Some(l) && l.value + 2 <= |l.rest|
    requires var r := l.rest[l.value..];
             && ReadLength(rest[0] % 16, r[2..]) == Some(m)
             && s == Sequence(l.rest[..l.value], Join(r[0], r[1]), m.value + 4) && s.offset > 0
    ensures EncodeSequence(s) + m.rest == rest
  {
    hide Extra, ReadLength;
    var r := l.rest[l.value..];
    LengthOf(rest[0] / 16, rest[1..]);
    LengthOf(rest[0] % 16, r[2..]);
    var pair := [s.offset % 256, s.offset / 256];
    assert pair == r[..2];
    Gather([rest[0]], Extra(l.value), s.literals, pair, Extra(m.value), m.rest);
    assert r == pair + (Extra(m.value) + m.rest);
    assert l.rest == s.literals + r;
    assert rest == [rest[0]] + rest[1..];
  }

  lemma Gather(a: Bytes, b: Bytes, c: Bytes, d: Bytes, e: Bytes, f: Bytes)
    ensures (a + (b + (c + (d + e)))) + f == a + (b + (c + (d + (e + f))))
  {
    Assoc(a, b + (c + (d + e)), f);
    Assoc(b, c + (d + e), f);
    Assoc(c, d + e, f);
    Assoc(d, e, f);
  }

  /** The decoder accepts exactly the encodings of valid blocks. */
  lemma AcceptsExactlyBlocks(input: Bytes)
    ensures Decode(input, []).Some? <==> exists b :: Valid(b, []) && Encode(b, []) == input
    ensures forall b :: Valid(b, []) && Encode(b, []) == input ==> Decode(input, []) == Some(Expand(b, []))
  {
    if Decode(input, []).Some? {
      var b := EncodeOfDecode(input, []);
    }
    forall b | Valid(b, []) && Encode(b, []) == input
      ensures Decode(input, []) == Some(Expand(b, []))
    {
      DecodeOfEncode(b, []);
    }
  }

  // ---------------------------------------------------------------- size

  lemma {:induction false} ExtraBound(rest: Bytes, value: nat)
    requires ReadExtra(rest, value).Some?
    ensures var l := ReadExtra(rest, value).value;
            l.value <= value + 255 * (|rest| - |l.rest|)
    decreases |rest|
  {
    if rest[0] == 255 {
      ExtraBound(rest[1..], value + 255);
    }
  }

  lemma LengthBound(nibble: nat, rest: Bytes)
    requires nibble < 16 && ReadLength(nibble, rest).Some?
    ensures var l := ReadLength(nibble, rest).value;
            l.value <= 15 + 255 * (|rest| - |l.rest|)
  {
    if nibble == 15 {
      ExtraBound(rest, 15);
    }
  }

  /** No input grows more than 255-fold. */
  lemma {:induction false} ExpansionBound(rest: Bytes, out: Bytes)
    requires Decode(rest, out).Some?
    ensures |Decode(rest, out).value| <= |out| + 255 * |rest|
    decreases |rest|
  {
    if rest != [] {
      var l := ReadLength(rest[0] / 16, rest[1..]).value;
      if l.value < |l.rest| {
        MatchBound(rest[0] % 16, l.rest[l.value..], out + l.rest[..l.value]);
      }
    }
  }

  lemma {:induction false} MatchBound(nibble: nat, rest: Bytes, out: Bytes)
    requires nibble < 16 && DecodeMatch(nibble, rest, out).Some?
    ensures |DecodeMatch(nibble, rest, out).value| <= |out| + 255 * |rest|
    decreases |rest|
  {
    var m := ReadLength(nibble, rest[2..]).value;
    LengthBound(nibble, rest[2..]);
    ExpansionBound(m.rest, Copy(out, Join(rest[0], rest[1]), m.value + 4));
  }

  /** In a copy, every new byte repeats the one `offset` before it. */
  lemma CopyRepeats(out: Bytes, offset: nat, length: nat, k: nat)
    requires 0 < offset <= |out| && |out| <= k < |out| + length
    ensures Copy(out, offset, length)[k] == Copy(out, offset, length)[k - offset]
  {
    hide *;
    var i := k - |out|;
    CopyAt(out, offset, length, k);
    CopyAt(out, offset, length, k - offset);
    if i >= offset {
      ModShift(i, offset);
    } else {
      SmallMod(i, offset);
    }
  }

  lemma SmallMod(i: nat, n: nat)
    requires i < n
    ensures i % n == i
  {
  }

  lemma CopyAt(out: Bytes, offset: nat, length: nat, k: nat)
    requires 0 < offset <= |out| && k < |out| + length
    ensures k < |out| ==> Copy(out, offset, length)[k] == out[k]
    ensures k >= |out| ==>
              0 <= (k - |out|) % offset < offset && Copy(out, offset, length)[k] == out[|out| - offset + (k - |out|) % offset]
  {
  }

  lemma ModShift(i: nat, n: nat)
    requires 0 < n <= i
    ensures (i - n) % n == i % n
  {
    var q, r := (i - n) / n, (i - n) % n;
    assert i == (q + 1) * n + r;
    QuotientUnique(i, n, q + 1, r);
  }

  lemma QuotientUnique(i: nat, n: nat, q: nat, r: nat)
    requires n > 0 && r < n && i == q * n + r
    ensures i % n == r
  {
    var d: int := q - i / n;
    assert i == i / n * n + i % n;
    assert d * n == i % n - r;
    MultipleSize(d, n);
  }

  lemma MultipleSize(d: int, n: int)
    requires n > 0
    ensures d >= 1 ==> d * n >= n
    ensures d <= -1 ==> d * n <= -n
  {
  }

  // ---------------------------------------------------------------- the loop

  /** The do-while that adds up length bytes. */
  method AddExtra(input: Bytes, start: nat, base: nat) returns (ok: bool, value: nat, position: nat)
    requires start <= |input|
    ensures position <= |input|
    ensures ok == ReadExtra(input[start..], base).Some?
    ensures ok ==> position > start && ReadExtra(input[start..], base) == Some(Length(value, input[position..]))
  {
    position, value := start, base;
    while true
      invariant start <= position <= |input|
      invariant ReadExtra(input[start..], base) == ReadExtra(input[position..], value)
      decreases |input| - position
    {
      if position >= |input| {
        return false, value, position;
      }
      var extra := input[position];
      assert input[position..][1..] == input[position + 1..];
      position := position + 1;
      value := value + extra;
      if extra != 255 {
        return true, value, position;
      }
    }
  }

  method LengthAt(input: Bytes, start: nat, nibble: nat) returns (ok: bool, value: nat, position: nat)
    requires start <= |input|
    ensures position <= |input|
    ensures ok == ReadLength(nibble, input[start..]).Some?
    ensures ok ==> position >= start && ReadLength(nibble, input[start..]) == Some(Length(value, input[position..]))
  {
    if nibble == 15 {
      ok, value, position := AddExtra(input, start, 15);
    } else {
      return true, nibble, start;
    }
  }

  /** The copying loop reads back from the bytes it has just written. */
  method CopyMatch(before: Bytes, offset: nat, length: nat) returns (out: Bytes)
    requires 0 < offset <= |before|
    ensures out == Copy(before, offset, length)
  {
    var start := |before| - offset;
    out := before;
    ghost var whole := Copy(before, offset, length);
    for i := 0 to length
      invariant out == whole[..|before| + i]
    {
      CopyRepeats(before, offset, length, |before| + i);
      out := out + [out[start + i]];
    }
  }

  lemma JoinNotNegative()
    ensures forall low, high :: 0 <= low && 0 <= high ==> Join(low, high) >= 0
  {
  }

  /** lz4_block_decompress */
  method Decompress(input: Bytes) returns (ok: bool, out: Bytes)
    ensures ok == Decode(input, []).Some?
    ensures ok ==> Decode(input, []) == Some(out)
  {
    hide Copy, ReadLength, Join;
    var position := 0;
    JoinNotNegative();
    out := [];
    assert input[0..] == input;
    while position < |input|
      invariant 0 <= position <= |input| && Decode(input, []) == Decode(input[position..], out)
    {
      var token := input[position];
      assert input[position..][1..] == input[position + 1..];
      position := position + 1;
      var literalLength;
      ok, literalLength, position := LengthAt(input, position, token / 16);
      if !ok || position + literalLength > |input| {
        return false, out;
      }
      ghost var r := input[position..];
      assert r[..literalLength] == input[position..position + literalLength];
      assert r[literalLength..] == input[position + literalLength..];
      out := out + input[position..position + literalLength];
      position := position + literalLength;
      if position == |input| {
        assert r == r[..literalLength];
        return true, out;
      }
      if position + 2 > |input| {
        return false, out;
      }
      var offset := Join(input[position], input[position + 1]);
      assert input[position..][2..] == input[position + 2..];
      position := position + 2;
      if offset == 0 || offset > |out| {
        return false, out;
      }
      var matchLength;
      ok, matchLength, position := LengthAt(input, position, token % 16);
      if !ok {
        return false, out;
      }
      out := CopyMatch(out, offset, matchLength + 4);
    }
    return true, out;
  }

  // ---------------------------------------------------------------- mozlz4

  const MAGIC: Bytes := [0x6D, 0x6F, 0x7A, 0x4C, 0x7A, 0x34, 0x30]
  const HEADER_SIZE := 12

  datatype MozError = NotMozLz4 | Corrupt | SizeMismatch

  function DeclaredSize(input: Bytes): int
    requires |input| >= HEADER_SIZE
  {
    Join4(input[8], input[9], input[10], input[11])
  }

  /** decompress_mozlz4: a declared size of zero is not checked. */
  method DecompressMozLz4(input: Bytes) returns (r: Result<Bytes, MozError>)
    ensures r == Err(NotMozLz4) <==> |input| < HEADER_SIZE || input[..7] != MAGIC
    ensures r.Ok? <==>
              && |input| >= HEADER_SIZE && input[..7] == MAGIC
              && exists b :: Valid(b, []) && Encode(b, []) == input[HEADER_SIZE..]
                   && (DeclaredSize(input) != 0 ==> |Expand(b, [])| == DeclaredSize(input))
    ensures r.Ok? ==> Decode(input[HEADER_SIZE..], []) == Some(r.value)
  {
    if |input| < HEADER_SIZE || input[..7] != MAGIC {
      return Err(NotMozLz4);
    }
    hide Decode, Encode, Expand, Valid;
    AcceptsExactlyBlocks(input[HEADER_SIZE..]);
    var ok, out := Decompress(input[HEADER_SIZE..]);
    if !ok {
      return Err(Corrupt);
    }
    if DeclaredSize(input) != 0 && |out| != DeclaredSize(input) {
      return Err(SizeMismatch);
    }
    return Ok(out);
  }
}
