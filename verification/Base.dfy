/** Shared vocabulary: bytes, results, and the few sequence facts every module needs. */
module Base {
  type Byte = b: int | 0 <= b < 256
  type Bytes = seq<Byte>

  datatype Option<+T> = None | Some(value: T)

  datatype Result<+T, +E> = Ok(value: T) | Err(error: E)

  /** The bytes of an ASCII literal. */
  function Ascii(s: string): (b: Bytes)
    ensures |b| == |s|
  {
    seq(|s|, i requires 0 <= i < |s| => s[i] as int % 256)
  }

  predicate IsAscii(s: string) { forall i :: 0 <= i < |s| ==> s[i] < 128 as char }

  lemma AsciiInjective()
    ensures forall s, t :: IsAscii(s) && IsAscii(t) && Ascii(s) == Ascii(t) ==> s == t
  {
    forall s, t | IsAscii(s) && IsAscii(t) && Ascii(s) == Ascii(t)
      ensures s == t
    {
      assert |s| == |t|;
      assert forall i :: 0 <= i < |s| ==> Ascii(s)[i] == s[i] as int && Ascii(t)[i] == t[i] as int;
    }
  }

  /** std::tolower in the C locale. */
  function LowerByte(b: Byte): Byte {
    if 65 <= b <= 90 then b + 32 else b
  }

  function Lower(s: Bytes): (l: Bytes)
    ensures |l| == |s|
  {
    seq(|s|, i requires 0 <= i < |s| => LowerByte(s[i]))
  }

  /** `s` stands in `t` at position `p`. */
  predicate At(t: Bytes, p: nat, s: Bytes) {
    p + |s| <= |t| && t[p..p + |s|] == s
  }

  lemma AtSplit(t: Bytes, p: nat, a: Bytes, b: Bytes)
    ensures At(t, p, a + b) <==> At(t, p, a) && At(t, p + |a|, b)
    ensures At(t, p, a + b) ==> p + |a| + |b| <= |t|
  {
    if p + |a| + |b| <= |t| {
      var whole := t[p..p + |a + b|];
      assert whole[..|a|] == t[p..p + |a|];
      assert whole[|a|..] == t[p + |a|..p + |a| + |b|];
      assert (a + b)[..|a|] == a && (a + b)[|a|..] == b;
      assert whole == whole[..|a|] + whole[|a|..];
    }
  }

  lemma AtByte(t: Bytes, p: nat, s: Bytes, k: nat)
    requires At(t, p, s) && k < |s|
    ensures p + |s| <= |t| && t[p + k] == s[k]
  {
    assert t[p..p + |s|][k] == s[k];
  }

  lemma Assoc<T>(a: seq<T>, b: seq<T>, c: seq<T>)
    ensures (a + b) + c == a + (b + c)
  {
  }

  /** Bytes, or longer digits in base 256, put together lowest first. */
  function Join(low: int, high: int): int { low + 256 * high }

  function Join4(b0: int, b1: int, b2: int, b3: int): int { Join(b0, Join(b1, Join(b2, b3))) }

  function Min(a: int, b: int): int { if b < a then b else a }

  function Max(a: int, b: int): int { if a < b then b else a }

  /** The concatenation of a list of chunks. */
  function Concat<T>(chunks: seq<seq<T>>): seq<T> {
    if chunks == [] then [] else chunks[0] + Concat(chunks[1..])
  }

  lemma {:induction false} ConcatAppend<T>(a: seq<seq<T>>, b: seq<seq<T>>)
    ensures Concat(a + b) == Concat(a) + Concat(b)
  {
    if a == [] {
      assert a + b == b;
    } else {
      assert (a + b)[0] == a[0] && (a + b)[1..] == a[1..] + b;
      ConcatAppend(a[1..], b);
    }
  }
}
