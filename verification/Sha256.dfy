/** Streaming SHA-256 (src/privacy/crypto.cpp:30-107, 275-279) against the one-shot definition of FIPS 180-4. */
module Sha256 {
  import opened Base

  type Words = seq<bv32>

  // ---------------------------------------------------------------- FIPS 180-4

  /** H(0) of section 5.3.3. */
  function H0(): (h: Words)
    ensures |h| == 8
  {
    [0x6a09e667, 0xbb67ae85, 0x3c6ef372, 0xa54ff53a, 0x510e527f, 0x9b05688c, 0x1f83d9ab, 0x5be0cd19]
  }

  const K256: Words := [
    0x428a2f98, 0x71374491, 0xb5c0fbcf, 0xe9b5dba5, 0x3956c25b, 0x59f111f1, 0x923f82a4, 0xab1c5ed5,
    0xd807aa98, 0x12835b01, 0x243185be, 0x550c7dc3, 0x72be5d74, 0x80deb1fe, 0x9bdc06a7, 0xc19bf174,
    0xe49b69c1, 0xefbe4786, 0x0fc19dc6, 0x240ca1cc, 0x2de92c6f, 0x4a7484aa, 0x5cb0a9dc, 0x76f988da,
    0x983e5152, 0xa831c66d, 0xb00327c8, 0xbf597fc7, 0xc6e00bf3, 0xd5a79147, 0x06ca6351, 0x14292967,
    0x27b70a85, 0x2e1b2138, 0x4d2c6dfc, 0x53380d13, 0x650a7354, 0x766a0abb, 0x81c2c92e, 0x92722c85,
    0xa2bfe8a1, 0xa81a664b, 0xc24b8b70, 0xc76c51a3, 0xd192e819, 0xd6990624, 0xf40e3585, 0x106aa070,
    0x19a4c116, 0x1e376c08, 0x2748774c, 0x34b0bcb5, 0x391c0cb3, 0x4ed8aa4a, 0x5b9cca4f, 0x682e6ff3,
    0x748f82ee, 0x78a5636f, 0x84c87814, 0x8cc70208, 0x90befffa, 0xa4506ceb, 0xbef9a3f7, 0xc67178f2]

  /** Constant K_t of section 4.2.2. */
  function K(t: nat): bv32
    requires t < 64
  {
    assert |K256| == 64;
    K256[t]
  }

  /** Addition modulo 2^32, section 3.2. */
  function Plus(a: bv32, b: bv32): bv32 { a + b }

  /** Rotation right, section 3.2. */
  function Rotr(v: bv32, n: bv6): bv32
    requires 0 < n < 32
  {
    (v >> n) | (v << (32 - n))
  }

  // Functions of section 4.1.2.
  function Ch(x: bv32, y: bv32, z: bv32): bv32 { (x & y) ^ (!x & z) }
  function Maj(x: bv32, y: bv32, z: bv32): bv32 { (x & y) ^ (x & z) ^ (y & z) }
  function BigSigma0(x: bv32): bv32 { Rotr(x, 2) ^ Rotr(x, 13) ^ Rotr(x, 22) }
  function BigSigma1(x: bv32): bv32 { Rotr(x, 6) ^ Rotr(x, 11) ^ Rotr(x, 25) }
  function SmallSigma0(x: bv32): bv32 { Rotr(x, 7) ^ Rotr(x, 18) ^ (x >> 3) }
  function SmallSigma1(x: bv32): bv32 { Rotr(x, 17) ^ Rotr(x, 19) ^ (x >> 10) }

  function WordOf(a: Byte, b: Byte, c: Byte, d: Byte): bv32 {
    ((a as bv32) << 24) | ((b as bv32) << 16) | ((c as bv32) << 8) | (d as bv32)
  }

  /** W_t from its four predecessors; the terms stand in the program's order. */
  function ScheduleWord(w2: bv32, w7: bv32, w15: bv32, w16: bv32): bv32 {
    Plus(Plus(Plus(w16, SmallSigma0(w15)), w7), SmallSigma1(w2))
  }

  /** The message schedule, section 6.2.2 step 1. */
  function W(block: Bytes, t: nat): bv32
    requires |block| == 64 && t < 64
  {
    if t < 16 then WordOf(block[4 * t], block[4 * t + 1], block[4 * t + 2], block[4 * t + 3])
    else ScheduleWord(W(block, t - 2), W(block, t - 7), W(block, t - 15), W(block, t - 16))
  }

  function T1(v: Words, k: bv32, w: bv32): bv32
    requires |v| == 8
  {
    Plus(Plus(Plus(Plus(v[7], BigSigma1(v[4])), Ch(v[4], v[5], v[6])), k), w)
  }

  function T2(v: Words): bv32
    requires |v| == 8
  {
    Plus(BigSigma0(v[0]), Maj(v[0], v[1], v[2]))
  }

  /** One turn of step 3. */
  function Round(v: Words, k: bv32, w: bv32): (r: Words)
    requires |v| == 8
    ensures |r| == 8
  {
    [Plus(T1(v, k, w), T2(v)), v[0], v[1], v[2], Plus(v[3], T1(v, k, w)), v[4], v[5], v[6]]
  }

  function Rounds(h: Words, block: Bytes, t: nat): (v: Words)
    requires |h| == 8 && |block| == 64 && t <= 64
    ensures |v| == 8
  {
    if t == 0 then h else Round(Rounds(h, block, t - 1), K(t - 1), W(block, t - 1))
  }

  function AddWords(h: Words, v: Words): (r: Words)
    requires |h| == |v| == 8
    ensures |r| == 8
  {
    seq(8, i requires 0 <= i < 8 => Plus(h[i], v[i]))
  }

  /** Steps 2 to 4: the hash value after one more block. */
  function Compress(h: Words, block: Bytes): (r: Words)
    requires |h| == 8 && |block| == 64
    ensures |r| == 8
  {
    AddWords(h, Rounds(h, block, 64))
  }

  /** The hash value after all blocks of a padded message. */
  function Fold(m: Bytes): (h: Words)
    requires |m| % 64 == 0
    ensures |h| == 8
  {
    if m == [] then H0() else Compress(Fold(m[..|m| - 64]), m[|m| - 64..])
  }

  function BigEndian(n: nat, width: nat): (b: Bytes)
    ensures |b| == width
  {
    if width == 0 then [] else BigEndian(n / 256, width - 1) + [n % 256]
  }

  /** n >> 8 * i */
  function Shift(n: nat, i: nat): nat { if i == 0 then n else Shift(n, i - 1) / 256 }

  function Zeros(n: nat): (b: Bytes)
    ensures |b| == n
  {
    seq(n, i => 0)
  }

  /** The zero bytes between the marker bit and the length. */
  function ZeroBytes(length: nat): (z: nat)
    ensures z < 64 && (length + z) % 64 == 55
  {
    var past := length % 64;
    assert length == 64 * (length / 64) + past;
    if past <= 55 then 55 - past else 119 - past
  }

  lemma CounterAdds(a: nat, b: nat)
    ensures (a % WORD64 + b) % WORD64 == (a + b) % WORD64
  {
    var q := a / WORD64;
    var r := (a % WORD64 + b) / WORD64;
    assert a + b == (q + r) * WORD64 + (a % WORD64 + b) % WORD64;
  }

  lemma WholeBlocks(length: nat)
    ensures (length + 1 + ZeroBytes(length) + 8) % 64 == 0
  {
    var n := (length + ZeroBytes(length)) / 64;
    assert length + 1 + ZeroBytes(length) + 8 == 64 * (n + 1);
  }

  const WORD64 := 0x1_0000_0000_0000_0000

  /** Section 5.1.1; the length field of the program wraps at 64 bits. */
  function Pad(m: Bytes): (p: Bytes)
    ensures |p| % 64 == 0
  {
    WholeBlocks(|m|);
    m + [0x80] + Zeros(ZeroBytes(|m|)) + BigEndian(8 * |m| % WORD64, 8)
  }

  function WordBytes(w: bv32): (b: Bytes)
    ensures |b| == 4
  {
    [(w >> 24) as int % 256, (w >> 16) as int % 256, (w >> 8) as int % 256, w as int % 256]
  }

  function DigestBytes(h: Words): (b: Bytes)
    ensures |b| == 4 * |h|
  {
    if h == [] then [] else WordBytes(h[0]) + DigestBytes(h[1..])
  }

  function Digest(m: Bytes): (d: Bytes)
    ensures |d| == 32
  {
    DigestBytes(Fold(Pad(m)))
  }

  // ---------------------------------------------------------------- padding

  /** The marker and the zero bytes are the least bits k with l + 1 + k = 448 mod 512. */
  lemma PaddingIsMinimal(length: nat, k: nat)
    ensures (8 * length + 1 + (7 + 8 * ZeroBytes(length))) % 512 == 448
    ensures (8 * length + 1 + k) % 512 == 448 ==> 7 + 8 * ZeroBytes(length) <= k
  {
    var z := ZeroBytes(length);
    assert (length + z) % 64 == 55;
    var q := (length + z) / 64;
    assert length + z == 64 * q + 55;
    assert 8 * length + 1 + (7 + 8 * z) == 512 * q + 448;
    if (8 * length + 1 + k) % 512 == 448 {
      var p := (8 * length + 1 + k) / 512;
      assert 8 * length + 1 + k == 512 * p + 448;
      assert k - (7 + 8 * z) == 512 * (p - q);
      assert 7 + 8 * z < 512;
    }
  }

  function NumberOf(b: Bytes): nat {
    if b == [] then 0 else 256 * NumberOf(b[..|b| - 1]) + b[|b| - 1]
  }

  function Power256(n: nat): (p: nat)
    ensures p > 0
  {
    if n == 0 then 1 else 256 * Power256(n - 1)
  }

  lemma {:induction false} NumberOfBigEndian(n: nat, width: nat)
    requires n < Power256(width)
    ensures NumberOf(BigEndian(n, width)) == n
  {
    if width > 0 {
      NumberOfBigEndian(n / 256, width - 1);
      assert BigEndian(n, width)[..width - 1] == BigEndian(n / 256, width - 1);
    }
  }

  lemma LengthFieldReads(m: Bytes)
    requires |m| < 0x2000_0000_0000_0000
    ensures NumberOf(Pad(m)[|Pad(m)| - 8..]) == 8 * |m|
  {
    SmallBits(|m|);
    hide *;
    EightBytes();
    PadEnds(m);
    NumberOfBigEndian(8 * |m| % WORD64, 8);
  }

  lemma SmallBits(n: nat)
    requires n < 0x2000_0000_0000_0000
    ensures 8 * n % WORD64 == 8 * n < WORD64
  {
  }

  lemma EightBytes()
    ensures Power256(8) == WORD64
  {
    assert Power256(4) == 0x1_0000_0000;
  }

  lemma PadEnds(m: Bytes)
    ensures |Pad(m)| >= 8 && Pad(m)[|Pad(m)| - 8..] == BigEndian(8 * |m| % WORD64, 8)
  {
    hide BigEndian, Zeros, ZeroBytes;
  }

  /** Within the length limit of FIPS 180-4 no two messages share a padding. */
  lemma PadIsInjective(m: Bytes, n: Bytes)
    requires |m| < 0x2000_0000_0000_0000 && |n| < 0x2000_0000_0000_0000 && Pad(m) == Pad(n)
    ensures m == n
  {
    LengthFieldReads(m);
    LengthFieldReads(n);
    assert |m| == |n|;
    assert Pad(m)[..|m|] == m && Pad(n)[..|n|] == n;
  }

  // ---------------------------------------------------------------- block() in two loops

  lemma FirstWords(block: Bytes, t: nat)
    requires |block| == 64 && t < 16
    ensures W(block, t) == WordOf(block[t * 4], block[t * 4 + 1], block[t * 4 + 2], block[t * 4 + 3])
  {
    hide WordOf;
  }

  lemma LaterWords(block: Bytes, t: nat)
    requires |block| == 64 && 16 <= t < 64
    ensures W(block, t) == ScheduleWord(W(block, t - 2), W(block, t - 7), W(block, t - 15), W(block, t - 16))
  {
    hide WordOf, ScheduleWord;
  }

  /** The schedule array of `block`. */
  method Schedule(block: Bytes) returns (w: array<bv32>)
    requires |block| == 64
    ensures fresh(w) && w.Length == 64
    ensures forall t :: 0 <= t < 64 ==> w[t] == W(block, t)
  {
    hide W, WordOf, ScheduleWord;
    w := new bv32[64];
    for i := 0 to 16
      invariant forall t :: 0 <= t < i ==> w[t] == W(block, t)
    {
      FirstWords(block, i);
      w[i] := WordOf(block[i * 4], block[i * 4 + 1], block[i * 4 + 2], block[i * 4 + 3]);
    }
    for i := 16 to 64
      invariant forall t :: 0 <= t < i ==> w[t] == W(block, t)
    {
      LaterWords(block, i);
      w[i] := ScheduleWord(w[i - 2], w[i - 7], w[i - 15], w[i - 16]);
    }
  }

  /** The 64 rounds over the working variables. */
  method RunRounds(h: Words, block: Bytes, w: array<bv32>) returns (v: Words)
    requires |h| == 8 && |block| == 64 && w.Length == 64
    requires forall t :: 0 <= t < 64 ==> w[t] == W(block, t)
    ensures v == Rounds(h, block, 64)
  {
    hide K, W, Round;
    v := h;
    for i := 0 to 64
      invariant |v| == 8 && v == Rounds(h, block, i)
    {
      v := Round(v, K(i), w[i]);
    }
  }

  // ---------------------------------------------------------------- the stream

  class Hasher {
    const h: array<bv32>
    const buf: array<Byte>
    var len: nat
    var bits: nat

    /** All whole blocks of `fed` are folded into `h`; the rest of it waits in `buf`. */
    ghost predicate Holds(fed: Bytes)
      reads this, h, buf
    {
      && h.Length == 8 && buf.Length == 64
      && len <= 64 && len <= |fed| && (|fed| - len) % 64 == 0
      && buf[..len] == fed[|fed| - len..]
      && h[..] == Fold(fed[..|fed| - len])
    }

    /** The state after hashing in `message`. */
    ghost predicate Absorbed(message: Bytes)
      reads this, h, buf
    {
      Holds(message) && len < 64 && bits == 8 * |message| % WORD64
    }

    constructor ()
      ensures fresh(h) && fresh(buf) && Absorbed([])
    {
      hide H0, Fold;
      h := new bv32[8](i requires 0 <= i < 8 => H0()[i]);
      buf := new Byte[64](i => 0);
      len, bits := 0, 0;
      new;
      FoldEmpty();
      assert h[..] == H0();
    }

    /** h[i] += v[i] */
    method AddInto(v: Words)
      requires h.Length == |v| == 8
      modifies h
      ensures h[..] == AddWords(old(h[..]), v)
    {
      hide Plus;
      for i := 0 to 8
        invariant forall j :: 0 <= j < i ==> h[j] == Plus(old(h[j]), v[j])
        invariant forall j :: i <= j < 8 ==> h[j] == old(h[j])
      {
        h[i] := Plus(h[i], v[i]);
      }
    }

    /** block(), and the reset of `len` that follows every call of it. */
    method Block(ghost fed: Bytes)
      requires Holds(fed) && len == 64
      modifies `len, h
      ensures Holds(fed) && len == 0
    {
      hide Rounds, Fold, AddWords, W;
      assert buf[..] == fed[|fed| - 64..];
      var w := Schedule(buf[..]);
      var v := RunRounds(h[..], buf[..], w);
      AddInto(v);
      FoldStep(fed);
      len := 0;
      assert fed[..|fed|] == fed;
    }

    /** buf[len++] = c */
    method Put(c: Byte, ghost fed: Bytes)
      requires Holds(fed) && len < 64
      modifies `len, buf
      ensures Holds(fed + [c]) && len == old(len) + 1
    {
      hide Fold;
      buf[len] := c;
      len := len + 1;
      ghost var next := fed + [c];
      assert next[..|next| - len] == fed[..|fed| - old(len)];
      assert next[|next| - len..] == fed[|fed| - old(len)..] + [c];
      assert buf[..len] == old(buf[..len]) + [c];
    }

    method Update(data: Bytes, ghost message: Bytes)
      requires Absorbed(message)
      modifies this, h, buf
      ensures Absorbed(message + data)
    {
      hide Fold;
      CounterAdds(8 * |message|, 8 * |data|);
      bits := (bits + 8 * |data|) % WORD64;
      assert message + data[..0] == message;
      for i := 0 to |data|
        invariant Holds(message + data[..i]) && len < 64
        invariant bits == 8 * |message + data| % WORD64
      {
        Put(data[i], message + data[..i]);
        assert message + data[..i] + [data[i]] == message + data[..i + 1];
        if len == 64 {
          Block(message + data[..i + 1]);
        }
      }
      assert data[..|data|] == data;
    }

    /** Appends zero bytes until `len` reaches `target`. */
    method FillTo(target: nat, ghost fed: Bytes)
      requires Holds(fed) && len <= target <= 64
      modifies `len, buf
      ensures len == target && Holds(fed + Zeros(target - old(len)))
    {
      hide Fold;
      assert fed + Zeros(0) == fed;
      ghost var start := len;
      while len < target
        invariant start <= len <= target && Holds(fed + Zeros(len - start))
      {
        Put(0, fed + Zeros(len - start));
        assert fed + Zeros(len - 1 - start) + [0] == fed + Zeros(len - start);
      }
    }

    /** The eight length bytes, highest first. */
    method PutLength(ghost fed: Bytes)
      requires Holds(fed) && len == 56
      modifies `len, buf
      ensures len == 64 && Holds(fed + BigEndian(bits, 8))
    {
      hide Fold;
      var i := 8;
      assert fed + BigEndian(Shift(bits, 8), 0) == fed;
      while i > 0
        invariant 0 <= i <= 8 && len == 64 - i && Holds(fed + BigEndian(Shift(bits, i), 8 - i))
      {
        i := i - 1;
        ghost var sofar := BigEndian(Shift(bits, i + 1), 7 - i);
        Put(Shift(bits, i) % 256, fed + sofar);
        assert fed + sofar + [Shift(bits, i) % 256] == fed + BigEndian(Shift(bits, i), 8 - i);
      }
    }

    /** What is held is whole blocks and `len` bytes. */
    lemma HeldTail(fed: Bytes)
      requires Holds(fed)
      ensures len <= |fed| && (|fed| - len) % 64 == 0
    {
    }

    /** When the length field no longer fits, zeros fill the block and a new one starts. */
    method MakeRoom(ghost fed: Bytes) returns (ghost zeros: nat)
      requires Holds(fed)
      modifies `len, h, buf
      ensures zeros == if old(len) > 56 then 64 - old(len) else 0
      ensures Holds(fed + Zeros(zeros)) && len == if old(len) > 56 then 0 else old(len)
    {
      hide Fold, Zeros;
      zeros := 0;
      NoZeros(fed);
      if len > 56 {
        zeros := 64 - len;
        FillTo(64, fed);
        Block(fed + Zeros(zeros));
      }
    }

    /** The marker byte and the zero bytes up to the length field. */
    method PutPadding(ghost message: Bytes)
      requires Holds(message) && len < 64
      modifies `len, h, buf
      ensures len == 56 && Holds(message + [0x80] + Zeros(ZeroBytes(|message|)))
    {
      hide Holds, Fold, Zeros, ZeroBytes;
      HeldTail(message);
      ghost var fed, start := message + [0x80], len;
      Put(0x80, message);
      ghost var zeros := MakeRoom(fed);
      ghost var more := 56 - len;
      FillTo(56, fed + Zeros(zeros));
      ZeroRuns(fed, start, zeros, more, |message|);
    }

    method Finish(ghost message: Bytes) returns (out: Bytes)
      requires Absorbed(message)
      modifies this, h, buf
      ensures out == Digest(message)
    {
      hide Fold, DigestBytes, BigEndian, Zeros;
      PutPadding(message);
      PutLength(message + [0x80] + Zeros(ZeroBytes(|message|)));
      Block(Pad(message));
      assert Pad(message)[..|Pad(message)|] == Pad(message);
      out := Output();
    }

    /** The eight words, high byte first. */
    method Output() returns (out: Bytes)
      requires h.Length == 8
      ensures out == DigestBytes(h[..])
    {
      hide DigestBytes, WordBytes;
      out := [];
      for i := 0 to 8
        invariant out + DigestBytes(h[i..]) == DigestBytes(h[..])
      {
        DigestStep(h[i..]);
        Assoc(out, WordBytes(h[i]), DigestBytes(h[i + 1..]));
        assert h[i..][1..] == h[i + 1..];
        out := out + WordBytes(h[i]);
      }
      DigestEnd(h[8..]);
    }
  }

  lemma DigestEnd(h: Words)
    requires h == []
    ensures DigestBytes(h) == []
  {
  }

  lemma NoZeros(fed: Bytes)
    ensures fed + Zeros(0) == fed
  {
  }

  lemma ZeroRuns(fed: Bytes, len: nat, a: nat, b: nat, length: nat)
    requires len < 64 && len <= length && (length - len) % 64 == 0
    requires a + b == if len + 1 > 56 then 119 - len else 55 - len
    ensures fed + Zeros(a) + Zeros(b) == fed + Zeros(ZeroBytes(length))
  {
    assert a + b == ZeroBytes(length);
  }

  lemma FoldEmpty()
    ensures Fold([]) == H0()
  {
  }

  lemma FoldStep(fed: Bytes)
    requires |fed| >= 64 && |fed| % 64 == 0
    ensures Fold(fed) == Compress(Fold(fed[..|fed| - 64]), fed[|fed| - 64..])
  {
  }

  lemma DigestStep(h: Words)
    requires h != []
    ensures DigestBytes(h) == WordBytes(h[0]) + DigestBytes(h[1..])
  {
  }

  lemma ConcatNone(chunks: seq<Bytes>)
    ensures Concat(chunks[..0]) == []
  {
  }

  lemma ConcatNext(chunks: seq<Bytes>, i: nat)
    requires i < |chunks|
    ensures Concat(chunks[..i + 1]) == Concat(chunks[..i]) + chunks[i]
  {
    ConcatAppend(chunks[..i], [chunks[i]]);
    assert chunks[..i] + [chunks[i]] == chunks[..i + 1];
    assert Concat([chunks[i]]) == chunks[i];
  }

  /** Any split of a message into update calls gives the one-shot digest. */
  method HashChunks(chunks: seq<Bytes>) returns (digest: Bytes)
    ensures digest == Digest(Concat(chunks))
  {
    hide *;
    var hasher := new Hasher();
    ConcatNone(chunks);
    ghost var message: Bytes := [];
    for i := 0 to |chunks|
      invariant fresh(hasher) && fresh(hasher.h) && fresh(hasher.buf)
      invariant hasher.Absorbed(message) && message == Concat(chunks[..i])
    {
      hasher.Update(chunks[i], message);
      message := message + chunks[i];
      ConcatNext(chunks, i);
    }
    assert chunks[..|chunks|] == chunks;
    digest := hasher.Finish(message);
  }

  /** sha256() */
  method Hash(data: Bytes) returns (digest: Bytes)
    ensures digest == Digest(data)
  {
    var hasher := new Hasher();
    hasher.Update(data, []);
    assert [] + data == data;
    digest := hasher.Finish(data);
  }
}
