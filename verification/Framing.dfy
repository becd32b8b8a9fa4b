/** Length-prefixed frames and the incremental reader (src/ipc/protocol.cpp:211-259). */
module Framing {
  import opened Base

  const PREFIX_BYTES := 4
  const MAX_FRAME_BYTES: Limit := 16 * 1024 * 1024

  /** A uint32 byte limit. */
  type Limit = n: nat | n < 0x1_0000_0000

  function LengthPrefix(n: Limit): (s: Bytes)
    ensures |s| == PREFIX_BYTES
  {
    [n % 256, n / 256 % 256, n / 65536 % 256, n / 16777216]
  }

  function PrefixLength(b: Bytes): (n: Limit)
    requires |b| >= PREFIX_BYTES
  {
    Join4(b[0], b[1], b[2], b[3])
  }

  lemma JoinDigits(n: Limit)
    ensures Join4(n % 256, n / 256 % 256, n / 65536 % 256, n / 16777216) == n
  {
    assert n / 65536 == n / 256 / 256 && n / 16777216 == n / 65536 / 256;
  }

  lemma PrefixRoundTrip(n: Limit, rest: Bytes)
    ensures PrefixLength(LengthPrefix(n) + rest) == n
  {
    hide Join4;
    JoinDigits(n);
  }

  lemma DigitsOfJoin(b0: Byte, b1: Byte, b2: Byte, b3: Byte)
    ensures var n := Join4(b0, b1, b2, b3);
            n % 256 == b0 && n / 256 % 256 == b1 && n / 65536 % 256 == b2 && n / 16777216 == b3
  {
    var c1, c2, c3: int := b1, b2, b3;
    var n := Join4(b0, b1, b2, b3);
    assert n / 256 == c1 + 256 * (c2 + 256 * c3);
    assert n / 65536 == c2 + 256 * c3;
  }

  lemma PrefixInjective(b: Bytes)
    requires |b| >= PREFIX_BYTES
    ensures LengthPrefix(PrefixLength(b)) == b[..PREFIX_BYTES]
  {
    DigitsOfJoin(b[0], b[1], b[2], b[3]);
  }

  /** The bytes encode_frame produces for a payload within the limit. */
  function Frame(payload: Bytes): Bytes
    requires |payload| < 0x1_0000_0000
  {
    LengthPrefix(|payload|) + payload
  }

  function EncodeFrame(payload: Bytes, max: Limit): Option<Bytes> {
    if |payload| > max then None else Some(Frame(payload))
  }

  /** decode_frame: the error, std::nullopt, or the frame at the front. */
  datatype Decoded = Oversized | Incomplete | Complete(payload: Bytes, consumed: nat)

  function DecodeFrame(buffer: Bytes, max: Limit): (d: Decoded)
    ensures d.Complete? ==> PREFIX_BYTES <= d.consumed <= |buffer|
  {
    if |buffer| < PREFIX_BYTES then Incomplete
    else
      var length := PrefixLength(buffer);
      if length > max then Oversized
      else if |buffer| < PREFIX_BYTES + length then Incomplete
      else Complete(buffer[PREFIX_BYTES..PREFIX_BYTES + length], PREFIX_BYTES + length)
  }

  /** The frames a reader hands out when drained, what it keeps, and whether it is stuck on an error. */
  datatype Drained = Drained(frames: seq<Bytes>, rest: Bytes, failed: bool)

  function Drain(buffer: Bytes, max: Limit): Drained
    decreases |buffer|
  {
    match DecodeFrame(buffer, max)
    case Oversized => Drained([], buffer, true)
    case Incomplete => Drained([], buffer, false)
    case Complete(payload, consumed) =>
      var d := Drain(buffer[consumed..], max);
      Drained([payload] + d.frames, d.rest, d.failed)
  }

  /** Draining after each of `chunks` in turn. */
  function DrainChunks(sofar: Drained, chunks: seq<Bytes>, max: Limit): Drained
    decreases |chunks|
  {
    if chunks == [] then sofar
    else
      var d := Drain(sofar.rest + chunks[0], max);
      DrainChunks(Drained(sofar.frames + d.frames, d.rest, d.failed), chunks[1..], max)
  }

  /** The wire image of a list of payloads. */
  function Wire(payloads: seq<Bytes>): Bytes
    requires forall i :: 0 <= i < |payloads| ==> |payloads[i]| < 0x1_0000_0000
  {
    if payloads == [] then [] else Frame(payloads[0]) + Wire(payloads[1..])
  }

  predicate WithinLimit(payloads: seq<Bytes>, max: Limit) {
    forall i :: 0 <= i < |payloads| ==> |payloads[i]| <= max
  }

  lemma {:induction false} WireAppend(a: seq<Bytes>, b: seq<Bytes>, max: Limit)
    requires WithinLimit(a, max) && WithinLimit(b, max)
    ensures WithinLimit(a + b, max) && Wire(a + b) == Wire(a) + Wire(b)
  {
    hide Frame;
    if a == [] {
      assert a + b == b;
    } else {
      assert (a + b)[0] == a[0] && (a + b)[1..] == a[1..] + b;
      WireAppend(a[1..], b, max);
      Assoc(Frame(a[0]), Wire(a[1..]), Wire(b));
    }
  }

  lemma DecodeExtends(a: Bytes, b: Bytes, max: Limit)
    ensures !DecodeFrame(a, max).Incomplete? ==> DecodeFrame(a + b, max) == DecodeFrame(a, max)
  {
    if |a| >= PREFIX_BYTES {
      assert PrefixLength(a + b) == PrefixLength(a);
      var n := PREFIX_BYTES + PrefixLength(a);
      if n <= |a| {
        assert (a + b)[PREFIX_BYTES..n] == a[PREFIX_BYTES..n];
      }
    }
  }

  lemma {:induction false} DrainAppend(a: Bytes, b: Bytes, max: Limit)
    ensures var d, e := Drain(a, max), Drain(Drain(a, max).rest + b, max);
            Drain(a + b, max) == Drained(d.frames + e.frames, e.rest, e.failed)
    decreases |a|
  {
    hide DecodeFrame;
    DecodeExtends(a, b, max);
    match DecodeFrame(a, max)
    case Complete(payload, consumed) =>
      DrainAppend(a[consumed..], b, max);
      assert (a + b)[consumed..] == a[consumed..] + b;
      Assoc([payload], Drain(a[consumed..], max).frames, Drain(Drain(a[consumed..], max).rest + b, max).frames);
    case _ =>
      var e := Drain(a + b, max);
      assert [] + e.frames == e.frames;
  }

  /** A reader that stopped on an error stays there whatever is fed to it. */
  lemma FailureIsPermanent(a: Bytes, b: Bytes, max: Limit)
    requires Drain(a, max).failed
    ensures Drain(a + b, max) == Drained(Drain(a, max).frames, Drain(a, max).rest + b, true)
  {
    StuckRest(a, max);
    DrainAppend(a, b, max);
    DecodeExtends(Drain(a, max).rest, b, max);
    assert Drain(a, max).frames + [] == Drain(a, max).frames;
  }

  lemma {:induction false} StuckRest(a: Bytes, max: Limit)
    ensures DecodeFrame(Drain(a, max).rest, max) == if Drain(a, max).failed then Oversized else Incomplete
    decreases |a|
  {
    match DecodeFrame(a, max)
    case Complete(payload, consumed) => StuckRest(a[consumed..], max);
    case _ =>
  }

  /** What a drained reader has handed out depends only on the bytes, not on how they were cut. */
  lemma {:induction false} ChunkingIsInvisible(s: Bytes, chunks: seq<Bytes>, max: Limit)
    ensures DrainChunks(Drain(s, max), chunks, max) == Drain(s + Concat(chunks), max)
    decreases |chunks|
  {
    hide Drain;
    if chunks == [] {
      assert s + [] == s;
    } else {
      DrainAppend(s, chunks[0], max);
      ChunkingIsInvisible(s + chunks[0], chunks[1..], max);
      assert s + chunks[0] + Concat(chunks[1..]) == s + Concat(chunks);
    }
  }

  lemma FrameDecodes(payload: Bytes, tail: Bytes, max: Limit)
    requires |payload| <= max
    ensures DecodeFrame(Frame(payload) + tail, max) == Complete(payload, |Frame(payload)|)
    ensures (Frame(payload) + tail)[|Frame(payload)|..] == tail
  {
    var b := Frame(payload) + tail;
    assert b == LengthPrefix(|payload|) + (payload + tail);
    PrefixRoundTrip(|payload|, payload + tail);
    assert b[PREFIX_BYTES..PREFIX_BYTES + |payload|] == payload;
  }

  /** The reader gives back exactly the payloads that were framed, and keeps an unfinished tail. */
  lemma {:induction false} DrainOfWire(payloads: seq<Bytes>, tail: Bytes, max: Limit)
    requires WithinLimit(payloads, max) && DecodeFrame(tail, max).Incomplete?
    ensures Drain(Wire(payloads) + tail, max) == Drained(payloads, tail, false)
  {
    if payloads == [] {
      assert Wire(payloads) + tail == tail;
    } else {
      var rest := Wire(payloads[1..]) + tail;
      assert Wire(payloads) + tail == Frame(payloads[0]) + rest;
      FrameDecodes(payloads[0], rest, max);
      DrainOfWire(payloads[1..], tail, max);
      assert [payloads[0]] + payloads[1..] == payloads;
    }
  }

  lemma WholeFrame(buffer: Bytes, max: Limit)
    requires DecodeFrame(buffer, max).Complete?
    ensures var d := DecodeFrame(buffer, max);
            |d.payload| <= max && buffer == Frame(d.payload) + buffer[d.consumed..]
  {
    var d := DecodeFrame(buffer, max);
    PrefixInjective(buffer);
    assert buffer == buffer[..PREFIX_BYTES] + d.payload + buffer[d.consumed..];
  }

  /** Nothing is lost or invented: re-framing what came out, plus what is kept, is what went in. */
  lemma {:induction false} WireOfDrain(s: Bytes, max: Limit)
    ensures WithinLimit(Drain(s, max).frames, max)
    ensures s == Wire(Drain(s, max).frames) + Drain(s, max).rest
    decreases |s|
  {
    hide DecodeFrame, Frame;
    match DecodeFrame(s, max)
    case Complete(payload, consumed) =>
      WholeFrame(s, max);
      WireOfDrain(s[consumed..], max);
      var d := Drain(s[consumed..], max);
      assert ([payload] + d.frames)[1..] == d.frames;
      Assoc(Frame(payload), Wire(d.frames), d.rest);
    case _ =>
  }

  /** A proper prefix of a frame never decodes: the reader waits for the rest. */
  lemma PartialFrameWaits(payload: Bytes, k: nat, max: Limit)
    requires |payload| <= max && k < |Frame(payload)|
    ensures DecodeFrame(Frame(payload)[..k], max).Incomplete?
  {
    var b := Frame(payload)[..k];
    if k >= PREFIX_BYTES {
      assert b == LengthPrefix(|payload|) + payload[..k - PREFIX_BYTES];
      PrefixRoundTrip(|payload|, payload[..k - PREFIX_BYTES]);
    }
  }

  class FrameReader {
    const max: Limit
    var buffer: Bytes

    constructor (max: Limit)
      ensures this.max == max && buffer == []
    {
      this.max := max;
      buffer := [];
    }

    method Feed(bytes: Bytes)
      modifies this
      ensures buffer == old(buffer) + bytes
    {
      buffer := buffer + bytes;
    }

    /** The front frame leaves the buffer; an error or a missing byte leaves the buffer alone. */
    method Next() returns (r: Decoded)
      modifies this
      ensures r == DecodeFrame(old(buffer), max)
      ensures buffer == if r.Complete? then old(buffer)[r.consumed..] else old(buffer)
    {
      r := DecodeFrame(buffer, max);
      if r.Complete? {
        buffer := buffer[r.consumed..];
      }
    }
  }
}
