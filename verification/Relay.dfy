/** The native-messaging relay (src/browser/native_messaging.cpp:167-222). */
module Relay {
  import opened Base
  import opened Framing

  datatype ReadOutcome = Chunk(bytes: Bytes) | TimedOut | ReadFailed

  /**
   * A connection as the relay sees it. `incoming` and `capacities` script what the operating system will
   * do: which chunk each read returns, and how many bytes each write takes at most. A script that
   * runs out fails, so every moment of every run is the end of a run with a shorter script.
   */
  class Connection {
    var incoming: seq<ReadOutcome>
    var capacities: seq<nat>
    var received: Bytes
    var sent: Bytes

    method ReadSome() returns (r: ReadOutcome)
      modifies this
      ensures sent == old(sent) && capacities == old(capacities)
      ensures received == old(received) + if r.Chunk? then r.bytes else []
      ensures !r.ReadFailed? ==> |incoming| < |old(incoming)|
    {
      if incoming == [] {
        return ReadFailed;
      }
      r := incoming[0];
      incoming := incoming[1..];
      if r.Chunk? {
        received := received + r.bytes;
      }
    }

    /** Takes some of `bytes`; None is an error. */
    method Write(bytes: Bytes) returns (n: Option<nat>)
      modifies this
      ensures received == old(received) && incoming == old(incoming)
      ensures n.Some? ==> n.value <= |bytes| && sent == old(sent) + bytes[..n.value]
      ensures n.None? ==> sent == old(sent)
    {
      if capacities == [] {
        return None;
      }
      var count := if capacities[0] <= |bytes| then capacities[0] else |bytes|;
      capacities := capacities[1..];
      sent := sent + bytes[..count];
      return Some(count);
    }
  }

  /**
   * The flag that both directions of the relay share. `others` scripts what each load would see from the
   * other thread; once this thread has stored false, every load sees false.
   */
  class RunningFlag {
    var others: seq<bool>
    var cleared: bool

    method Load() returns (on: bool)
      modifies this
      ensures cleared == old(cleared)
      ensures on ==> !cleared && |others| < |old(others)|
    {
      if cleared || others == [] {
        return false;
      }
      on := others[0];
      others := others[1..];
    }

    method Clear()
      modifies this
      ensures cleared && others == old(others)
    {
      cleared := true;
    }
  }

  /** write_bytes: all of `bytes`, or a prefix of them and false. */
  method WriteBytes(connection: Connection, bytes: Bytes) returns (ok: bool, ghost written: nat)
    modifies connection
    ensures connection.received == old(connection.received) && connection.incoming == old(connection.incoming)
    ensures written <= |bytes| && connection.sent == old(connection.sent) + bytes[..written]
    ensures ok ==> written == |bytes|
  {
    var done := 0;
    assert connection.sent == old(connection.sent) + bytes[..done];
    while done < |bytes|
      invariant 0 <= done <= |bytes| && connection.sent == old(connection.sent) + bytes[..done]
      invariant connection.received == old(connection.received) && connection.incoming == old(connection.incoming)
    {
      var n := connection.Write(bytes[done..]);
      if n.None? || n.value == 0 {
        return false, done;
      }
      assert bytes[..done + n.value] == bytes[..done] + bytes[done..][..n.value];
      done := done + n.value;
    }
    return true, done;
  }

  /** write_payload: frames the payload under the default limit. */
  method WritePayload(connection: Connection, payload: Bytes) returns (ok: bool, ghost written: nat)
    requires |payload| < 0x1_0000_0000
    modifies connection
    ensures connection.received == old(connection.received) && connection.incoming == old(connection.incoming)
    ensures written <= |Frame(payload)| && connection.sent == old(connection.sent) + Frame(payload)[..written]
    ensures ok ==> written == |Frame(payload)|
  {
    var frame := EncodeFrame(payload, MAX_FRAME_BYTES);
    if frame.None? {
      assert Frame(payload)[..0] == [];
      return false, 0;
    }
    ok, written := WriteBytes(connection, frame.value);
  }

  /** Why pump came back. */
  datatype PumpEnd = Stopped | SourceEnded | FramingError | SinkFailed

  /** `passed` is the framed image of `frames`, cut off the front of `all`, of which `buffer` is left. */
  ghost predicate Forwarded(all: Bytes, passed: Bytes, frames: seq<Bytes>, buffer: Bytes, max: Limit) {
    && all == passed + buffer
    && WithinLimit(frames, max) && passed == Wire(frames)
    && var d := Drain(buffer, max);
       Drain(all, max) == Drained(frames + d.frames, d.rest, d.failed)
  }

  lemma ForwardStart(all: Bytes, max: Limit)
    ensures Forwarded(all, [], [], all, max)
  {
    assert [] + all == all && [] + Drain(all, max).frames == Drain(all, max).frames;
  }

  lemma ForwardStep(all: Bytes, passed: Bytes, frames: seq<Bytes>, buffer: Bytes, max: Limit)
    requires Forwarded(all, passed, frames, buffer, max) && DecodeFrame(buffer, max).Complete?
    ensures var d := DecodeFrame(buffer, max);
            && |d.payload| <= max && passed + Frame(d.payload) <= all
            && Forwarded(all, passed + Frame(d.payload), frames + [d.payload], buffer[d.consumed..], max)
  {
    hide DecodeFrame, Frame;
    var d := DecodeFrame(buffer, max);
    var rest := buffer[d.consumed..];
    WholeFrame(buffer, max);
    WireAppend(frames, [d.payload], max);
    assert Frame(d.payload) + Wire([]) == Frame(d.payload);
    Assoc(frames, [d.payload], Drain(rest, max).frames);
    Assoc(passed, Frame(d.payload), rest);
  }

  lemma ForwardEnd(all: Bytes, passed: Bytes, frames: seq<Bytes>, buffer: Bytes, max: Limit)
    requires Forwarded(all, passed, frames, buffer, max) && !DecodeFrame(buffer, max).Complete?
    ensures Drain(all, max) == Drained(frames, buffer, DecodeFrame(buffer, max).Oversized?)
    ensures WithinLimit(frames, max) && passed == Wire(frames) && passed <= all
  {
    hide DecodeFrame;
    assert frames + [] == frames;
  }

  lemma PrefixOfPrefix(a: Bytes, b: Bytes, k: nat, all: Bytes)
    requires a + b <= all && k <= |b|
    ensures a + b[..k] <= all
  {
  }

  /** pump's inner loop: every frame the reader holds goes to the sink. Stopped means it ran dry. */
  method ForwardFrames(reader: FrameReader, to: Connection) returns (end: PumpEnd, ghost passed: Bytes)
    modifies reader, to
    ensures !end.SourceEnded? && to.sent == old(to.sent) + passed
    ensures passed <= old(reader.buffer)
    ensures !end.SinkFailed? ==>
              var d := Drain(old(reader.buffer), reader.max);
              && WithinLimit(d.frames, reader.max) && passed == Wire(d.frames)
              && reader.buffer == d.rest && d.failed == end.FramingError?
  {
    hide Forwarded, Drain, DecodeFrame, Frame, Wire;
    ghost var all, max := reader.buffer, reader.max;
    ghost var frames: seq<Bytes> := [];
    passed := [];
    ForwardStart(all, max);
    while true
      invariant to.sent == old(to.sent) + passed
      invariant Forwarded(all, passed, frames, reader.buffer, max)
      decreases |reader.buffer|
    {
      ghost var buffered := reader.buffer;
      var next := reader.Next();
      if !next.Complete? {
        ForwardEnd(all, passed, frames, buffered, max);
        return if next.Oversized? then FramingError else Stopped, passed;
      }
      ForwardStep(all, passed, frames, buffered, max);
      var ok; ghost var written;
      ok, written := WritePayload(to, next.payload);
      Assoc(old(to.sent), passed, Frame(next.payload)[..written]);
      if !ok {
        PrefixOfPrefix(passed, Frame(next.payload), written, all);
        passed := passed + Frame(next.payload)[..written];
        return SinkFailed, passed;
      }
      assert Frame(next.payload)[..written] == Frame(next.payload);
      passed := passed + Frame(next.payload);
      frames := frames + [next.payload];
    }
  }

  /**
   * pump: `running` is the flag shared with the pump of the other direction, asked at the top of every
   * turn and cleared on the way out. Whatever the two sides and the flag do, the bytes passed on are a
   * prefix of the bytes taken in; and unless the sink refused a write they are all of them up to the
   * last frame boundary.
   */
  method Pump(from: Connection, to: Connection, running: RunningFlag, max: Limit)
    returns (end: PumpEnd, ghost taken: Bytes, ghost passed: Bytes)
    requires from != to
    modifies from, to, running
    ensures from.received == old(from.received) + taken && to.sent == old(to.sent) + passed
    ensures passed <= taken
    ensures !end.SinkFailed? ==>
              var d := Drain(taken, max);
              && WithinLimit(d.frames, max) && passed == Wire(d.frames)
              && d.failed == end.FramingError? && taken == passed + d.rest
    ensures running.cleared
  {
    hide Drain, Wire, WithinLimit;
    var reader := new FrameReader(max);
    taken, passed := [], [];
    RelayStart(max);
    var on := running.Load();
    while on
      invariant from.received == old(from.received) + taken && to.sent == old(to.sent) + passed
      invariant Relayed(taken, passed, reader.buffer, false, max)
      decreases on, |running.others|
    {
      hide Relayed;
      var chunk := from.ReadSome();
      if !chunk.Chunk? || chunk.bytes == [] {
        assert chunk.Chunk? ==> from.received + chunk.bytes == from.received;
        RelayEnd(taken, passed, reader.buffer, false, max);
        running.Clear();
        return SourceEnded, taken, passed;
      }
      ghost var kept := reader.buffer;
      reader.Feed(chunk.bytes);
      var outcome; ghost var more;
      outcome, more := ForwardFrames(reader, to);
      RelayStep(taken, passed, kept, chunk.bytes, more, reader.buffer, !outcome.SinkFailed?, outcome.FramingError?, max);
      taken := taken + chunk.bytes;
      passed := passed + more;
      if !outcome.Stopped? {
        if outcome.FramingError? {
          RelayEnd(taken, passed, reader.buffer, true, max);
        }
        running.Clear();
        return outcome, taken, passed;
      }
      on := running.Load();
    }
    running.Clear();
    return Stopped, taken, passed;
  }

  /** Every whole frame of `taken` has been passed on and `kept` is what follows them. */
  ghost predicate Relayed(taken: Bytes, passed: Bytes, kept: Bytes, failed: bool, max: Limit) {
    var d := Drain(taken, max);
    WithinLimit(d.frames, max) && passed == Wire(d.frames) && d.rest == kept && d.failed == failed
    && taken == passed + kept
  }

  lemma RelayStart(max: Limit)
    ensures Relayed([], [], [], false, max)
  {
  }

  lemma RelayEnd(taken: Bytes, passed: Bytes, kept: Bytes, failed: bool, max: Limit)
    requires Relayed(taken, passed, kept, failed, max)
    ensures passed <= taken
    ensures var d := Drain(taken, max);
            && WithinLimit(d.frames, max) && passed == Wire(d.frames) && d.failed == failed
            && taken == passed + d.rest
  {
  }

  /** One turn of pump: `chunk` came in, `more` went out. */
  lemma RelayStep(
    taken: Bytes, passed: Bytes, kept: Bytes, chunk: Bytes, more: Bytes, left: Bytes, whole: bool, failed: bool, max: Limit)
    requires Relayed(taken, passed, kept, false, max) && more <= kept + chunk
    requires whole ==>
               var d := Drain(kept + chunk, max);
               WithinLimit(d.frames, max) && more == Wire(d.frames) && left == d.rest && d.failed == failed
    ensures passed + more <= taken + chunk
    ensures whole ==> Relayed(taken + chunk, passed + more, left, failed, max)
  {
    hide Drain, Wire;
    Assoc(passed, kept, chunk);
    if whole {
      DrainAppend(taken, chunk, max);
      WireOfDrain(taken + chunk, max);
      WireAppend(Drain(taken, max).frames, Drain(kept + chunk, max).frames, max);
    }
  }
}
