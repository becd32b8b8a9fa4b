/** What every run of the RPC connection keeps. */
module RpcSafety {
  import opened Base
  import opened JsonText
  import opened JsonRoundTrip
  import opened Framing
  import opened Messages
  import opened Rpc

  // ---------------------------------------------------------------- invariants

  function RequestPayloads(c: DoubleText, rs: seq<Request>): seq<Bytes> {
    seq(|rs|, i requires 0 <= i < |rs| => RequestPayload(c, rs[i]))
  }

  predicate ValidMessage(log: seq<Entry>, m: Outgoing) { m.Answer? ==> m.index < |log| }

  predicate ValidMessages(log: seq<Entry>, ms: seq<Outgoing>) {
    forall i :: 0 <= i < |ms| ==> ValidMessage(log, ms[i])
  }

  function MessagePayloads(c: DoubleText, log: seq<Entry>, ms: seq<Outgoing>): seq<Bytes>
    requires ValidMessages(log, ms)
  {
    seq(|ms|, i requires 0 <= i < |ms| => MessagePayload(c, log, ms[i]))
  }

  predicate Fitting(g: Config, log: seq<Entry>, m: Outgoing) {
    ValidMessage(log, m) && |MessagePayload(g.doubles, log, m)| <= g.maxFrame
  }

  /** The bytes of a request that is only partly on the wire. */
  function Underway(c: DoubleText, phase: Phase): Bytes
    requires phase.Writing? ==> |RequestPayload(c, phase.request)| <= MAX_FRAME_BYTES
    requires phase.Writing? ==> phase.written <= |Frame(RequestPayload(c, phase.request))|
  {
    if phase.Writing? then Frame(RequestPayload(c, phase.request))[..phase.written] else []
  }

  /** The client's bytes are whole request frames and a proper prefix of the one being written. */
  ghost predicate ClientWire(c: DoubleText, k: Client) {
    && WithinLimit(RequestPayloads(c, k.asked), MAX_FRAME_BYTES)
    && (k.phase.Writing? ==>
          && |RequestPayload(c, k.phase.request)| <= MAX_FRAME_BYTES
          && k.phase.written < |Frame(RequestPayload(c, k.phase.request))|)
    && (!k.cut ==> k.up == Wire(RequestPayloads(c, k.asked)) + Underway(c, k.phase))
  }

  /** Ids grow with every call, and the awaited request is the last one asked. */
  ghost predicate ClientIds(k: Client) {
    && k.nextId >= 1
    && (forall i :: 0 <= i < |k.asked| ==> 1 <= k.asked[i].id < k.nextId)
    && (forall i, j :: 0 <= i < j < |k.asked| ==> k.asked[i].id < k.asked[j].id)
    && (k.phase.Writing? ==>
          1 <= k.phase.request.id < k.nextId
          && forall i :: 0 <= i < |k.asked| ==> k.asked[i].id < k.phase.request.id)
    && (k.phase.Waiting? ==> |k.asked| > 0 && k.asked[|k.asked| - 1] == k.phase.request)
    && (forall i :: 0 <= i < |k.asked| ==> Listed(METHOD_NAMES, k.asked[i].operation))
    && (k.phase.Writing? ==> Listed(METHOD_NAMES, k.phase.request.operation))
  }

  /** What a reader has taken off a byte stream: whole frames, and the rest in its buffer. */
  ghost predicate ReaderOf(stream: Bytes, position: nat, frames: seq<Bytes>, buffer: Bytes, max: Limit) {
    position <= |stream| && WithinLimit(frames, max) && stream[..position] == Wire(frames) + buffer
  }

  ghost predicate EntryOf(c: DoubleText, payload: Bytes, e: Entry) {
    && e.request == ReadRequest(c, payload) && Proper(e.response)
    && e.response.id == if e.request.Some? then e.request.value.id else 0
  }

  /** The log answers the served frames one for one. */
  ghost predicate LogOf(c: DoubleText, served: seq<Bytes>, log: seq<Entry>) {
    |log| == |served| && forall i :: 0 <= i < |log| ==> EntryOf(c, served[i], log[i])
  }

  /** The part of the lock holder's frame that is on the wire. */
  function Held(g: Config, log: seq<Entry>, holder: Option<Holding>): Bytes
    requires holder.Some? ==> Fitting(g, log, holder.value.message)
    requires holder.Some? ==> holder.value.written <= |Frame(MessagePayload(g.doubles, log, holder.value.message))|
  {
    if holder.Some? then Frame(MessagePayload(g.doubles, log, holder.value.message))[..holder.value.written] else []
  }

  /** Everything queued for this connection is a known message that fits a frame. */
  ghost predicate SessionQueues(g: Config, s: Session) {
    && (forall i :: 0 <= i < |s.sent| ==> Fitting(g, s.log, s.sent[i]))
    && (forall k :: k in s.notices ==> Fitting(g, s.log, s.notices[k]))
    && (s.holder.Some? ==>
          && Fitting(g, s.log, s.holder.value.message)
          && s.holder.value.written < |Frame(MessagePayload(g.doubles, s.log, s.holder.value.message))|)
    && (s.worker.Replying? ==> |s.log| > 0 && Fitting(g, s.log, Answer(|s.log| - 1)))
  }

  /** The connection carries whole frames and a proper prefix of the lock holder's frame. */
  ghost predicate SessionWire(g: Config, s: Session) {
    && SessionQueues(g, s)
    && (!s.cut ==> s.down == Wire(MessagePayloads(g.doubles, s.log, s.sent)) + Held(g, s.log, s.holder))
  }

  /** `response` is the reply that request `asked[i]` got, as its caller sees it. */
  ghost predicate IsReplyTo(
    c: DoubleText, asked: seq<Request>, log: seq<Entry>, request: Request, response: Response, i: nat)
  {
    && i < |asked| && i < |log|
    && asked[i] == request && log[i].request.Some? && ArrivesAs(c, request, log[i].request.value)
    && ReceivedAs(c, log[i].response, response)
  }

  ghost predicate HasReply(c: DoubleText, asked: seq<Request>, log: seq<Entry>, returned: (Request, Response)) {
    exists i :: IsReplyTo(c, asked, log, returned.0, returned.1, i)
  }

  /** Every reply a call returned is the one its own request got. */
  ghost predicate Correlated(c: DoubleText, st: State) {
    !st.client.cut && !st.session.cut ==>
      forall r :: r in st.client.returned ==> HasReply(c, st.client.asked, st.session.log, r)
  }

  /** What holds of both byte streams, whatever the number codec does. */
  ghost predicate WireInv(g: Config, st: State) {
    && ClientWire(g.doubles, st.client) && ClientIds(st.client)
    && ReaderOf(st.session.down, st.client.downRead, st.client.taken, st.client.buffer, MAX_FRAME_BYTES)
    && ReaderOf(st.client.up, st.session.upRead, st.session.served, st.session.buffer, g.maxFrame)
    && LogOf(g.doubles, st.session.served, st.session.log)
    && SessionWire(g, st.session)
  }

  ghost predicate Inv(g: Config, st: State) { WireInv(g, st) && Correlated(g.doubles, st) }

  /** What snprintf's %g does for every double: it prints a number literal. */
  ghost predicate Printing(c: DoubleText) { forall r: real :: IsNumberText(c.render(r)) }

  // ---------------------------------------------------------------- framing facts

  /**
   * If frames and a tail stand at the front of other frames and a proper prefix of one more, they
   * are the first of those frames.
   */
  lemma {:induction false} FramesArePrefix(a: seq<Bytes>, ta: Bytes, b: seq<Bytes>, x: Bytes, k: nat, m: Limit)
    requires WithinLimit(a, m) && WithinLimit(b, m) && |x| <= m && k < |Frame(x)|
    requires Wire(a) + ta <= Wire(b) + Frame(x)[..k]
    ensures a <= b
    decreases |a|
  {
    if a != [] {
      hide Frame;
      var all := Wire(b) + Frame(x)[..k];
      Assoc(Frame(a[0]), Wire(a[1..]), ta);
      if b == [] {
        assert [] + Frame(x)[..k] == Frame(x)[..k];
        FrontFrame(a[0], x, Frame(x)[..k]);
      } else {
        Assoc(Frame(b[0]), Wire(b[1..]), Frame(x)[..k]);
        FrontFrame(a[0], b[0], all);
        var n := |Frame(a[0])|;
        assert (Wire(a) + ta)[n..] == Wire(a[1..]) + ta;
        assert all[n..] == Wire(b[1..]) + Frame(x)[..k];
        assert Wire(a[1..]) + ta <= Wire(b[1..]) + Frame(x)[..k];
        FramesArePrefix(a[1..], ta, b[1..], x, k, m);
        assert a == [a[0]] + a[1..] && b == [b[0]] + b[1..];
      }
    }
  }

  /** A whole frame at the front of bytes that start like the frame of `x` is the frame of `x`. */
  lemma FrontFrame(a: Bytes, x: Bytes, all: Bytes)
    requires |a| < 0x1_0000_0000 && |x| < 0x1_0000_0000
    requires Frame(a) <= all
    requires all <= Frame(x) || Frame(x) <= all
    ensures a == x && |Frame(x)| <= |all|
  {
    assert LengthPrefix(|a|) == all[..PREFIX_BYTES] == LengthPrefix(|x|);
    PrefixRoundTrip(|a|, []);
    PrefixRoundTrip(|x|, []);
    assert |a| == |x|;
    assert Frame(a) == all[..|Frame(a)|];
    assert Frame(x) == all[..|Frame(x)|];
    assert a == Frame(a)[PREFIX_BYTES..] && x == Frame(x)[PREFIX_BYTES..];
  }

  /** Reading more bytes of the stream. */
  lemma ReaderReads(stream: Bytes, position: nat, n: nat, frames: seq<Bytes>, buffer: Bytes, max: Limit)
    requires ReaderOf(stream, position, frames, buffer, max) && position + n <= |stream|
    ensures ReaderOf(stream, position + n, frames, buffer + stream[position..position + n], max)
  {
    assert stream[..position + n] == stream[..position] + stream[position..position + n];
    Assoc(Wire(frames), buffer, stream[position..position + n]);
  }

  lemma ReaderTakes(stream: Bytes, position: nat, frames: seq<Bytes>, buffer: Bytes, max: Limit)
    requires ReaderOf(stream, position, frames, buffer, max) && DecodeFrame(buffer, max).Complete?
    ensures var d := DecodeFrame(buffer, max);
            |d.payload| <= max && ReaderOf(stream, position, frames + [d.payload], buffer[d.consumed..], max)
  {
    hide DecodeFrame, Frame;
    var d := DecodeFrame(buffer, max);
    WholeFrame(buffer, max);
    WireAppend(frames, [d.payload], max);
    assert Frame(d.payload) + Wire([]) == Frame(d.payload);
    Assoc(Wire(frames), Frame(d.payload), buffer[d.consumed..]);
  }

  lemma ReaderGrows(stream: Bytes, grown: Bytes, position: nat, frames: seq<Bytes>, buffer: Bytes, max: Limit)
    requires ReaderOf(stream, position, frames, buffer, max) && stream <= grown
    ensures ReaderOf(grown, position, frames, buffer, max)
  {
    assert grown[..position] == stream[..position];
  }

  /** Writing `frame[w..e]` after `frame[..w]`. */
  lemma WriteMore(before: Bytes, frame: Bytes, w: nat, e: nat)
    requires w <= e <= |frame|
    ensures before + frame[..w] + frame[w..e] == before + frame[..e]
    ensures e == |frame| ==> before + frame[..e] == before + frame
  {
    assert frame[..w] + frame[w..e] == frame[..e];
    Assoc(before, frame[..w], frame[w..e]);
  }

  lemma WireSnoc(payloads: seq<Bytes>, p: Bytes, m: Limit)
    requires WithinLimit(payloads, m) && |p| <= m
    ensures WithinLimit(payloads + [p], m) && Wire(payloads + [p]) == Wire(payloads) + Frame(p)
  {
    hide Frame;
    WireAppend(payloads, [p], m);
    assert Frame(p) + Wire([]) == Frame(p);
  }

  // ---------------------------------------------------------------- client steps

  lemma ClientStepWire(c: DoubleText, k: Client, down: Bytes, a: ClientAction)
    requires ClientWire(c, k) && ClientEnabled(c, k, down, a)
    ensures ClientWire(c, ClientStep(c, k, down, a))
    ensures k.up <= ClientStep(c, k, down, a).up
    ensures k.cut ==> ClientStep(c, k, down, a).cut
    ensures k.asked <= ClientStep(c, k, down, a).asked
  {
    hide RequestPayload, Frame, Wire, Judge;
    match a
    case PutBytes(n) =>
      var frame := Frame(RequestPayload(c, k.phase.request));
      WriteMore(Wire(RequestPayloads(c, k.asked)), frame, k.phase.written, k.phase.written + n);
      var asked := k.asked + [k.phase.request];
      assert RequestPayloads(c, asked) == RequestPayloads(c, k.asked) + [RequestPayload(c, k.phase.request)];
      WireSnoc(RequestPayloads(c, k.asked), RequestPayload(c, k.phase.request), MAX_FRAME_BYTES);
      assert Wire(RequestPayloads(c, asked)) + [] == Wire(RequestPayloads(c, asked));
    case Call(operation, params) =>
      var request := Request(k.nextId, operation, params);
      FrameLength(RequestPayload(c, request));
    case PutFails =>
      assert k.phase.written == 0 ==> Underway(c, k.phase) == [];
    case _ =>
  }

  lemma FrameLength(p: Bytes)
    ensures |p| < 0x1_0000_0000 ==> 0 < |Frame(p)| && Frame(p)[..0] == []
  {
  }

  lemma ClientStepIds(c: DoubleText, k: Client, down: Bytes, a: ClientAction)
    requires ClientIds(k) && ClientEnabled(c, k, down, a)
    ensures ClientIds(ClientStep(c, k, down, a))
  {
    hide RequestPayload, Frame, Judge, Listed, DecodeFrame, Wire;
  }

  lemma ClientStepReads(c: DoubleText, k: Client, down: Bytes, a: ClientAction)
    requires ReaderOf(down, k.downRead, k.taken, k.buffer, MAX_FRAME_BYTES) && ClientEnabled(c, k, down, a)
    ensures var k' := ClientStep(c, k, down, a);
            ReaderOf(down, k'.downRead, k'.taken, k'.buffer, MAX_FRAME_BYTES)
  {
    hide RequestPayload, Frame, Wire, Judge, DecodeFrame, ReaderOf;
    match a
    case GetBytes(n) => ReaderReads(down, k.downRead, n, k.taken, k.buffer, MAX_FRAME_BYTES);
    case TakeFrame =>
      if DecodeFrame(k.buffer, MAX_FRAME_BYTES).Complete? {
        ReaderTakes(down, k.downRead, k.taken, k.buffer, MAX_FRAME_BYTES);
      }
    case _ =>
  }

  // ---------------------------------------------------------------- session steps

  lemma EntryIsProper(c: DoubleText, payload: Bytes, outcome: Outcome, message: Bytes)
    requires outcome.Bad? ==> Listed(ERROR_NAMES, outcome.code)
    ensures EntryOf(c, payload, MakeEntry(c, payload, outcome, message))
  {
    hide Ascii, Parse, RequestFromJson;
    assert Ascii(ERROR_NAMES[3]) == Ascii("invalid_argument");
    assert Ascii(ERROR_NAMES[9]) == Ascii("protocol_error");
  }

  lemma SessionStepReads(g: Config, s: Session, up: Bytes, a: SessionAction)
    requires ReaderOf(up, s.upRead, s.served, s.buffer, g.maxFrame) && LogOf(g.doubles, s.served, s.log)
    requires SessionEnabled(g, s, up, a)
    ensures var s' := SessionStep(g, s, up, a);
            && ReaderOf(up, s'.upRead, s'.served, s'.buffer, g.maxFrame)
            && LogOf(g.doubles, s'.served, s'.log) && s.log <= s'.log
  {
    hide ReaderOf, LogOf, Payload, Frame, OnServe, MessagePayload;
    match a
    case ReadBytes(n) => ReaderReads(up, s.upRead, n, s.served, s.buffer, g.maxFrame);
    case Serve(outcome, message) => ServeReads(g, s, up, outcome, message);
    case _ =>
  }

  lemma ServeReads(g: Config, s: Session, up: Bytes, outcome: Outcome, message: Bytes)
    requires ReaderOf(up, s.upRead, s.served, s.buffer, g.maxFrame) && LogOf(g.doubles, s.served, s.log)
    requires outcome.Bad? ==> Listed(ERROR_NAMES, outcome.code)
    ensures var s' := OnServe(g, s, outcome, message);
            && ReaderOf(up, s'.upRead, s'.served, s'.buffer, g.maxFrame)
            && LogOf(g.doubles, s'.served, s'.log) && s.log <= s'.log
  {
    hide ReaderOf, Payload, MakeEntry, EntryOf, DecodeFrame, IsCritical;
    if DecodeFrame(s.buffer, g.maxFrame).Complete? {
      ReaderTakes(up, s.upRead, s.served, s.buffer, g.maxFrame);
      EntryIsProper(g.doubles, DecodeFrame(s.buffer, g.maxFrame).payload, outcome, message);
    }
  }

  lemma PayloadsSnoc(c: DoubleText, log: seq<Entry>, ms: seq<Outgoing>, m: Outgoing)
    requires ValidMessages(log, ms) && ValidMessage(log, m)
    ensures ValidMessages(log, ms + [m])
    ensures MessagePayloads(c, log, ms + [m]) == MessagePayloads(c, log, ms) + [MessagePayload(c, log, m)]
  {
  }

  /** Messages keep their payloads as the log grows. */
  lemma LogGrows(g: Config, log: seq<Entry>, e: Entry, ms: seq<Outgoing>)
    requires ValidMessages(log, ms)
    ensures forall m :: ValidMessage(log, m) ==>
              ValidMessage(log + [e], m) && MessagePayload(g.doubles, log + [e], m) == MessagePayload(g.doubles, log, m)
    ensures MessagePayloads(g.doubles, log + [e], ms) == MessagePayloads(g.doubles, log, ms)
  {
    hide Payload;
  }

  lemma AnswerPayload(c: DoubleText, log: seq<Entry>, e: Entry)
    ensures MessagePayload(c, log + [e], Answer(|log|)) == Payload(c, ResponseToJson(e.response))
  {
    hide Payload;
  }

  /** One more log entry, with the worker about to send it or past that. */
  lemma LogWire(g: Config, s: Session, e: Entry, worker: WorkerAt)
    requires SessionWire(g, s)
    requires worker.Replying? ==> |Payload(g.doubles, ResponseToJson(e.response))| <= g.maxFrame
    ensures SessionWire(g, s.(log := s.log + [e], worker := worker))
  {
    hide Payload, Frame, Wire, MessagePayload, MessagePayloads;
    LogGrows(g, s.log, e, s.sent);
    AnswerPayload(g.doubles, s.log, e);
  }

  /** The wire property looks at neither the input side nor the flags. */
  lemma SameWire(g: Config, s: Session, t: Session)
    requires SessionWire(g, s) && t.down == s.down && t.cut == s.cut && t.sent == s.sent && t.holder == s.holder
    requires t.notices == s.notices && t.log == s.log && t.worker == s.worker
    ensures SessionWire(g, t)
  {
    hide Frame, Wire, MessagePayload, MessagePayloads;
  }

  /** A served frame: its entry is logged and the worker turns to the answer, or gives up on one too long. */
  lemma CompleteWire(g: Config, s: Session, outcome: Outcome, message: Bytes)
    requires SessionWire(g, s) && DecodeFrame(s.buffer, g.maxFrame).Complete?
    ensures var t := OnServe(g, s, outcome, message);
            SessionWire(g, t) && t.down == s.down && t.cut == s.cut
  {
    hide Payload, MakeEntry, DecodeFrame, IsCritical, SessionWire, ResponseToJson;
    var t, e := OnServe(g, s, outcome, message),
                MakeEntry(g.doubles, DecodeFrame(s.buffer, g.maxFrame).payload, outcome, message);
    ServedFields(g, s, outcome, message);
    hide OnServe;
    LogWire(g, s, e, t.worker);
    SameWire(g, s.(log := s.log + [e], worker := t.worker), t);
  }

  lemma ServedFields(g: Config, s: Session, outcome: Outcome, message: Bytes)
    requires DecodeFrame(s.buffer, g.maxFrame).Complete?
    ensures var t, e := OnServe(g, s, outcome, message),
                        MakeEntry(g.doubles, DecodeFrame(s.buffer, g.maxFrame).payload, outcome, message);
            && t.down == s.down && t.cut == s.cut && t.sent == s.sent && t.holder == s.holder
            && t.notices == s.notices && t.log == s.log + [e]
            && (t.worker.Replying? ==> |Payload(g.doubles, ResponseToJson(e.response))| <= g.maxFrame)
  {
    hide Payload, MakeEntry, DecodeFrame, IsCritical, ResponseToJson;
  }

  /** No whole frame, or one over the limit: only the worker moves. */
  lemma UnservedWire(g: Config, s: Session, outcome: Outcome, message: Bytes)
    requires SessionWire(g, s) && !DecodeFrame(s.buffer, g.maxFrame).Complete?
    ensures var t := OnServe(g, s, outcome, message);
            SessionWire(g, t) && t.down == s.down && t.cut == s.cut
  {
    hide DecodeFrame, SessionWire;
    WorkerWire(g, s);
  }

  lemma ServeWire(g: Config, s: Session, outcome: Outcome, message: Bytes)
    requires SessionWire(g, s)
    ensures SessionWire(g, OnServe(g, s, outcome, message))
    ensures s.down == OnServe(g, s, outcome, message).down && s.cut == OnServe(g, s, outcome, message).cut
  {
    hide *;
    if DecodeFrame(s.buffer, g.maxFrame).Complete? {
      CompleteWire(g, s, outcome, message);
    } else {
      UnservedWire(g, s, outcome, message);
    }
  }

  /** What a write leaves queued, and how much of the held frame is out. */
  lemma WriteQueues(g: Config, s: Session, h: Holding, n: nat)
    requires SessionQueues(g, s) && s.holder == Some(h)
    requires n <= |Frame(MessagePayload(g.doubles, s.log, h.message))| && h.written < n
    ensures SessionQueues(g, OnWrite(s, h, Frame(MessagePayload(g.doubles, s.log, h.message)), n))
  {
    hide Payload, Frame, Wire, MessagePayload, MessagePayloads;
  }

  /** What a write puts on a connection that carries whole frames. */
  lemma WriteDown(g: Config, s: Session, h: Holding, n: nat, s': Session)
    requires SessionWire(g, s) && s.holder == Some(h) && !s.cut
    requires n <= |Frame(MessagePayload(g.doubles, s.log, h.message))| && h.written < n
    requires s' == OnWrite(s, h, Frame(MessagePayload(g.doubles, s.log, h.message)), n) && SessionQueues(g, s')
    ensures SessionWire(g, s')
  {
    hide Payload, Frame, Wire, MessagePayload, MessagePayloads;
    var p := MessagePayload(g.doubles, s.log, h.message);
    var before := MessagePayloads(g.doubles, s.log, s.sent);
    SentFit(g, s);
    WriteMore(Wire(before), Frame(p), h.written, n);
    PayloadsSnoc(g.doubles, s.log, s.sent, h.message);
    WireSnoc(before, p, g.maxFrame);
    assert Wire(before + [p]) + [] == Wire(before + [p]);
  }

  lemma WriteWire(g: Config, s: Session, h: Holding, n: nat)
    requires SessionWire(g, s) && s.holder == Some(h)
    requires n <= |Frame(MessagePayload(g.doubles, s.log, h.message))| && h.written < n
    ensures var s' := OnWrite(s, h, Frame(MessagePayload(g.doubles, s.log, h.message)), n);
            SessionWire(g, s') && s.down <= s'.down && s.cut == s'.cut
  {
    hide Payload, Frame, Wire, MessagePayload, MessagePayloads, Held;
    var s' := OnWrite(s, h, Frame(MessagePayload(g.doubles, s.log, h.message)), n);
    WriteQueues(g, s, h, n);
    hide SessionQueues;
    if !s.cut {
      WriteDown(g, s, h, n, s');
    }
  }

  lemma SentFit(g: Config, s: Session)
    requires SessionQueues(g, s)
    ensures WithinLimit(MessagePayloads(g.doubles, s.log, s.sent), g.maxFrame)
  {
    hide MessagePayload;
  }

  lemma SessionStepWire(g: Config, s: Session, up: Bytes, a: SessionAction)
    requires SessionWire(g, s) && SessionEnabled(g, s, up, a)
    ensures SessionWire(g, SessionStep(g, s, up, a))
    ensures s.down <= SessionStep(g, s, up, a).down
    ensures s.cut ==> SessionStep(g, s, up, a).cut
  {
    hide SessionWire, OnServe, OnBroadcast, OnLock, OnWrite, OnWriteFails, MessagePayload, Frame;
    match a
    case Serve(outcome, message) => ServeWire(g, s, outcome, message);
    case WriteBytes(n) => WriteWire(g, s, s.holder.value, s.holder.value.written + n);
    case WriteFails => FailWire(g, s);
    case Lock(sender) => LockWire(g, s, sender);
    case Broadcast(k, name, payload) => BroadcastWire(g, s, k, name, payload);
    case _ => WorkerWire(g, s);
  }

  lemma WorkerWire(g: Config, s: Session)
    requires SessionWire(g, s)
    ensures forall upRead, buffer :: SessionWire(g, s.(upRead := upRead, buffer := buffer, worker := Draining))
    ensures SessionWire(g, s.(worker := Gone, active := false)) && SessionWire(g, s.(worker := Reading))
  {
    hide Frame, Wire, MessagePayload, MessagePayloads;
  }

  lemma LockWire(g: Config, s: Session, sender: Sender)
    requires SessionWire(g, s) && s.holder.None?
    requires match sender case Worker => s.worker.Replying? && |s.log| > 0 case Broadcaster(k) => k in s.notices
    ensures SessionWire(g, OnLock(s, sender)) && s.down == OnLock(s, sender).down && s.cut == OnLock(s, sender).cut
  {
    hide Frame, Wire, MessagePayload, MessagePayloads;
    FrameLength(MessagePayload(g.doubles, s.log, if sender.Worker? then Answer(|s.log| - 1) else s.notices[sender.k]));
  }

  lemma FailWire(g: Config, s: Session)
    requires SessionWire(g, s) && s.holder.Some?
    ensures var s' := OnWriteFails(s, s.holder.value);
            SessionWire(g, s') && s.down == s'.down && (s.cut ==> s'.cut)
  {
    hide Frame, Wire, MessagePayload, MessagePayloads;
    FrameLength(MessagePayload(g.doubles, s.log, s.holder.value.message));
  }

  lemma BroadcastWire(g: Config, s: Session, k: nat, name: Bytes, payload: Value)
    requires SessionWire(g, s)
    ensures var s' := OnBroadcast(g, s, k, name, payload);
            SessionWire(g, s') && s.down == s'.down && s.cut == s'.cut
  {
    hide Frame, Wire, Payload, MessagePayloads;
  }

  // ---------------------------------------------------------------- correlation

  /** A document whose members but the last hold no double comes back as its last member does. */
  lemma {:induction false} BackOfLast(c: DoubleText, front: seq<Member>, last: Member)
    requires forall m :: m in front ==> Doubles(m.value) == {}
    ensures BackMembers(c, front + [last])
         == match Back(c, last.value)
            case Some(v) => Some(front + [Member(last.key, v)])
            case None => None
    decreases front
  {
    hide Back, Doubles;
    if front == [] {
      assert front + [last] == [last] && [last][1..] == [];
      assert BackMembers(c, [last]) == After(BackMember(c, last), BackMembers(c, []));
      assert Back(c, last.value).Some? ==>
               [Member(last.key, Back(c, last.value).value)] + [] == front + [Member(last.key, Back(c, last.value).value)];
    } else {
      assert (front + [last])[0] == front[0] && (front + [last])[1..] == front[1..] + [last];
      BackIsIdentity(c, front[0].value);
      BackOfLast(c, front[1..], last);
      if Back(c, last.value).Some? {
        var end := Member(last.key, Back(c, last.value).value);
        assert [front[0]] + (front[1..] + [end]) == front + [end];
      }
    }
  }

  lemma DocumentBack(c: DoubleText, front: seq<Member>, last: Member)
    requires forall m :: m in front ==> Doubles(m.value) == {}
    ensures Back(c, Object(front + [last]))
         == match Back(c, last.value)
            case Some(v) => Some(Object(front + [Member(last.key, v)]))
            case None => None
  {
    BackOfLast(c, front, last);
    if Back(c, last.value).Some? {
      var all := front + [Member(last.key, Back(c, last.value).value)];
      assert [] + all == all;
    }
  }

  function RequestBack(c: DoubleText, r: Request): Option<Request> {
    match Back(c, r.params)
    case Some(v) => Some(r.(params := v))
    case None => None
  }

  /** The daemon reads a request unless it is too deep or holds a double whose text is refused. */
  lemma RequestSurvives(c: DoubleText, r: Request)
    requires Printing(c) && Listed(METHOD_NAMES, r.operation)
    ensures ReadRequest(c, RequestPayload(c, r))
         == if Height(RequestToJson(r)) <= MAX_DEPTH then RequestBack(c, r) else None
  {
    var v := RequestToJson(r);
    ParseOfSerialize(c, v, -1);
    BackOfRequest(c, r);
    hide Back, Height, Parse, Serialize, RequestToJson, RequestFromJson;
    if Back(c, r.params).Some? {
      RequestDocument(RequestBack(c, r).value);
    }
  }

  lemma BackOfRequest(c: DoubleText, r: Request)
    ensures Back(c, RequestToJson(r))
         == match RequestBack(c, r) case Some(s) => Some(RequestToJson(s)) case None => None
  {
    hide Ascii, Back;
    var front := [Field("v", Int(PROTOCOL_VERSION)), Field("id", Int(IdToInt(r.id))), Field("method", String(r.operation))];
    DocumentBack(c, front, Field("params", r.params));
    assert RequestToJson(r) == Object(front + [Field("params", r.params)]);
    assert RequestBack(c, r).Some? ==>
             RequestToJson(RequestBack(c, r).value) == Object(front + [Field("params", Back(c, r.params).value)]);
  }

  function ResponseBack(c: DoubleText, r: Response): Option<Response> {
    match Back(c, r.result)
    case Some(v) => Some(r.(result := v))
    case None => None
  }

  lemma BackOfResponse(c: DoubleText, r: Response)
    requires Proper(r)
    ensures Back(c, ResponseToJson(r))
         == match ResponseBack(c, r) case Some(s) => Some(ResponseToJson(s)) case None => None
    ensures ResponseBack(c, r).Some? ==> Proper(ResponseBack(c, r).value)
  {
    hide Ascii, Listed;
    var front := [Field("v", Int(PROTOCOL_VERSION)), Field("id", Int(IdToInt(r.id))), Field("ok", Bool(r.ok))];
    var last := if r.ok then Field("result", r.result) else Field("error", ErrorToJson(r));
    if !r.ok {
      var code, message := Field("code", String(r.errorCode)), Field("message", String(r.errorMessage));
      assert Doubles(code.value) == {} && Doubles(message.value) == {};
      DocumentBack(c, [code], message);
      assert [code] + [message] == [code, message];
    }
    hide Back;
    DocumentBack(c, front, last);
    assert ResponseToJson(r) == Object(front + [last]);
    assert r.ok && ResponseBack(c, r).Some? ==>
             ResponseToJson(ResponseBack(c, r).value) == Object(front + [Field("result", Back(c, r.result).value)]);
  }

  /** What a waiting client makes of a reply: it is skipped, refused, or returned as received. */
  lemma JudgeResponse(c: DoubleText, request: Request, r: Response)
    requires Printing(c) && Proper(r)
    ensures var j := Judge(c, request, Payload(c, ResponseToJson(r)));
            j.Return? ==> ReceivedAs(c, r, j.response) && r.id == request.id
  {
    ParseOfSerialize(c, ResponseToJson(r), -1);
    BackOfResponse(c, r);
    hide Back, Height, Parse, Serialize, ResponseToJson, ResponseFromJson;
    if ResponseBack(c, r).Some? {
      ResponseDocument(ResponseBack(c, r).value);
    }
  }

  lemma JudgeNotice(c: DoubleText, request: Request, name: Bytes, payload: Value)
    requires Printing(c)
    ensures !Judge(c, request, Payload(c, EventToJson(name, payload))).Return?
  {
    var v := EventToJson(name, payload);
    ParseOfSerialize(c, v, -1);
    BackOfEvent(c, name, payload);
    hide Back, Height, Parse, Serialize, EventToJson, ResponseFromJson;
    if Back(c, payload).Some? {
      EventDocument(name, Back(c, payload).value);
    }
  }

  lemma BackOfEvent(c: DoubleText, name: Bytes, payload: Value)
    ensures Back(c, EventToJson(name, payload))
         == match Back(c, payload) case Some(v) => Some(EventToJson(name, v)) case None => None
  {
    hide Ascii, Back;
    var front := [Field("v", Int(PROTOCOL_VERSION)), Field("event", String(name))];
    DocumentBack(c, front, Field("payload", payload));
    assert EventToJson(name, payload) == Object(front + [Field("payload", payload)]);
    assert Back(c, payload).Some? ==>
             EventToJson(name, Back(c, payload).value) == Object(front + [Field("payload", Back(c, payload).value)]);
  }

  /** The frames a reader took off an uncut stream are the first payloads written to it. */
  lemma TakenArePrefix(
    stream: Bytes, position: nat, frames: seq<Bytes>, buffer: Bytes, payloads: seq<Bytes>, tail: Bytes, x: Bytes, k: nat)
    requires ReaderOf(stream, position, frames, buffer, MAX_UINT32) && WithinLimit(payloads, MAX_UINT32)
    requires |x| <= MAX_UINT32 && k < |Frame(x)| && tail == Frame(x)[..k]
    requires stream == Wire(payloads) + tail
    ensures frames <= payloads
  {
    hide Frame, Wire;
    assert stream[..position] <= stream;
    FramesArePrefix(frames, buffer, payloads, x, k, MAX_UINT32);
  }

  const MAX_UINT32: Limit := 0xFFFF_FFFF

  /** The client's reader has taken messages the session sent, in order. */
  lemma TakenWereSent(g: Config, st: State)
    requires SessionWire(g, st.session) && !st.session.cut
    requires ReaderOf(st.session.down, st.client.downRead, st.client.taken, st.client.buffer, MAX_FRAME_BYTES)
    ensures st.client.taken <= MessagePayloads(g.doubles, st.session.log, st.session.sent)
  {
    hide Wire, Frame, MessagePayload;
    var s := st.session;
    var x := if s.holder.Some? then MessagePayload(g.doubles, s.log, s.holder.value.message) else [];
    var k := if s.holder.Some? then s.holder.value.written else 0;
    FrameLength([]);
    TakenArePrefix(s.down, st.client.downRead, st.client.taken, st.client.buffer,
                   MessagePayloads(g.doubles, s.log, s.sent), Held(g, s.log, s.holder), x, k);
  }

  /** The session's reader has been handed requests the client asked, in order. */
  lemma ServedWereAsked(g: Config, st: State)
    requires ClientWire(g.doubles, st.client) && !st.client.cut
    requires ReaderOf(st.client.up, st.session.upRead, st.session.served, st.session.buffer, g.maxFrame)
    ensures st.session.served <= RequestPayloads(g.doubles, st.client.asked)
  {
    hide Wire, Frame, RequestPayload;
    var k := st.client;
    var x := if k.phase.Writing? then RequestPayload(g.doubles, k.phase.request) else [];
    var n := if k.phase.Writing? then k.phase.written else 0;
    FrameLength([]);
    TakenArePrefix(k.up, st.session.upRead, st.session.served, st.session.buffer,
                   RequestPayloads(g.doubles, k.asked), Underway(g.doubles, k.phase), x, n);
  }

  /** The answer at `i`, if it carries the id of the awaited request, answers that very request. */
  lemma AnswerMatches(g: Config, st: State, i: nat)
    requires Printing(g.doubles) && !st.client.cut && ClientWire(g.doubles, st.client) && ClientIds(st.client)
    requires ReaderOf(st.client.up, st.session.upRead, st.session.served, st.session.buffer, g.maxFrame)
    requires LogOf(g.doubles, st.session.served, st.session.log)
    requires st.client.phase.Waiting? && i < |st.session.log|
    requires st.session.log[i].response.id == st.client.phase.request.id
    ensures var asked, log, request := st.client.asked, st.session.log, st.client.phase.request;
            && i < |asked| && asked[i] == request
            && log[i].request.Some? && ArrivesAs(g.doubles, request, log[i].request.value)
  {
    hide RequestPayload, ReadRequest, Wire, ReaderOf, ClientWire, Back, Height;
    ServedWereAsked(g, st);
    var asked := st.client.asked;
    assert st.session.served[i] == RequestPayloads(g.doubles, asked)[i] == RequestPayload(g.doubles, asked[i]);
    RequestSurvives(g.doubles, asked[i]);
    assert asked[i].id == asked[|asked| - 1].id;
  }

  lemma StepCorrelates(g: Config, st: State, a: Action)
    requires Printing(g.doubles) && Inv(g, st) && Enabled(g, st, a)
    requires a.OfClient? && a.action.TakeFrame?
    ensures Correlated(g.doubles, Advance(g, st, a))
  {
    hide Judge, ClientWire, ClientIds, LogOf, SessionWire, ReaderOf, Wire, MessagePayload;
    var c, k := g.doubles, st.client;
    var d := DecodeFrame(k.buffer, MAX_FRAME_BYTES);
    if d.Complete? && Judge(c, k.phase.request, d.payload).Return? && !k.cut && !st.session.cut {
      var after := st.(client := k.(buffer := k.buffer[d.consumed..], taken := k.taken + [d.payload]));
      ReaderTakes(st.session.down, k.downRead, k.taken, k.buffer, MAX_FRAME_BYTES);
      TakenWereSent(g, after);
      var n := |k.taken|;
      assert after.client.taken[n] == d.payload;
      SentValid(g, st.session, n);
      var m := st.session.sent[n];
      assert MessagePayload(c, st.session.log, m) == d.payload;
      ReturnedAnswer(g, st, m);
    }
  }

  lemma SentValid(g: Config, s: Session, n: nat)
    requires SessionWire(g, s) && n < |s.sent|
    ensures ValidMessages(s.log, s.sent) && ValidMessage(s.log, s.sent[n])
    ensures MessagePayloads(g.doubles, s.log, s.sent)[n] == MessagePayload(g.doubles, s.log, s.sent[n])
  {
  }

  /** If the client returns on message `m`, then `m` answers the awaited request. */
  lemma ReturnedAnswer(g: Config, st: State, m: Outgoing)
    requires Printing(g.doubles) && WireInv(g, st) && !st.client.cut && st.client.phase.Waiting?
    requires ValidMessage(st.session.log, m)
    requires Judge(g.doubles, st.client.phase.request, MessagePayload(g.doubles, st.session.log, m)).Return?
    ensures m.Answer?
    ensures IsReplyTo(g.doubles, st.client.asked, st.session.log, st.client.phase.request,
                      Judge(g.doubles, st.client.phase.request, MessagePayload(g.doubles, st.session.log, m)).response,
                      m.index)
  {
    hide Judge, Payload, ClientWire, ClientIds, SessionWire, ReaderOf, Proper, Back;
    match m
    case Notice(name, payload) => JudgeNotice(g.doubles, st.client.phase.request, name, payload);
    case Answer(i) =>
      assert EntryOf(g.doubles, st.session.served[i], st.session.log[i]);
      JudgeResponse(g.doubles, st.client.phase.request, st.session.log[i].response);
      AnswerMatches(g, st, i);
  }

  /** Replies stay what they were as the lists grow. */
  lemma CorrelationStays(c: DoubleText, st: State, next: State)
    requires Correlated(c, st)
    requires st.client.asked <= next.client.asked && st.session.log <= next.session.log
    requires next.client.returned == st.client.returned
    requires st.client.cut ==> next.client.cut
    requires st.session.cut ==> next.session.cut
    ensures Correlated(c, next)
  {
    if !next.client.cut && !next.session.cut {
      forall r | r in next.client.returned
        ensures HasReply(c, next.client.asked, next.session.log, r)
      {
        var i :| IsReplyTo(c, st.client.asked, st.session.log, r.0, r.1, i);
        assert IsReplyTo(c, next.client.asked, next.session.log, r.0, r.1, i);
      }
    }
  }

  lemma ClientStepCorrelates(g: Config, st: State, a: ClientAction)
    requires Printing(g.doubles) && Inv(g, st) && Enabled(g, st, OfClient(a))
    ensures Correlated(g.doubles, Advance(g, st, OfClient(a)))
  {
    if a.TakeFrame? {
      StepCorrelates(g, st, OfClient(a));
    } else {
      hide ClientWire, ClientIds, LogOf, SessionWire, ReaderOf, Correlated, Judge, RequestPayload;
      ClientStepWire(g.doubles, st.client, st.session.down, a);
      CorrelationStays(g.doubles, st, Advance(g, st, OfClient(a)));
    }
  }

  // ---------------------------------------------------------------- main results

  /** Whatever snprintf and strtod do, every step keeps both byte streams and the log in order. */
  lemma StepKeepsWire(g: Config, st: State, a: Action)
    requires WireInv(g, st) && Enabled(g, st, a)
    ensures WireInv(g, Advance(g, st, a))
    ensures a.OfSession? ==> st.session.log <= Advance(g, st, a).session.log
    ensures a.OfSession? ==> st.session.cut ==> Advance(g, st, a).session.cut
  {
    hide ClientWire, ClientIds, LogOf, SessionWire, ReaderOf, ClientStep, SessionStep, ClientEnabled, SessionEnabled;
    match a
    case OfClient(x) =>
      var next := ClientStep(g.doubles, st.client, st.session.down, x);
      ClientStepWire(g.doubles, st.client, st.session.down, x);
      ClientStepIds(g.doubles, st.client, st.session.down, x);
      ClientStepReads(g.doubles, st.client, st.session.down, x);
      ReaderGrows(st.client.up, next.up, st.session.upRead, st.session.served, st.session.buffer, g.maxFrame);
    case OfSession(x) =>
      var next := SessionStep(g, st.session, st.client.up, x);
      SessionStepReads(g, st.session, st.client.up, x);
      SessionStepWire(g, st.session, st.client.up, x);
      ReaderGrows(st.session.down, next.down, st.client.downRead, st.client.taken, st.client.buffer, MAX_FRAME_BYTES);
  }

  lemma StepKeepsInv(g: Config, st: State, a: Action)
    requires Printing(g.doubles) && Inv(g, st) && Enabled(g, st, a)
    ensures Inv(g, Advance(g, st, a))
  {
    hide WireInv, Correlated, ClientStep, SessionStep, ClientEnabled, SessionEnabled;
    StepKeepsWire(g, st, a);
    match a
    case OfClient(x) => ClientStepCorrelates(g, st, x);
    case OfSession(x) => CorrelationStays(g.doubles, st, Advance(g, st, a));
  }

  lemma InitialInv(g: Config, st: State)
    requires Initial(st)
    ensures Inv(g, st)
  {
    var none: Bytes := [];
    assert none[..0] == [];
  }

  /** Every state of every run satisfies the invariant of the byte streams. */
  lemma {:induction false} RunKeepsWire(g: Config, states: seq<State>, actions: seq<Action>, n: nat)
    requires IsRun(g, states, actions) && n < |states|
    ensures WireInv(g, states[n])
  {
    hide WireInv, Advance, Enabled, Initial, Correlated;
    if n == 0 {
      InitialInv(g, states[0]);
    } else {
      RunKeepsWire(g, states, actions, n - 1);
      StepKeepsWire(g, states[n - 1], actions[n - 1]);
    }
  }

  /** With every double printed as a number literal, replies stay correlated as well. */
  lemma {:induction false} RunKeepsInv(g: Config, states: seq<State>, actions: seq<Action>, n: nat)
    requires Printing(g.doubles) && IsRun(g, states, actions) && n < |states|
    ensures Inv(g, states[n])
  {
    hide Inv, Advance, Enabled, Initial;
    if n == 0 {
      InitialInv(g, states[0]);
    } else {
      RunKeepsInv(g, states, actions, n - 1);
      StepKeepsInv(g, states[n - 1], actions[n - 1]);
    }
  }

  /**
   * At every moment of every run, until a write has failed in the middle of a frame: both directions
   * of the connection carry whole frames and a proper prefix of the one frame being written, which on
   * the daemon's side is the frame of the thread that holds the session's mutex.
   */
  lemma WireIsWholeFrames(g: Config, states: seq<State>, actions: seq<Action>, n: nat)
    requires IsRun(g, states, actions) && n < |states|
    ensures var s := states[n].session;
            !s.cut ==>
              && ValidMessages(s.log, s.sent) && (s.holder.Some? ==> ValidMessage(s.log, s.holder.value.message))
              && WithinLimit(MessagePayloads(g.doubles, s.log, s.sent), g.maxFrame)
              && exists tail :: s.down == Wire(MessagePayloads(g.doubles, s.log, s.sent)) + tail
                   && (s.holder.None? ==> tail == [])
                   && (s.holder.Some? ==>
                         && |MessagePayload(g.doubles, s.log, s.holder.value.message)| <= g.maxFrame
                         && tail < Frame(MessagePayload(g.doubles, s.log, s.holder.value.message)))
    ensures var k := states[n].client;
            !k.cut ==>
              && WithinLimit(RequestPayloads(g.doubles, k.asked), MAX_FRAME_BYTES)
              && Wire(RequestPayloads(g.doubles, k.asked)) <= k.up
              && (!k.phase.Writing? ==> k.up == Wire(RequestPayloads(g.doubles, k.asked)))
  {
    RunKeepsWire(g, states, actions, n);
    var s := states[n].session;
    hide Wire, Frame, MessagePayload, RequestPayload, ClientIds, ReaderOf, LogOf;
    SentFit(g, s);
    if !s.cut {
      var tail := Held(g, s.log, s.holder);
      assert s.down == Wire(MessagePayloads(g.doubles, s.log, s.sent)) + tail;
    }
    var k := states[n].client;
    assert Wire(RequestPayloads(g.doubles, k.asked)) + [] == Wire(RequestPayloads(g.doubles, k.asked));
  }

  /**
   * Whatever was called, given up on, skipped or broadcast before: a reply returned for a request is
   * what the daemon answered to that very request, and no other request asked here had its id.
   */
  lemma RepliesMatchRequests(g: Config, states: seq<State>, actions: seq<Action>, n: nat, j: nat)
    requires Printing(g.doubles) && IsRun(g, states, actions) && n < |states|
    requires j < |states[n].client.returned| && !states[n].client.cut && !states[n].session.cut
    ensures var k, r := states[n].client, states[n].client.returned[j];
            exists i :: IsReplyTo(g.doubles, k.asked, states[n].session.log, r.0, r.1, i) && OnlyWithId(k.asked, r.0.id, i)
  {
    RunKeepsInv(g, states, actions, n);
    hide ClientWire, SessionWire, ReaderOf, LogOf, ArrivesAs, ReceivedAs;
    var k, r := states[n].client, states[n].client.returned[j];
    assert r in k.returned;
    var i :| IsReplyTo(g.doubles, k.asked, states[n].session.log, r.0, r.1, i);
    IdsDistinct(k, i);
  }

  /** No request but the one at `i` has this id. */
  ghost predicate OnlyWithId(asked: seq<Request>, id: Id, i: nat) {
    forall m :: 0 <= m < |asked| && asked[m].id == id ==> m == i
  }

  lemma IdsDistinct(k: Client, i: nat)
    requires ClientIds(k) && i < |k.asked|
    ensures OnlyWithId(k.asked, k.asked[i].id, i)
  {
  }

  /**
   * The worker answers what was asked, in the order asked; nothing is answered twice or out of turn.
   * It reads a request unless the document is nested too deep or holds a double whose text is refused,
   * and then it answers under id 0.
   */
  lemma AnswersFollowRequests(g: Config, states: seq<State>, actions: seq<Action>, n: nat, i: nat)
    requires Printing(g.doubles) && IsRun(g, states, actions) && n < |states|
    requires i < |states[n].session.log| && !states[n].client.cut
    ensures var k, e := states[n].client, states[n].session.log[i];
            && i < |k.asked|
            && (e.request.Some? ==> ArrivesAs(g.doubles, k.asked[i], e.request.value) && e.response.id == k.asked[i].id)
            && (e.request.None? ==> e.response.id == 0)
            && (e.request.Some? <==> Height(RequestToJson(k.asked[i])) <= MAX_DEPTH && Back(g.doubles, k.asked[i].params).Some?)
  {
    RunKeepsWire(g, states, actions, n);
    hide SessionWire, Wire, ReaderOf, RequestPayload, ReadRequest, ClientWire, RequestToJson, Height, Back;
    var st := states[n];
    ServedWereAsked(g, st);
    var asked := st.client.asked;
    assert st.session.served[i] == RequestPayloads(g.doubles, asked)[i] == RequestPayload(g.doubles, asked[i]);
    RequestSurvives(g.doubles, asked[i]);
    assert EntryOf(g.doubles, st.session.served[i], st.session.log[i]);
  }
}
