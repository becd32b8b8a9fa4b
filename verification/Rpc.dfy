/**
 * One client connection to the daemon as interleaved steps (src/ipc/server.cpp:16-34, 139-238;
 * src/ipc/client.cpp:275-356): a client that calls, times out and calls again, the session's worker,
 * and any number of broadcasts, all writing through the session's mutex in partial writes.
 */
module Rpc {
  import opened Base
  import opened JsonText
  import opened JsonRoundTrip
  import opened Framing
  import opened Messages

  /** `maxFrame` is ServerOptions::max_frame_bytes; the client uses the default limit. */
  datatype Config = Config(doubles: DoubleText, maxFrame: Limit)

  function Payload(c: DoubleText, v: Value): Bytes { Serialize(c, v, -1) }

  function ReadRequest(c: DoubleText, payload: Bytes): Option<Request> {
    match Parse(c, payload)
    case Err(_) => None
    case Ok(v) => match RequestFromJson(v) case Ok(r) => Some(r) case Err(_) => None
  }

  /** `s` is request `r` as the daemon reads it, its doubles having gone through their texts. */
  predicate ArrivesAs(c: DoubleText, r: Request, s: Request) {
    s == r.(params := s.params) && Back(c, r.params) == Some(s.params)
  }

  predicate ReceivedAs(c: DoubleText, r: Response, s: Response) {
    s == r.(result := s.result) && Back(c, r.result) == Some(s.result)
  }

  // ---------------------------------------------------------------- client

  datatype Phase = Idle | Writing(request: Request, written: nat) | Waiting(request: Request)

  /**
   * `up` is every byte this client has written, `asked` the requests whose frames went out whole,
   * `taken` the frames its reader has handed out, `returned` the replies its calls returned.
   */
  datatype Client = Client(
    nextId: nat, phase: Phase, asked: seq<Request>, up: Bytes, cut: bool,
    downRead: nat, buffer: Bytes, taken: seq<Bytes>, returned: seq<(Request, Response)>)

  datatype ClientAction =
    | Call(operation: Bytes, params: Value)
    | PutBytes(n: nat)
    | PutFails
    | GetBytes(n: nat)
    | TakeFrame
    | GiveUp

  function RequestPayload(c: DoubleText, r: Request): Bytes { Payload(c, RequestToJson(r)) }

  predicate ClientEnabled(c: DoubleText, k: Client, down: Bytes, a: ClientAction) {
    match a
    case Call(operation, params) =>
      k.phase.Idle? && k.nextId < 0x1_0000_0000_0000_0000 && Listed(METHOD_NAMES, operation)
    case PutBytes(n) =>
      && k.phase.Writing? && |RequestPayload(c, k.phase.request)| <= MAX_FRAME_BYTES
      && 0 < n && k.phase.written + n <= |Frame(RequestPayload(c, k.phase.request))|
    case PutFails => k.phase.Writing?
    case GetBytes(n) =>
      && k.phase.Waiting? && DecodeFrame(k.buffer, MAX_FRAME_BYTES).Incomplete?
      && 0 < n && k.downRead + n <= |down|
    case TakeFrame => k.phase.Waiting? && !DecodeFrame(k.buffer, MAX_FRAME_BYTES).Incomplete?
    case GiveUp => k.phase.Waiting?
  }

  /** What round_trip does with one payload while it waits for `request`. */
  datatype Verdict = Skip | Stop | Return(response: Response)

  function Judge(c: DoubleText, request: Request, payload: Bytes): Verdict {
    match Parse(c, payload)
    case Err(_) => Stop
    case Ok(v) =>
      if IsEvent(v) then Skip
      else
        match ResponseFromJson(v)
        case Err(_) => Stop
        case Ok(r) => if r.id != request.id then Skip else Return(r)
  }

  function ClientStep(c: DoubleText, k: Client, down: Bytes, a: ClientAction): Client
    requires ClientEnabled(c, k, down, a)
  {
    match a
    case Call(operation, params) =>
      var request := Request(k.nextId, operation, params);
      if |RequestPayload(c, request)| > MAX_FRAME_BYTES then k.(nextId := k.nextId + 1)
      else k.(nextId := k.nextId + 1, phase := Writing(request, 0))
    case PutBytes(n) =>
      var frame := Frame(RequestPayload(c, k.phase.request));
      var end := k.phase.written + n;
      var grown := k.(up := k.up + frame[k.phase.written..end]);
      if end == |frame| then grown.(phase := Waiting(k.phase.request), asked := k.asked + [k.phase.request])
      else grown.(phase := k.phase.(written := end))
    case PutFails => k.(phase := Idle, cut := k.cut || k.phase.written > 0)
    case GetBytes(n) => k.(buffer := k.buffer + down[k.downRead..k.downRead + n], downRead := k.downRead + n)
    case TakeFrame =>
      (match DecodeFrame(k.buffer, MAX_FRAME_BYTES)
       case Complete(payload, consumed) =>
         var popped := k.(buffer := k.buffer[consumed..], taken := k.taken + [payload]);
         (match Judge(c, k.phase.request, payload)
          case Skip => popped
          case Stop => popped.(phase := Idle)
          case Return(r) => popped.(phase := Idle, returned := k.returned + [(k.phase.request, r)]))
       case _ => k.(phase := Idle))
    case GiveUp => k.(phase := Idle)
  }

  // ---------------------------------------------------------------- session

  datatype Sender = Worker | Broadcaster(k: nat)

  datatype Outgoing = Answer(index: nat) | Notice(name: Bytes, payload: Value)

  /** The thread holding write_mutex and how much of its frame is on the wire. */
  datatype Holding = Holding(sender: Sender, message: Outgoing, written: nat)

  /** Where serve_client is: at the read, inside the frame loop, sending (fatally or not), or gone. */
  datatype WorkerAt = Reading | Draining | Replying(critical: bool) | Gone

  /** What the worker made of one frame. */
  datatype Entry = Entry(request: Option<Request>, response: Response)

  /**
   * `served` are the frames the worker's reader has handed out and `log` what it answered to each;
   * `down` is every byte written to this connection and `sent` the messages that went out whole.
   */
  datatype Session = Session(
    upRead: nat, buffer: Bytes, served: seq<Bytes>, log: seq<Entry>, worker: WorkerAt,
    active: bool, subscribed: bool, notices: map<nat, Outgoing>, holder: Option<Holding>,
    down: Bytes, sent: seq<Outgoing>, cut: bool)

  /** What the registered handler, or the missing one, came to. */
  datatype Outcome = Good(result: Value) | Bad(code: Bytes, message: Bytes)

  datatype SessionAction =
    | ReadBytes(n: nat)
    | Serve(outcome: Outcome, message: Bytes)
    | Leave
    | Broadcast(k: nat, name: Bytes, payload: Value)
    | Lock(sender: Sender)
    | WriteBytes(n: nat)
    | WriteFails

  const SUBSCRIBE: Bytes := Ascii("subscribe")

  function MakeEntry(c: DoubleText, payload: Bytes, outcome: Outcome, message: Bytes): Entry {
    match Parse(c, payload)
    case Err(_) => Entry(None, Failure(0, Ascii("invalid_argument"), message))
    case Ok(v) =>
      match RequestFromJson(v)
      case Err(_) => Entry(None, Failure(0, Ascii("protocol_error"), message))
      case Ok(r) =>
        if r.operation == SUBSCRIBE then Entry(Some(r), Success(r.id, Object([Field("subscribed", Bool(true))])))
        else
          match outcome
          case Good(result) => Entry(Some(r), Success(r.id, result))
          case Bad(code, text) => Entry(Some(r), Failure(r.id, code, text))
  }

  /** Only a failed send of a dispatched reply drops the client. */
  predicate IsCritical(e: Entry) { e.request.Some? && e.request.value.operation != SUBSCRIBE }

  function MessagePayload(c: DoubleText, log: seq<Entry>, m: Outgoing): Bytes
    requires m.Answer? ==> m.index < |log|
  {
    match m
    case Answer(i) => Payload(c, ResponseToJson(log[i].response))
    case Notice(name, payload) => Payload(c, EventToJson(name, payload))
  }

  function Finish(s: Session, sender: Sender, ok: bool): Session {
    match sender
    case Worker =>
      if ok || (s.worker.Replying? && !s.worker.critical) then s.(worker := Draining)
      else s.(worker := Gone, active := false)
    case Broadcaster(k) => s.(notices := s.notices - {k}, active := s.active && ok)
  }

  predicate SessionEnabled(g: Config, s: Session, up: Bytes, a: SessionAction) {
    match a
    case ReadBytes(n) => s.worker.Reading? && s.active && 0 < n && s.upRead + n <= |up|
    case Serve(outcome, message) => s.worker.Draining? && (outcome.Bad? ==> Listed(ERROR_NAMES, outcome.code))
    case Leave => s.worker.Reading?
    case Broadcast(k, name, payload) => k !in s.notices && s.subscribed && s.active
    case Lock(sender) =>
      && s.holder.None?
      && (match sender case Worker => s.worker.Replying? && |s.log| > 0 case Broadcaster(k) => k in s.notices)
    case WriteBytes(n) =>
      && s.holder.Some? && (s.holder.value.message.Answer? ==> s.holder.value.message.index < |s.log|)
      && |MessagePayload(g.doubles, s.log, s.holder.value.message)| <= g.maxFrame
      && 0 < n && s.holder.value.written + n <= |Frame(MessagePayload(g.doubles, s.log, s.holder.value.message))|
    case WriteFails => s.holder.Some?
  }

  /** One frame off the reader's buffer, or the end of the frame loop. */
  function OnServe(g: Config, s: Session, outcome: Outcome, message: Bytes): Session {
    match DecodeFrame(s.buffer, g.maxFrame)
    case Incomplete => s.(worker := Reading)
    case Oversized => s.(worker := Gone, active := false)
    case Complete(payload, consumed) =>
      var logged := Logged(s, payload, consumed, MakeEntry(g.doubles, payload, outcome, message));
      if |Payload(g.doubles, ResponseToJson(logged.log[|s.log|].response))| <= g.maxFrame then logged
      else Finish(logged, Worker, false)
  }

  function Logged(s: Session, payload: Bytes, consumed: nat, e: Entry): Session
    requires consumed <= |s.buffer|
  {
    s.(buffer := s.buffer[consumed..], served := s.served + [payload], log := s.log + [e],
       subscribed := s.subscribed || (e.request.Some? && e.request.value.operation == SUBSCRIBE),
       worker := Replying(IsCritical(e)))
  }

  function OnBroadcast(g: Config, s: Session, k: nat, name: Bytes, payload: Value): Session {
    if |Payload(g.doubles, EventToJson(name, payload))| <= g.maxFrame
    then s.(notices := s.notices[k := Notice(name, payload)])
    else s.(active := false)
  }

  function OnLock(s: Session, sender: Sender): Session
    requires match sender case Worker => |s.log| > 0 case Broadcaster(k) => k in s.notices
  {
    match sender
    case Worker => s.(holder := Some(Holding(Worker, Answer(|s.log| - 1), 0)))
    case Broadcaster(k) => s.(holder := Some(Holding(sender, s.notices[k], 0)))
  }

  /** `connection->write` took bytes up to `end` of the holder's frame. */
  function OnWrite(s: Session, h: Holding, frame: Bytes, end: nat): Session
    requires h.written <= end <= |frame|
  {
    var grown := s.(down := s.down + frame[h.written..end]);
    if end == |frame| then Finish(grown.(holder := None, sent := s.sent + [h.message]), h.sender, true)
    else grown.(holder := Some(h.(written := end)))
  }

  function OnWriteFails(s: Session, h: Holding): Session {
    Finish(s.(holder := None, cut := s.cut || h.written > 0), h.sender, false)
  }

  function SessionStep(g: Config, s: Session, up: Bytes, a: SessionAction): Session
    requires SessionEnabled(g, s, up, a)
  {
    match a
    case ReadBytes(n) =>
      s.(buffer := s.buffer + up[s.upRead..s.upRead + n], upRead := s.upRead + n, worker := Draining)
    case Serve(outcome, message) => OnServe(g, s, outcome, message)
    case Leave => s.(worker := Gone, active := false)
    case Broadcast(k, name, payload) => OnBroadcast(g, s, k, name, payload)
    case Lock(sender) => OnLock(s, sender)
    case WriteBytes(n) =>
      var h := s.holder.value;
      OnWrite(s, h, Frame(MessagePayload(g.doubles, s.log, h.message)), h.written + n)
    case WriteFails => OnWriteFails(s, s.holder.value)
  }

  // ---------------------------------------------------------------- runs

  datatype State = State(client: Client, session: Session)

  datatype Action = OfClient(action: ClientAction) | OfSession(step: SessionAction)

  predicate Enabled(g: Config, s: State, a: Action) {
    match a
    case OfClient(x) => ClientEnabled(g.doubles, s.client, s.session.down, x)
    case OfSession(x) => SessionEnabled(g, s.session, s.client.up, x)
  }

  function Advance(g: Config, s: State, a: Action): State
    requires Enabled(g, s, a)
  {
    match a
    case OfClient(x) => s.(client := ClientStep(g.doubles, s.client, s.session.down, x))
    case OfSession(x) => s.(session := SessionStep(g, s.session, s.client.up, x))
  }

  /** A fresh connection of a client that has used some ids already. */
  predicate Initial(s: State) {
    && s.client.nextId >= 1
    && s.client == Client(s.client.nextId, Idle, [], [], false, 0, [], [], [])
    && s.session == Session(0, [], [], [], Reading, true, false, map[], None, [], [], false)
  }

  /** `states` is a run: it starts fresh and every state follows from the one before by an enabled step. */
  predicate IsRun(g: Config, states: seq<State>, actions: seq<Action>) {
    && |states| == |actions| + 1 && Initial(states[0])
    && forall i :: 0 <= i < |actions| ==>
         Enabled(g, states[i], actions[i]) && states[i + 1] == Advance(g, states[i], actions[i])
  }
}
