/**
 * A restore plan on its way from the daemon to the client: src/storage/serialization.cpp:279-300,
 * src/ipc/client.cpp:63-88, 117-138, 275-334.
 */
module Plans {
  import opened Base
  import opened JsonText
  import opened JsonRoundTrip
  import opened Framing
  import opened Messages
  import opened Rpc
  import opened RpcSafety
  import opened Relay

  type UInt32 = n: nat | n < 0x1_0000_0000

  /** `kind` is the uint8 under the enum. */
  datatype RestoreStep = RestoreStep(
    kind: Byte, targetId: Bytes, description: Bytes, skipped: bool, skipReason: Bytes)

  datatype RestorePlan = RestorePlan(
    snapshotId: Bytes, steps: seq<RestoreStep>, warnings: seq<Bytes>, estimatedDurationMs: UInt32)

  // ---------------------------------------------------------------- daemon half

  function StringsToJson(strings: seq<Bytes>): Value {
    Array(seq(|strings|, i requires 0 <= i < |strings| => String(strings[i])))
  }

  function StepToJson(s: RestoreStep): Value {
    var always := [Field("kind", Int(s.kind)), Field("target_id", String(s.targetId)),
                   Field("description", String(s.description)), Field("skipped", Bool(s.skipped))];
    Object(if s.skipReason == [] then always else always + [Field("skip_reason", String(s.skipReason))])
  }

  function StepsToJson(steps: seq<RestoreStep>): Value {
    Array(seq(|steps|, i requires 0 <= i < |steps| => StepToJson(steps[i])))
  }

  function PlanToJson(p: RestorePlan): Value {
    Object([Field("snapshot_id", String(p.snapshotId)), Field("steps", StepsToJson(p.steps)),
            Field("warnings", StringsToJson(p.warnings)),
            Field("estimated_duration_ms", Int(p.estimatedDurationMs))])
  }

  method BuildStrings(strings: seq<Bytes>) returns (v: Value)
    ensures v == StringsToJson(strings)
  {
    var values: seq<Value> := [];
    for i := 0 to |strings|
      invariant |values| == i && forall k :: 0 <= k < i ==> values[k] == String(strings[k])
    {
      values := values + [String(strings[i])];
    }
    v := Array(values);
  }

  method BuildPlan(p: RestorePlan) returns (v: Value)
    ensures v == PlanToJson(p)
  {
    var steps: seq<Value> := [];
    for i := 0 to |p.steps|
      invariant |steps| == i && forall k :: 0 <= k < i ==> steps[k] == StepToJson(p.steps[k])
    {
      var fields := [Field("kind", Int(p.steps[i].kind)), Field("target_id", String(p.steps[i].targetId)),
                     Field("description", String(p.steps[i].description)), Field("skipped", Bool(p.steps[i].skipped))];
      if p.steps[i].skipReason != [] {
        fields := fields + [Field("skip_reason", String(p.steps[i].skipReason))];
      }
      steps := steps + [Object(fields)];
    }
    assert Array(steps) == StepsToJson(p.steps);
    var warnings := BuildStrings(p.warnings);
    v := Object([Field("snapshot_id", String(p.snapshotId)), Field("steps", Array(steps)),
                 Field("warnings", warnings), Field("estimated_duration_ms", Int(p.estimatedDurationMs))]);
  }

  /** What the plan_restore handler returns. */
  function PlanResult(p: RestorePlan): Value { Object([Field("plan", PlanToJson(p))]) }

  // ---------------------------------------------------------------- client half

  function StringField(v: Value, key: string): Bytes {
    match Find(v, key) case Some(x) => AsString(x) case None => []
  }

  function UnsignedField(v: Value, key: string): UInt32 {
    match Find(v, key) case Some(x) => AsInt(x, 0) % 0x1_0000_0000 case None => 0
  }

  function BoolField(v: Value, key: string): bool {
    match Find(v, key) case Some(x) => AsBool(x) case None => false
  }

  function StringList(v: Value, key: string): seq<Bytes> {
    match Find(v, key)
    case Some(Array(items)) => seq(|items|, i requires 0 <= i < |items| => AsString(items[i]))
    case _ => []
  }

  function StepFromJson(v: Value): RestoreStep {
    var kind := match Find(v, "kind") case Some(k) => AsInt(k, 0) % 256 case None => 0;
    RestoreStep(kind, StringField(v, "target_id"), StringField(v, "description"), BoolField(v, "skipped"),
                StringField(v, "skip_reason"))
  }

  function PlanFromJson(v: Value): RestorePlan {
    var steps :=
      match Find(v, "steps")
      case Some(Array(items)) => seq(|items|, i requires 0 <= i < |items| => StepFromJson(items[i]))
      case _ => [];
    RestorePlan(StringField(v, "snapshot_id"), steps, StringList(v, "warnings"), UnsignedField(v, "estimated_duration_ms"))
  }

  method ReadPlan(v: Value) returns (p: RestorePlan)
    ensures p == PlanFromJson(v)
  {
    var warnings: seq<Bytes> := [];
    var found := Find(v, "warnings");
    if found.Some? && found.value.Array? {
      for i := 0 to |found.value.items|
        invariant |warnings| == i && forall k :: 0 <= k < i ==> warnings[k] == AsString(found.value.items[k])
      {
        warnings := warnings + [AsString(found.value.items[i])];
      }
    }
    var steps: seq<RestoreStep> := [];
    found := Find(v, "steps");
    if found.Some? && found.value.Array? {
      for i := 0 to |found.value.items|
        invariant |steps| == i && forall k :: 0 <= k < i ==> steps[k] == StepFromJson(found.value.items[k])
      {
        steps := steps + [StepFromJson(found.value.items[i])];
      }
    }
    p := RestorePlan(StringField(v, "snapshot_id"), steps, warnings, UnsignedField(v, "estimated_duration_ms"));
  }

  /** round_trip's reading loop over the frames it takes. */
  function FirstReply(c: DoubleText, request: Request, frames: seq<Bytes>): Verdict {
    if frames == [] then Skip
    else
      match Judge(c, request, frames[0])
      case Skip => FirstReply(c, request, frames[1..])
      case verdict => verdict
  }

  lemma {:induction false} FirstReplySnoc(c: DoubleText, request: Request, frames: seq<Bytes>, p: Bytes)
    requires FirstReply(c, request, frames).Skip?
    ensures FirstReply(c, request, frames + [p]) == Judge(c, request, p)
  {
    hide Judge;
    if frames == [] {
      assert [p][1..] == [];
    } else {
      assert (frames + [p])[1..] == frames[1..] + [p];
      FirstReplySnoc(c, request, frames[1..], p);
    }
  }

  datatype CallError = TooLong | WriteError | BadFrame | BadDocument | ReadError | ConnectionClosed | OutOfTime

  /**
   * round_trip: writes the request, then reads until a reply with its id comes, for at most `turns`
   * looks at the clock. `taken` are the frames that left the reader meanwhile.
   */
  method RoundTrip(c: DoubleText, connection: Connection, reader: FrameReader, request: Request, turns: nat)
    returns (r: Result<Response, CallError>, ghost read: Bytes, ghost taken: seq<Bytes>)
    requires reader.max == MAX_FRAME_BYTES
    modifies connection, reader
    ensures connection.received == old(connection.received) + read
    ensures WithinLimit(taken, MAX_FRAME_BYTES)
    ensures old(reader.buffer) + read == Wire(taken) + reader.buffer
    ensures r.Ok? ==> FirstReply(c, request, taken) == Return(r.value)
    ensures r == Err(OutOfTime) || r == Err(ConnectionClosed) ==> FirstReply(c, request, taken) == Skip
    ensures r.Ok? ==>
              && |RequestPayload(c, request)| <= MAX_FRAME_BYTES
              && connection.sent == old(connection.sent) + Frame(RequestPayload(c, request))
  {
    hide Wire, Frame, Judge, RequestPayload, DecodeFrame, FirstReply;
    read, taken := [], [];
    assert Wire([]) == [] && FirstReply(c, request, []) == Skip by {
      NothingTaken(c, request);
    }
    var frame := EncodeFrame(RequestPayload(c, request), MAX_FRAME_BYTES);
    if frame.None? {
      return Err(TooLong), read, taken;
    }
    var ok; ghost var written;
    ok, written := Relay.WriteBytes(connection, frame.value);
    if !ok {
      return Err(WriteError), read, taken;
    }
    assert frame.value[..written] == frame.value;
    ghost var start := reader.buffer;
    for turn := 0 to turns
      invariant connection.received == old(connection.received) + read
      invariant connection.sent == old(connection.sent) + frame.value
      invariant WithinLimit(taken, MAX_FRAME_BYTES) && start + read == Wire(taken) + reader.buffer
      invariant FirstReply(c, request, taken) == Skip
    {
      ghost var buffered := reader.buffer;
      var next := reader.Next();
      if next.Oversized? {
        return Err(BadFrame), read, taken;
      }
      if next.Complete? {
        TakeOne(taken, buffered, MAX_FRAME_BYTES);
        FirstReplySnoc(c, request, taken, next.payload);
        taken := taken + [next.payload];
        match Judge(c, request, next.payload)
        case Skip =>
        case Stop => return Err(BadDocument), read, taken;
        case Return(response) => return Ok(response), read, taken;
      } else {
        var chunk := connection.ReadSome();
        if chunk.ReadFailed? {
          return Err(ReadError), read, taken;
        }
        if chunk.Chunk? {
          if chunk.bytes == [] {
            assert old(connection.received) + read + [] == old(connection.received) + read;
            return Err(ConnectionClosed), read, taken;
          }
          reader.Feed(chunk.bytes);
          Assoc(old(connection.received), read, chunk.bytes);
          Assoc(start, read, chunk.bytes);
          Assoc(Wire(taken), buffered, chunk.bytes);
          read := read + chunk.bytes;
        }
      }
    }
    return Err(OutOfTime), read, taken;
  }

  lemma NothingTaken(c: DoubleText, request: Request)
    ensures Wire([]) == [] && FirstReply(c, request, []) == Skip
  {
  }

  lemma TakeOne(taken: seq<Bytes>, buffer: Bytes, max: Limit)
    requires WithinLimit(taken, max) && DecodeFrame(buffer, max).Complete?
    ensures var d := DecodeFrame(buffer, max);
            && WithinLimit(taken + [d.payload], max)
            && Wire(taken) + buffer == Wire(taken + [d.payload]) + buffer[d.consumed..]
  {
    hide Frame, DecodeFrame;
    var d := DecodeFrame(buffer, max);
    WholeFrame(buffer, max);
    WireSnoc(taken, d.payload, max);
    Assoc(Wire(taken), Frame(d.payload), buffer[d.consumed..]);
  }

  // ---------------------------------------------------------------- the round trip

  const STEP_KEYS := ["kind", "target_id", "description", "skipped", "skip_reason"]

  const PLAN_KEYS := ["snapshot_id", "steps", "warnings", "estimated_duration_ms"]

  lemma StepKeysDiffer()
    ensures forall s, t: string :: s in STEP_KEYS && t in STEP_KEYS && s != t ==> Ascii(s) != Ascii(t)
  {
    hide Ascii;
    AsciiInjective();
  }

  lemma PlanKeysDiffer()
    ensures forall s, t: string :: s in PLAN_KEYS && t in PLAN_KEYS && s != t ==> Ascii(s) != Ascii(t)
  {
    hide Ascii;
    AsciiInjective();
  }

  lemma FindIn5(a: Member, b: Member, c: Member, d: Member, e: Member, key: string)
    ensures Find(Object([a, b, c, d, e]), key)
         == if a.key == Ascii(key) then Some(a.value) else Find(Object([b, c, d, e]), key)
  {
    assert [a, b, c, d, e][1..] == [b, c, d, e];
  }

  lemma StepKeysDistinct()
    ensures Ascii("kind") != Ascii("target_id")
    ensures Ascii("kind") != Ascii("description")
    ensures Ascii("kind") != Ascii("skipped")
    ensures Ascii("kind") != Ascii("skip_reason")
    ensures Ascii("target_id") != Ascii("description")
    ensures Ascii("target_id") != Ascii("skipped")
    ensures Ascii("target_id") != Ascii("skip_reason")
    ensures Ascii("description") != Ascii("skipped")
    ensures Ascii("description") != Ascii("skip_reason")
    ensures Ascii("skipped") != Ascii("skip_reason")
  {
    hide Ascii;
    StepKeysDiffer();
  }

  /** Each field of a step document is found, with or without the last one. */
  lemma StepLookup(k: Value, t: Value, d: Value, s: Value, r: Value)
    ensures var four := Object([Field("kind", k), Field("target_id", t), Field("description", d), Field("skipped", s)]);
            && Find(four, "kind") == Some(k) && Find(four, "target_id") == Some(t) && Find(four, "description") == Some(d)
            && Find(four, "skipped") == Some(s) && Find(four, "skip_reason") == None
    ensures var five := Object([Field("kind", k), Field("target_id", t), Field("description", d), Field("skipped", s),
                                Field("skip_reason", r)]);
            && Find(five, "kind") == Some(k) && Find(five, "target_id") == Some(t) && Find(five, "description") == Some(d)
            && Find(five, "skipped") == Some(s) && Find(five, "skip_reason") == Some(r)
  {
    hide Ascii, Find;
    StepKeysDistinct();
    var kind, target, description := Field("kind", k), Field("target_id", t), Field("description", d);
    var skipped, reason := Field("skipped", s), Field("skip_reason", r);
    FindStepField(kind, target, description, skipped, reason, "kind");
    FindStepField(kind, target, description, skipped, reason, "target_id");
    FindStepField(kind, target, description, skipped, reason, "description");
    FindStepField(kind, target, description, skipped, reason, "skipped");
    FindStepField(kind, target, description, skipped, reason, "skip_reason");
  }

  /** A step reads back, the absent skip_reason as the empty one it stands for. */
  lemma StepDocument(s: RestoreStep)
    ensures StepFromJson(StepToJson(s)) == s
  {
    hide Ascii, Find, Field;
    StepLookup(Int(s.kind), String(s.targetId), String(s.description), Bool(s.skipped), String(s.skipReason));
    StepFieldsJoin(s);
  }

  lemma StepFieldsJoin(s: RestoreStep)
    ensures [Field("kind", Int(s.kind)), Field("target_id", String(s.targetId)), Field("description", String(s.description)),
             Field("skipped", Bool(s.skipped))] + [Field("skip_reason", String(s.skipReason))]
            == [Field("kind", Int(s.kind)), Field("target_id", String(s.targetId)), Field("description", String(s.description)),
                Field("skipped", Bool(s.skipped)), Field("skip_reason", String(s.skipReason))]
  {
  }

  lemma FindStepField(a: Member, b: Member, c: Member, d: Member, e: Member, key: string)
    ensures Find(Object([a, b, c, d]), key)
         == if a.key == Ascii(key) then Some(a.value) else if b.key == Ascii(key) then Some(b.value)
            else if c.key == Ascii(key) then Some(c.value) else if d.key == Ascii(key) then Some(d.value) else None
    ensures Find(Object([a, b, c, d, e]), key)
         == if a.key == Ascii(key) then Some(a.value) else if b.key == Ascii(key) then Some(b.value)
            else if c.key == Ascii(key) then Some(c.value) else if d.key == Ascii(key) then Some(d.value)
            else if e.key == Ascii(key) then Some(e.value) else None
  {
    hide Find, Ascii;
    FindIn4(a, b, c, d, key);
    FindIn5(a, b, c, d, e, key);
    FindIn4(b, c, d, e, key);
  }

  lemma PlanDocument(p: RestorePlan)
    ensures PlanFromJson(PlanToJson(p)) == p
  {
    hide Ascii, Find, StepToJson, StepFromJson;
    PlanKeysDiffer();
    var id, steps, warnings, duration := Field("snapshot_id", String(p.snapshotId)), Field("steps", StepsToJson(p.steps)),
      Field("warnings", StringsToJson(p.warnings)), Field("estimated_duration_ms", Int(p.estimatedDurationMs));
    FindIn4(id, steps, warnings, duration, "snapshot_id");
    FindIn4(id, steps, warnings, duration, "steps");
    FindIn4(id, steps, warnings, duration, "warnings");
    FindIn4(id, steps, warnings, duration, "estimated_duration_ms");
    StepsDocument(p.steps);
    assert PlanFromJson(PlanToJson(p)).warnings == p.warnings;
  }

  lemma StepsDocument(steps: seq<RestoreStep>)
    ensures StepsToJson(steps).Array?
    ensures var items := StepsToJson(steps).items;
            seq(|items|, i requires 0 <= i < |items| => StepFromJson(items[i])) == steps
  {
    hide StepToJson, StepFromJson;
    forall i | 0 <= i < |steps|
      ensures StepFromJson(StepsToJson(steps).items[i]) == steps[i]
    {
      StepDocument(steps[i]);
    }
  }

  /** A value without doubles, `n` levels deep at most. */
  predicate Plain(v: Value, n: nat) { Doubles(v) == {} && Height(v) <= n }

  lemma {:induction false} PlainItems(items: seq<Value>, n: nat)
    requires forall i :: 0 <= i < |items| ==> Plain(items[i], n)
    ensures Plain(Array(items), n + 1) && ItemsDoubles(items) == {} && ItemsHeight(items) <= n
    decreases |items|
  {
    if items != [] {
      PlainItems(items[1..], n);
    }
  }

  lemma {:induction false} PlainMembers(members: seq<Member>, n: nat)
    requires forall i :: 0 <= i < |members| ==> Plain(members[i].value, n)
    ensures Plain(Object(members), n + 1) && MembersDoubles(members) == {} && MembersHeight(members) <= n
    decreases |members|
  {
    if members != [] {
      PlainMembers(members[1..], n);
    }
  }

  lemma PlanIsPlain(p: RestorePlan)
    ensures Plain(PlanToJson(p), 3)
  {
    hide Ascii;
    forall i | 0 <= i < |p.steps|
      ensures Plain(StepToJson(p.steps[i]), 1)
    {
      PlainMembers(StepToJson(p.steps[i]).members, 0);
    }
    PlainItems(StepsToJson(p.steps).items, 1);
    PlainItems(StringsToJson(p.warnings).items, 0);
    PlainMembers(PlanToJson(p).members, 2);
  }

  /** The reply document carrying a plan. */
  function PlanReply(id: Id, p: RestorePlan): Value { ResponseToJson(Success(id, PlanResult(p))) }

  lemma ReplyIsPlain(id: Id, p: RestorePlan)
    ensures Plain(PlanReply(id, p), 5)
  {
    hide Ascii, PlanToJson;
    PlanIsPlain(p);
    PlainMembers(PlanResult(p).members, 3);
    PlainMembers(PlanReply(id, p).members, 4);
  }

  /**
   * Every plan whose reply fits a frame: printed, framed, cut into any chunks, reassembled, parsed and
   * decoded, it is the plan the daemon sent.
   */
  lemma PlanCrossesTheWire(c: DoubleText, maxFrame: Limit, request: Request, p: RestorePlan, chunks: seq<Bytes>)
    requires var frame := EncodeFrame(Payload(c, PlanReply(request.id, p)), maxFrame);
             frame.Some? && Concat(chunks) == frame.value
    requires |Payload(c, PlanReply(request.id, p))| <= MAX_FRAME_BYTES
    ensures var d := DrainChunks(Drained([], [], false), chunks, MAX_FRAME_BYTES);
            && !d.failed && d.rest == []
            && var reply := FirstReply(c, request, d.frames);
            && reply.Return? && reply.response.ok
            && Find(reply.response.result, "plan").Some?
            && PlanFromJson(Find(reply.response.result, "plan").value) == p
  {
    var payload := Payload(c, PlanReply(request.id, p));
    PlanFrames(payload, chunks);
    ReplyReads(c, request, p);
    PlanDocument(p);
    hide Judge, Payload, PlanToJson, PlanFromJson, Ascii, Find;
    assert FirstReply(c, request, [payload]) == Judge(c, request, payload);
    FoundPlan(p);
  }

  lemma FoundPlan(p: RestorePlan)
    ensures Find(PlanResult(p), "plan") == Some(PlanToJson(p))
  {
  }

  lemma PlanFrames(payload: Bytes, chunks: seq<Bytes>)
    requires |payload| <= MAX_FRAME_BYTES && Concat(chunks) == Frame(payload)
    ensures DrainChunks(Drained([], [], false), chunks, MAX_FRAME_BYTES) == Drained([payload], [], false)
  {
    hide Frame;
    ChunkingIsInvisible([], chunks, MAX_FRAME_BYTES);
    assert [] + Frame(payload) == Frame(payload);
    assert Wire([payload]) == Frame(payload) + Wire([]) == Frame(payload);
    DrainOfWire([payload], [], MAX_FRAME_BYTES);
    assert Frame(payload) + [] == Frame(payload);
  }

  lemma ReplyReads(c: DoubleText, request: Request, p: RestorePlan)
    ensures Judge(c, request, Payload(c, PlanReply(request.id, p))) == Return(Success(request.id, PlanResult(p)))
  {
    hide Ascii, PlanToJson;
    ReplyIsPlain(request.id, p);
    RoundTripPlain(c, PlanReply(request.id, p));
    ResponseDocument(Success(request.id, PlanResult(p)));
  }

  lemma RoundTripPlain(c: DoubleText, v: Value)
    requires Plain(v, 5)
    ensures Parse(c, Payload(c, v)) == Ok(v)
  {
    RoundTripWithoutDoubles(c, v, -1);
  }
}
