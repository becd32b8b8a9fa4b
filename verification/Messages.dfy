/** The daemon RPC messages and their JSON form (src/ipc/protocol.cpp:9-209). */
module Messages {
  import opened Base
  import opened JsonText
  import opened JsonRoundTrip

  const PROTOCOL_VERSION: Int64 := 1

  /** A uint64 correlation id. */
  type Id = n: nat | n < 0x1_0000_0000_0000_0000

  /**
   * Methods and error codes are represented by their wire names: the source's enums are in
   * bijection with these tables. "unknown" is in the source's table but is refused on arrival.
   */
  const METHOD_NAMES := [
    "hello", "ping", "capture_snapshot", "list_snapshots", "get_snapshot", "delete_snapshot",
    "rename_snapshot", "tag_snapshot", "favorite_snapshot", "plan_restore", "restore_snapshot",
    "search_snapshots", "export_snapshot", "import_snapshot", "get_config", "set_config", "get_health",
    "prune_snapshots", "subscribe", "shutdown"
  ]

  const ERROR_NAMES := [
    "ok", "not_found", "already_exists", "invalid_argument", "permission_denied", "unsupported",
    "io_error", "database_error", "serialization_error", "protocol_error", "timeout", "cancelled",
    "conflict", "partial_failure", "internal"
  ]

  predicate Listed(table: seq<string>, text: Bytes) { exists i :: 0 <= i < |table| && Ascii(table[i]) == text }

  /** The name of ErrorCode::Ok, the default of a response. */
  const NO_ERROR: Bytes := Ascii("ok")

  // ---------------------------------------------------------------- JSON access

  function FindMember(members: seq<Member>, key: Bytes): Option<Value> {
    if members == [] then None
    else if members[0].key == key then Some(members[0].value)
    else FindMember(members[1..], key)
  }

  /** Value::find */
  function Find(v: Value, key: string): Option<Value> {
    if v.Object? then FindMember(v.members, Ascii(key)) else None
  }

  function Truncate(r: real): int { if r >= 0.0 then r.Floor else -((-r).Floor) }

  /** Value::as_int; C++ leaves a double outside the int64 range undefined, here it is the fallback. */
  function AsInt(v: Value, fallback: Int64): Int64 {
    match v
    case Int(i) => i
    case Bool(b) => if b then 1 else 0
    case Number(Finite(r)) =>
      if -0x8000_0000_0000_0000 <= Truncate(r) <= 0x7FFF_FFFF_FFFF_FFFF then Truncate(r) else fallback
    case _ => fallback
  }

  function AsBool(v: Value): bool {
    match v
    case Bool(b) => b
    case Int(i) => i != 0
    case _ => false
  }

  function AsString(v: Value): Bytes { if v.String? then v.s else [] }

  /** static_cast between uint64 and int64. */
  function IdToInt(id: Id): Int64 { if id < 0x8000_0000_0000_0000 then id else id - 0x1_0000_0000_0000_0000 }

  function IntToId(i: Int64): Id { if i >= 0 then i else i + 0x1_0000_0000_0000_0000 }

  function Field(key: string, v: Value): Member { Member(Ascii(key), v) }

  // ---------------------------------------------------------------- messages

  datatype Request = Request(id: Id, operation: Bytes, params: Value)

  datatype Response = Response(id: Id, ok: bool, result: Value, errorCode: Bytes, errorMessage: Bytes)

  datatype MessageError = NotAnObject | NewerVersion | MissingMethod | UnknownMethod

  function Success(id: Id, result: Value): Response { Response(id, true, result, NO_ERROR, []) }

  function Failure(id: Id, code: Bytes, message: Bytes): Response { Response(id, false, Null, code, message) }

  function RequestToJson(r: Request): Value {
    Object([Field("v", Int(PROTOCOL_VERSION)), Field("id", Int(IdToInt(r.id))),
            Field("method", String(r.operation)), Field("params", r.params)])
  }

  function RequestFromJson(v: Value): Result<Request, MessageError> {
    if !v.Object? then Err(NotAnObject)
    else if Find(v, "v").Some? && AsInt(Find(v, "v").value, 1) > PROTOCOL_VERSION then Err(NewerVersion)
    else
      var id := match Find(v, "id") case Some(i) => IntToId(AsInt(i, 0)) case None => 0;
      match Find(v, "method")
      case None => Err(MissingMethod)
      case Some(name) =>
        if !name.String? then Err(MissingMethod)
        else
          if !Listed(METHOD_NAMES, name.s) then Err(UnknownMethod)
          else
            var params := match Find(v, "params") case Some(p) => p case None => Null;
            Ok(Request(id, name.s, params))
  }

  function ErrorToJson(r: Response): Value {
    Object([Field("code", String(r.errorCode)), Field("message", String(r.errorMessage))])
  }

  function ResponseToJson(r: Response): Value {
    Object([Field("v", Int(PROTOCOL_VERSION)), Field("id", Int(IdToInt(r.id))), Field("ok", Bool(r.ok)),
            if r.ok then Field("result", r.result) else Field("error", ErrorToJson(r))])
  }

  function ResponseFromJson(v: Value): Result<Response, MessageError> {
    if !v.Object? then Err(NotAnObject)
    else
      var id := match Find(v, "id") case Some(i) => IntToId(AsInt(i, 0)) case None => 0;
      if Find(v, "ok").Some? && AsBool(Find(v, "ok").value) then
        Ok(Success(id, match Find(v, "result") case Some(r) => r case None => Null))
      else
        match Find(v, "error")
        case None => Ok(Failure(id, NO_ERROR, []))
        case Some(e) =>
          var message := match Find(e, "message") case Some(m) => AsString(m) case None => [];
          var code :=
            match Find(e, "code")
            case None => NO_ERROR
            case Some(name) => if Listed(ERROR_NAMES, AsString(name)) then AsString(name) else NO_ERROR;
          Ok(Failure(id, code, message))
  }

  /** The document of an event; clients know it by its "event" member. */
  function EventToJson(name: Bytes, payload: Value): Value {
    Object([Field("v", Int(PROTOCOL_VERSION)), Field("event", String(name)), Field("payload", payload)])
  }

  predicate IsEvent(v: Value) { Find(v, "event").Some? }

  // ---------------------------------------------------------------- round trips on documents

  lemma FindIn2(a: Member, b: Member, key: string)
    ensures Find(Object([a, b]), key)
         == if a.key == Ascii(key) then Some(a.value) else if b.key == Ascii(key) then Some(b.value) else None
  {
    assert [a, b][1..] == [b];
    assert FindMember([b], Ascii(key)) == if b.key == Ascii(key) then Some(b.value) else FindMember([b][1..], Ascii(key));
  }

  lemma FindIn3(a: Member, b: Member, c: Member, key: string)
    ensures Find(Object([a, b, c]), key)
         == if a.key == Ascii(key) then Some(a.value) else Find(Object([b, c]), key)
  {
    assert [a, b, c][1..] == [b, c];
  }

  lemma FindIn4(a: Member, b: Member, c: Member, d: Member, key: string)
    ensures Find(Object([a, b, c, d]), key)
         == if a.key == Ascii(key) then Some(a.value)
            else if b.key == Ascii(key) then Some(b.value)
            else if c.key == Ascii(key) then Some(c.value)
            else if d.key == Ascii(key) then Some(d.value) else None
  {
    assert [a, b, c, d][1..] == [b, c, d];
    FindIn3(b, c, d, key);
    FindIn2(c, d, key);
  }

  /** The member keys used below are pairwise different. */
  lemma KeysDiffer()
    ensures Ascii("v") != Ascii("id") && Ascii("v") != Ascii("ok") && Ascii("id") != Ascii("ok")
    ensures forall s: string :: s in ["method", "params", "result", "error", "event"] ==>
              Ascii(s) != Ascii("v") && Ascii(s) != Ascii("id") && Ascii(s) != Ascii("ok")
    ensures Ascii("method") != Ascii("params") && Ascii("result") != Ascii("error")
    ensures Ascii("result") != Ascii("event") && Ascii("error") != Ascii("event")
    ensures Ascii("code") != Ascii("message")
  {
    hide Ascii;
    AsciiInjective();
  }

  lemma RequestDocument(r: Request)
    requires Listed(METHOD_NAMES, r.operation)
    ensures RequestFromJson(RequestToJson(r)) == Ok(r)
  {
    hide Ascii, Find, Listed;
    KeysDiffer();
    var v, id, operation, params := Field("v", Int(PROTOCOL_VERSION)), Field("id", Int(IdToInt(r.id))),
      Field("method", String(r.operation)), Field("params", r.params);
    FindIn4(v, id, operation, params, "v");
    FindIn4(v, id, operation, params, "id");
    FindIn4(v, id, operation, params, "method");
    FindIn4(v, id, operation, params, "params");
  }

  /** Responses as dispatch builds them. */
  predicate Proper(r: Response) {
    || r == Success(r.id, r.result)
    || (r == Failure(r.id, r.errorCode, r.errorMessage) && Listed(ERROR_NAMES, r.errorCode))
  }

  /** A response document reads back whole and is never mistaken for an event. */
  lemma ResponseDocument(r: Response)
    requires Proper(r)
    ensures ResponseFromJson(ResponseToJson(r)) == Ok(r)
    ensures !IsEvent(ResponseToJson(r))
  {
    hide Ascii, Find, Listed;
    KeysDiffer();
    var v, id, ok := Field("v", Int(PROTOCOL_VERSION)), Field("id", Int(IdToInt(r.id))), Field("ok", Bool(r.ok));
    var last := if r.ok then Field("result", r.result) else Field("error", ErrorToJson(r));
    FindIn4(v, id, ok, last, "id");
    FindIn4(v, id, ok, last, "ok");
    FindIn4(v, id, ok, last, "result");
    FindIn4(v, id, ok, last, "error");
    FindIn4(v, id, ok, last, "event");
    var code, message := Field("code", String(r.errorCode)), Field("message", String(r.errorMessage));
    FindIn2(code, message, "code");
    FindIn2(code, message, "message");
  }

  lemma EventDocument(name: Bytes, payload: Value)
    ensures IsEvent(EventToJson(name, payload))
  {
    hide Ascii, Find;
    KeysDiffer();
    var v, event, body := Field("v", Int(PROTOCOL_VERSION)), Field("event", String(name)), Field("payload", payload);
    FindIn3(v, event, body, "event");
    FindIn2(event, body, "event");
  }
}
