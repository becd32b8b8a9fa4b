/** SNSS session files (parse_snss, src/browser/session_chromium.cpp:185-210). */
module Snss {
  import opened Base

  /** One <uint16 size><uint8 id><payload> record. */
  datatype Command = Command(id: Byte, payload: Bytes)

  datatype SnssError = NotSnss | NoCommands

  const MAGIC: Bytes := [0x53, 0x4E, 0x53, 0x53]
  const HEADER_SIZE := 8

  function SizeAt(rest: Bytes): nat
    requires |rest| >= 2
  {
    Join(rest[0], rest[1])
  }

  /** A whole record stands at the front. */
  predicate HasRecord(rest: Bytes) { |rest| >= 3 && SizeAt(rest) != 0 && 2 + SizeAt(rest) <= |rest| }

  /** The records the loop collects from what is left of the file. */
  function Commands(rest: Bytes): seq<Command>
    decreases |rest|
  {
    if !HasRecord(rest) then []
    else [Command(rest[2], rest[3..2 + SizeAt(rest)])] + Commands(rest[2 + SizeAt(rest)..])
  }

  /** One turn of the loop at `offset`. */
  lemma RecordAt(data: Bytes, offset: nat, size: nat)
    requires offset + 3 <= |data| && size == SizeAt(data[offset..offset + 2])
    ensures HasRecord(data[offset..]) <==> size != 0 && offset + 2 + size <= |data|
    ensures size != 0 && offset + 2 + size <= |data| ==>
              Commands(data[offset..])
              == [Command(data[offset + 2], data[offset + 3..offset + 2 + size])] + Commands(data[offset + 2 + size..])
  {
    var rest := data[offset..];
    assert SizeAt(rest) == size;
    if size != 0 && offset + 2 + size <= |data| {
      assert rest[3..2 + size] == data[offset + 3..offset + 2 + size];
      assert rest[2 + size..] == data[offset + 2 + size..];
    }
  }

  lemma NoRecords(rest: Bytes)
    requires !HasRecord(rest)
    ensures Commands(rest) == []
  {
  }

  lemma SomeRecords(rest: Bytes)
    ensures HasRecord(rest) <==> Commands(rest) != []
  {
  }

  method ParseSnss(data: Bytes) returns (r: Result<seq<Command>, SnssError>)
    ensures r == Err(NotSnss) <==> |data| < HEADER_SIZE || data[..4] != MAGIC
    ensures r.Ok? <==> |data| >= HEADER_SIZE && data[..4] == MAGIC && HasRecord(data[HEADER_SIZE..])
    ensures r.Ok? ==> r.value == Commands(data[HEADER_SIZE..])
  {
    if |data| < HEADER_SIZE || data[..4] != MAGIC {
      return Err(NotSnss);
    }
    hide Commands, HasRecord;
    SomeRecords(data[HEADER_SIZE..]);
    var commands := CollectCommands(data);
    if commands == [] {
      return Err(NoCommands);
    }
    return Ok(commands);
  }

  /** The loop of parse_snss. */
  method CollectCommands(data: Bytes) returns (commands: seq<Command>)
    requires |data| >= HEADER_SIZE
    ensures commands == Commands(data[HEADER_SIZE..])
  {
    hide Commands, HasRecord, SizeAt;
    commands := [];
    var offset := HEADER_SIZE;
    while offset + 3 <= |data|
      invariant HEADER_SIZE <= offset <= |data|
      invariant Commands(data[HEADER_SIZE..]) == commands + Commands(data[offset..])
    {
      var size := SizeAt(data[offset..offset + 2]);
      RecordAt(data, offset, size);
      if size == 0 || offset + 2 + size > |data| {
        NoRecords(data[offset..]);
        return;
      }
      var command := Command(data[offset + 2], data[offset + 3..offset + 2 + size]);
      Assoc(commands, [command], Commands(data[offset + 2 + size..]));
      commands := commands + [command];
      offset := offset + 2 + size;
    }
    TooShort(data[offset..]);
    NoRecords(data[offset..]);
  }

  lemma TooShort(rest: Bytes)
    ensures |rest| < 3 ==> !HasRecord(rest)
  {
  }

  // ---------------------------------------------------------------- the format

  predicate Fits(c: Command) { |c.payload| < 0xFFFF }

  function Record(c: Command): (b: Bytes)
    requires Fits(c)
    ensures |b| == 3 + |c.payload|
  {
    [(1 + |c.payload|) % 256, (1 + |c.payload|) / 256, c.id] + c.payload
  }

  function Records(cs: seq<Command>): Bytes
    requires forall c <- cs :: Fits(c)
  {
    if cs == [] then [] else assert cs[0] in cs; Record(cs[0]) + Records(cs[1..])
  }

  lemma RecordAtFront(c: Command, tail: Bytes)
    requires Fits(c)
    ensures var rest := Record(c) + tail;
            && HasRecord(rest) && 2 + SizeAt(rest) == |Record(c)| && rest[2 + SizeAt(rest)..] == tail
            && Command(rest[2], rest[3..2 + SizeAt(rest)]) == c
  {
    var rest := Record(c) + tail;
    assert rest[..|Record(c)|] == Record(c);
    assert rest[3..|Record(c)|] == Record(c)[3..] == c.payload;
  }

  lemma CommandAtFront(c: Command, tail: Bytes)
    requires Fits(c)
    ensures Commands(Record(c) + tail) == [c] + Commands(tail)
  {
    hide HasRecord, SizeAt, Record;
    RecordAtFront(c, tail);
  }

  /** Round trip: records followed by something that is not a whole record. */
  lemma {:induction false} CommandsOfRecords(cs: seq<Command>, tail: Bytes)
    requires forall c <- cs :: Fits(c)
    requires !HasRecord(tail)
    ensures Commands(Records(cs) + tail) == cs
  {
    hide HasRecord, SizeAt, Record;
    if cs == [] {
      assert [] + tail == tail;
    } else {
      assert cs[0] in cs;
      CommandsOfRecords(cs[1..], tail);
      Assoc(Record(cs[0]), Records(cs[1..]), tail);
      RecordAtFront(cs[0], Records(cs[1..]) + tail);
    }
  }

  lemma RecordOfFront(rest: Bytes)
    requires HasRecord(rest)
    ensures var c := Command(rest[2], rest[3..2 + SizeAt(rest)]);
            Fits(c) && rest == Record(c) + rest[2 + SizeAt(rest)..]
  {
    var c := Command(rest[2], rest[3..2 + SizeAt(rest)]);
    assert |c.payload| == SizeAt(rest) - 1;
    assert rest == rest[..3] + rest[3..2 + SizeAt(rest)] + rest[2 + SizeAt(rest)..];
    assert Record(c) == rest[..3] + c.payload;
  }

  /** Nothing is lost: the bytes are the records found and a tail that holds no whole record. */
  lemma {:induction false} RecordsOfCommands(rest: Bytes) returns (tail: Bytes)
    ensures forall c <- Commands(rest) :: Fits(c)
    ensures rest == Records(Commands(rest)) + tail && !HasRecord(tail)
    decreases |rest|
  {
    hide Record;
    if !HasRecord(rest) {
      tail := rest;
      assert Records([]) + tail == rest;
    } else {
      hide HasRecord, SizeAt;
      RecordOfFront(rest);
      var c, next := Command(rest[2], rest[3..2 + SizeAt(rest)]), rest[2 + SizeAt(rest)..];
      tail := RecordsOfCommands(next);
      assert Commands(rest) == [c] + Commands(next);
      assert Commands(rest)[1..] == Commands(next);
      Assoc(Record(c), Records(Commands(next)), tail);
    }
  }

  // ---------------------------------------------------------------- truncated files

  /** How many of the records end at or before byte `k`. */
  function WholeBefore(cs: seq<Command>, k: int): (n: nat)
    requires forall c <- cs :: Fits(c)
    ensures n <= |cs|
  {
    if cs == [] then 0
    else
      assert cs[0] in cs;
      if |Record(cs[0])| > k then 0 else 1 + WholeBefore(cs[1..], k - |Record(cs[0])|)
  }

  lemma CutRecord(c: Command, tail: Bytes, k: nat)
    requires Fits(c) && k < |Record(c)|
    ensures !HasRecord((Record(c) + tail)[..k])
  {
    var rest := Record(c) + tail;
    if k >= 3 {
      assert rest[..k][0] == Record(c)[0] && rest[..k][1] == Record(c)[1];
    }
  }

  /** A file cut at byte `k` yields exactly the records that end before the cut. */
  lemma {:induction false} CommandsOfTruncated(cs: seq<Command>, tail: Bytes, k: nat)
    requires forall c <- cs :: Fits(c)
    requires !HasRecord(tail) && k <= |Records(cs) + tail|
    ensures Commands((Records(cs) + tail)[..k]) == cs[..WholeBefore(cs, k)]
    decreases |cs|
  {
    hide *;
    NoMoreRecords(cs);
    if cs == [] {
      assert [] + tail == tail;
      CutTail(tail, k);
      NoRecords(tail[..k]);
    } else {
      FitsRest(cs);
      RecordsOf(cs);
      var front, back := Record(cs[0]), Records(cs[1..]) + tail;
      Assoc(front, Records(cs[1..]), tail);
      if k < |front| {
        CutRecord(cs[0], back, k);
        NoRecords((front + back)[..k]);
        NoneWhole(cs, k);
      } else {
        CutBehind(front, back, k);
        CommandAtFront(cs[0], back[..k - |front|]);
        CommandsOfTruncated(cs[1..], tail, k - |front|);
        NextWhole(cs, k);
      }
    }
  }

  lemma CutBehind(front: Bytes, back: Bytes, k: nat)
    requires |front| <= k <= |front + back|
    ensures (front + back)[..k] == front + back[..k - |front|]
  {
  }

  lemma NoMoreRecords(cs: seq<Command>)
    requires forall c <- cs :: Fits(c)
    ensures cs == [] ==> Records(cs) == [] && forall k :: WholeBefore(cs, k) == 0
  {
  }

  lemma FitsRest(cs: seq<Command>)
    requires cs != [] && forall c <- cs :: Fits(c)
    ensures cs[0] in cs && Fits(cs[0]) && forall c <- cs[1..] :: Fits(c)
  {
  }

  lemma RecordsOf(cs: seq<Command>)
    requires cs != [] && (forall c <- cs :: Fits(c)) && cs[0] in cs
    ensures Records(cs) == Record(cs[0]) + Records(cs[1..])
  {
    hide Record;
  }

  lemma NoneWhole(cs: seq<Command>, k: int)
    requires cs != [] && (forall c <- cs :: Fits(c)) && cs[0] in cs && k < |Record(cs[0])|
    ensures cs[..WholeBefore(cs, k)] == []
  {
    hide Record;
  }

  lemma NextWhole(cs: seq<Command>, k: int)
    requires cs != [] && (forall c <- cs :: Fits(c)) && cs[0] in cs && k >= |Record(cs[0])|
    ensures cs[..WholeBefore(cs, k)] == [cs[0]] + cs[1..][..WholeBefore(cs[1..], k - |Record(cs[0])|)]
  {
    hide Record;
  }

  lemma CutTail(tail: Bytes, k: nat)
    requires !HasRecord(tail) && k <= |tail|
    ensures !HasRecord(tail[..k])
  {
    if k >= 3 {
      assert SizeAt(tail[..k]) == SizeAt(tail);
    }
  }

  /** Cutting any file, well formed or not, leaves a prefix of its commands. */
  lemma TruncationYieldsPrefix(rest: Bytes, k: nat)
    requires k <= |rest|
    ensures Commands(rest[..k]) <= Commands(rest)
  {
    hide HasRecord, Commands, Records;
    var tail := RecordsOfCommands(rest);
    CommandsOfTruncated(Commands(rest), tail, k);
  }
}
