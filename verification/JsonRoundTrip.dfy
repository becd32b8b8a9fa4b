/** The printer and the parser undo each other (src/core/json.cpp:53-398, 578-622). */
module JsonRoundTrip {
  import opened Base
  import opened JsonText

  /** Levels of non-empty containers below the top of `v`. */
  function Height(v: Value): nat
    decreases v, 0
  {
    match v
    case Array(items) => if items == [] then 0 else 1 + ItemsHeight(items)
    case Object(members) => if members == [] then 0 else 1 + MembersHeight(members)
    case _ => 0
  }

  function ItemsHeight(items: seq<Value>): nat
    decreases items, 1
  {
    if items == [] then 0 else Max(Height(items[0]), ItemsHeight(items[1..]))
  }

  function MembersHeight(members: seq<Member>): nat
    decreases members, 1
  {
    if members == [] then 0 else Max(Height(members[0].value), MembersHeight(members[1..]))
  }

  /** The doubles that occur in `v`. */
  function Doubles(v: Value): set<Double>
    decreases v, 0
  {
    match v
    case Number(d) => {d}
    case Array(items) => ItemsDoubles(items)
    case Object(members) => MembersDoubles(members)
    case _ => {}
  }

  function ItemsDoubles(items: seq<Value>): set<Double>
    decreases items, 1
  {
    if items == [] then {} else Doubles(items[0]) + ItemsDoubles(items[1..])
  }

  function MembersDoubles(members: seq<Member>): set<Double>
    decreases members, 1
  {
    if members == [] then {} else Doubles(members[0].value) + MembersDoubles(members[1..])
  }

  /** A literal that starts like a number and consists of the bytes parse_number runs over. */
  predicate IsNumberText(s: Bytes) {
    |s| > 0 && (IsDigit(s[0]) || s[0] == MINUS) && forall i :: 0 <= i < |s| ==> IsNumberByte(s[i])
  }

  /** snprintf's %g prints each of these doubles as a number literal. */
  predicate Printable(c: DoubleText, ds: set<Double>) {
    forall d :: d in ds && d.Finite? ==> IsNumberText(c.render(d.value))
  }

  /**
   * What the text of `v` reads back as. A double printed without point and exponent becomes an integer,
   * one that is not finite becomes null, and there is nothing to come back when the text of some double
   * is refused.
   */
  function Back(c: DoubleText, v: Value): Option<Value>
    decreases v, 0
  {
    match v
    case Number(NotFinite) => Some(Null)
    case Number(Finite(r)) => ReadLiteral(c, c.render(r))
    case Array(items) => AsArray([], BackItems(c, items))
    case Object(members) => AsObject([], BackMembers(c, members))
    case _ => Some(v)
  }

  function BackItems(c: DoubleText, items: seq<Value>): Option<seq<Value>>
    decreases items, 1
  {
    if items == [] then Some([]) else After(Back(c, items[0]), BackItems(c, items[1..]))
  }

  function BackMembers(c: DoubleText, members: seq<Member>): Option<seq<Member>>
    decreases members, 1
  {
    if members == [] then Some([])
    else After(BackMember(c, members[0]), BackMembers(c, members[1..]))
  }

  function BackMember(c: DoubleText, m: Member): Option<Member>
    decreases m, 2
  {
    match Back(c, m.value)
    case Some(v) => Some(Member(m.key, v))
    case None => None
  }

  function After<T>(first: Option<T>, rest: Option<seq<T>>): Option<seq<T>> {
    if first.Some? && rest.Some? then Some([first.value] + rest.value) else None
  }

  function AsArray(done: seq<Value>, rest: Option<seq<Value>>): Option<Value> {
    if rest.Some? then Some(Array(done + rest.value)) else None
  }

  function AsObject(done: seq<Member>, rest: Option<seq<Member>>): Option<Value> {
    if rest.Some? then Some(Object(done + rest.value)) else None
  }

  /** Each of these doubles prints with a point or an exponent, and strtod gives it back from its text. */
  predicate Lossless(c: DoubleText, ds: set<Double>) {
    forall d :: d in ds ==>
      d.Finite? && !AllDigits(Unsigned(c.render(d.value))) && c.read(c.render(d.value)) == Some(d.value)
  }

  // ---------------------------------------------------------------- scanning

  lemma {:induction false} SkipOver(t: Bytes, p: nat, w: Bytes)
    requires At(t, p, w) && forall i :: 0 <= i < |w| ==> IsSpace(w[i])
    ensures SkipSpace(t, p) == SkipSpace(t, p + |w|)
    decreases |w|
  {
    hide At;
    if w != [] {
      AtByte(t, p, w, 0);
      AtSplit(t, p, w[..1], w[1..]);
      assert w == w[..1] + w[1..];
      SkipOver(t, p + 1, w[1..]);
    }
  }

  /** The text `w` of blanks followed by a text whose first byte is `b`, no blank. */
  lemma SkipTo(t: Bytes, p: nat, w: Bytes, rest: Bytes)
    requires At(t, p, w + rest) && forall i :: 0 <= i < |w| ==> IsSpace(w[i])
    requires rest != [] && !IsSpace(rest[0])
    ensures At(t, p, w) && At(t, p + |w|, rest) && t[p + |w|] == rest[0]
    ensures SkipSpace(t, p) == p + |w|
  {
    AtSplit(t, p, w, rest);
    AtByte(t, p + |w|, rest, 0);
    SkipOver(t, p, w);
  }

  lemma {:induction false} HexRoundTrip(t: Bytes, p: nat, b: Byte)
    requires b < 0x20 && At(t, p, [0x30, 0x30, HexDigit(b / 16), HexDigit(b % 16)])
    ensures Hex4(t, p) == Done(b, p + 4)
  {
    var s := [0x30, 0x30, HexDigit(b / 16), HexDigit(b % 16)];
    AtByte(t, p, s, 0);
    AtByte(t, p, s, 1);
    AtByte(t, p, s, 2);
    AtByte(t, p, s, 3);
    assert HexDigits(t, p + 2, 2, 0) == HexDigits(t, p + 3, 1, b / 16);
    assert HexDigits(t, p + 3, 1, b / 16) == HexDigits(t, p + 4, 0, b);
  }

  /** Reading an escaped byte back takes one turn of parse_string's loop. */
  lemma EscapeByteReads(t: Bytes, p: nat, b: Byte, out: Bytes)
    requires At(t, p, EscapeByte(b))
    ensures StringTail(t, p, out) == StringTail(t, p + |EscapeByte(b)|, out + [b])
  {
    var s := EscapeByte(b);
    AtByte(t, p, s, 0);
    if |s| > 1 {
      AtByte(t, p, s, 1);
    }
    if |s| == 6 {
      AtSplit(t, p, s[..2], s[2..]);
      assert s == s[..2] + s[2..];
      HexRoundTrip(t, p + 2, b);
    }
  }

  lemma {:induction false} StringReads(t: Bytes, p: nat, s: Bytes, out: Bytes)
    requires At(t, p, Escape(s) + [QUOTE])
    ensures StringTail(t, p, out) == Done(out + s, p + |Escape(s)| + 1)
    decreases |s|
  {
    hide At, EscapeByte, EscapeSequence;
    if s == [] {
      AtByte(t, p, Escape(s) + [QUOTE], 0);
      assert out + s == out;
    } else {
      var rest := Escape(s[1..]) + [QUOTE];
      assert Escape(s) + [QUOTE] == EscapeByte(s[0]) + rest;
      AtSplit(t, p, EscapeByte(s[0]), rest);
      EscapeByteReads(t, p, s[0], out);
      StringReads(t, p + |EscapeByte(s[0])|, s[1..], out + [s[0]]);
      assert out + [s[0]] + s[1..] == out + s;
    }
  }

  lemma QuotedReads(t: Bytes, p: nat, s: Bytes)
    requires At(t, p, Quoted(s))
    ensures Sees(t, p, QUOTE) && StringTail(t, p + 1, []) == Done(s, p + |Quoted(s)|)
  {
    hide At;
    AtByte(t, p, Quoted(s), 0);
    AtSplit(t, p, [QUOTE], Escape(s) + [QUOTE]);
    StringReads(t, p + 1, s, []);
    assert [] + s == s;
  }

  lemma {:induction false} NumberEndReads(t: Bytes, p: nat, end: nat)
    requires p <= end <= |t|
    requires forall i :: p <= i < end ==> IsNumberByte(t[i])
    requires end == |t| || !IsNumberByte(t[end])
    ensures NumberEnd(t, p) == end
    decreases end - p
  {
    if p < end {
      NumberEndReads(t, p + 1, end);
    }
  }

  /** What follows a number must not extend it. */
  predicate Delimited(t: Bytes, p: nat) { p < |t| ==> !IsNumberByte(t[p]) }

  lemma LiteralReads(c: DoubleText, t: Bytes, p: nat, s: Bytes)
    requires At(t, p, s) && IsNumberText(s) && Delimited(t, p + |s|)
    ensures ParseNumber(c, t, p)
         == match ReadLiteral(c, s)
            case Some(v) => Done(v, p + |s|)
            case None => Fail(NumberOutOfRange, p + |s|)
  {
    AtByte(t, p, s, 0);
    forall i | p <= i < p + |s|
      ensures IsNumberByte(t[i])
    {
      AtByte(t, p, s, i - p);
    }
    NumberEndReads(t, SignEnd(t, p), p + |s|);
  }

  lemma IntTextBytes(i: int)
    ensures IsNumberText(IntText(i))
  {
    hide Decimal;
    var s := IntText(i);
    if i < 0 {
      forall k | 0 <= k < |s|
        ensures IsNumberByte(s[k])
      {
        assert k > 0 ==> s[k] == Decimal(-i)[k - 1];
      }
    }
  }

  /** The literal of an integer or of a double. */
  function NumberText(c: DoubleText, v: Value): Bytes
    requires v.Int? || (v.Number? && v.d.Finite?)
  {
    if v.Int? then IntText(v.i) else c.render(v.d.value)
  }

  lemma NumberTextReads(c: DoubleText, v: Value)
    requires Printable(c, Doubles(v)) && (v.Int? || (v.Number? && v.d.Finite?))
    ensures IsNumberText(NumberText(c, v)) && ReadLiteral(c, NumberText(c, v)) == Back(c, v)
  {
    hide IntText, IsNumberByte, Unsigned;
    if v.Int? {
      IntTextReads(v.i);
      IntTextBytes(v.i);
    }
  }

  lemma NumberReads(c: DoubleText, t: Bytes, p: nat, v: Value)
    requires Printable(c, Doubles(v)) && (v.Int? || (v.Number? && v.d.Finite?))
    requires At(t, p, NumberText(c, v)) && Delimited(t, p + |NumberText(c, v)|)
    ensures ParseNumber(c, t, p)
         == match Back(c, v)
            case Some(w) => Done(w, p + |NumberText(c, v)|)
            case None => Fail(NumberOutOfRange, p + |NumberText(c, v)|)
    ensures p < |t| && (IsDigit(t[p]) || t[p] == MINUS)
  {
    hide At, ParseNumber, NumberText, IsNumberByte, ReadLiteral, Back;
    NumberTextReads(c, v);
    LiteralReads(c, t, p, NumberText(c, v));
    AtByte(t, p, NumberText(c, v), 0);
  }

  // ---------------------------------------------------------------- values

  /** Parsing at depth `depth` accepts exactly the values that stay within the limit. */
  predicate Fits(v: Value, depth: nat) { depth + Height(v) <= MAX_DEPTH }

  /** A value that fits comes back; otherwise the parser refuses it, for its depth or for a number. */
  predicate Outcome(r: Step<Value>, fits: bool, v: Option<Value>, end: nat) {
    if fits && v.Some? then r == Done(v.value, end) else r.Failed? && Refused(r.error.kind, fits, v)
  }

  predicate Refused(kind: ErrorKind, fits: bool, v: Option<Value>) {
    && (kind == DepthExceeded || kind == NumberOutOfRange)
    && (fits ==> kind == NumberOutOfRange)
    && (v.Some? ==> kind == DepthExceeded)
  }

  /** No printed value starts with a blank, a closing bracket, or the first byte of a byte order mark. */
  lemma FirstByte(c: DoubleText, v: Value, indent: int, depth: nat)
    requires Printable(c, Doubles(v))
    ensures var s := Text(c, v, indent, depth);
            s != [] && !IsSpace(s[0]) && s[0] != RBRACKET && s[0] != RBRACE && s[0] != 0xEF
  {
    match v
    case Number(d) => assert d.Finite? ==> IsNumberText(c.render(d.value));
    case Int(i) =>
      assert i >= 0 ==> IsDigit(Decimal(i)[0]);
    case _ =>
  }

  lemma ScalarReads(c: DoubleText, t: Bytes, p: nat, v: Value, indent: int, depth: nat)
    requires Printable(c, Doubles(v)) && depth <= MAX_DEPTH && !v.Array? && !v.Object?
    requires At(t, p, Text(c, v, indent, depth)) && Delimited(t, p + |Text(c, v, indent, depth)|)
    requires SkipSpace(t, p) == p < |t| && t[p] == Text(c, v, indent, depth)[0]
    ensures Outcome(ParseValue(c, t, p, depth), true, Back(c, v), p + |Text(c, v, indent, depth)|)
  {
    hide At, ParseNumber, ReadLiteral;
    match v
    case Null =>
    case Bool(b) =>
    case Int(i) => NumberReads(c, t, p, v);
    case Number(d) =>
      if d.Finite? {
        NumberReads(c, t, p, v);
      }
    case String(text) => QuotedReads(t, p, text);
  }

  lemma {:induction false} ValueReads(c: DoubleText, t: Bytes, p: nat, v: Value, indent: int, depth: nat)
    requires Printable(c, Doubles(v))
    requires At(t, p, Text(c, v, indent, depth)) && Delimited(t, p + |Text(c, v, indent, depth)|)
    ensures Outcome(ParseValue(c, t, p, depth), Fits(v, depth), Back(c, v), p + |Text(c, v, indent, depth)|)
    decreases v, 0
  {
    hide At, Text, Back;
    FirstByte(c, v, indent, depth);
    AtByte(t, p, Text(c, v, indent, depth), 0);
    if depth <= MAX_DEPTH {
      assert SkipSpace(t, p) == p;
      match v
      case Array(items) => ArrayReads(c, t, p, items, indent, depth);
      case Object(members) => ObjectReads(c, t, p, members, indent, depth);
      case _ => ScalarReads(c, t, p, v, indent, depth);
    }
  }

  lemma BackOfEmpty(c: DoubleText)
    ensures Back(c, Array([])) == Some(Array([])) && Back(c, Object([])) == Some(Object([]))
  {
    var items: seq<Value>, members: seq<Member> := [], [];
    assert items + items == items && members + members == members;
  }

  /** How parse_value enters an array. */
  lemma EntersArray(c: DoubleText, t: Bytes, p: nat, depth: nat)
    requires depth <= MAX_DEPTH && Sees(t, p, LBRACKET)
    ensures SkipSpace(t, p) == p
    ensures var inner := SkipSpace(t, p + 1);
            ParseValue(c, t, p, depth)
            == if Sees(t, inner, RBRACKET) then Done(Array([]), inner + 1) else ParseItems(c, t, inner, depth, [])
  {
    hide ParseItems, ParseMembers, ParseNumber;
  }

  lemma EntersObject(c: DoubleText, t: Bytes, p: nat, depth: nat)
    requires depth <= MAX_DEPTH && Sees(t, p, LBRACE)
    ensures SkipSpace(t, p) == p
    ensures var inner := SkipSpace(t, p + 1);
            ParseValue(c, t, p, depth)
            == if Sees(t, inner, RBRACE) then Done(Object([]), inner + 1) else ParseMembers(c, t, inner, depth, [])
  {
    hide ParseItems, ParseMembers, ParseNumber;
  }

  lemma {:induction false} ArrayReads(c: DoubleText, t: Bytes, p: nat, items: seq<Value>, indent: int, depth: nat)
    requires Printable(c, ItemsDoubles(items)) && depth <= MAX_DEPTH
    requires At(t, p, Text(c, Array(items), indent, depth)) && SkipSpace(t, p) == p
    ensures Outcome(ParseValue(c, t, p, depth), Fits(Array(items), depth), Back(c, Array(items)),
                    p + |Text(c, Array(items), indent, depth)|)
    decreases items, 4
  {
    hide At, ItemsText, ParseValue, ParseItems, BackItems, ItemsHeight, ItemsDoubles, Refused;
    if items == [] {
      BackOfEmpty(c);
      AtByte(t, p, [LBRACKET, RBRACKET], 0);
      AtByte(t, p, [LBRACKET, RBRACKET], 1);
      EntersArray(c, t, p, depth);
      assert SkipSpace(t, p + 1) == p + 1;
    } else {
      var rest := ItemsText(c, items, indent, depth, true);
      AtByte(t, p, [LBRACKET] + rest, 0);
      EntersArray(c, t, p, depth);
      AtSplit(t, p, [LBRACKET], rest);
      OpeningItem(c, t, p + 1, items, indent, depth);
      ItemsRead(c, t, SkipSpace(t, p + 1), items, indent, depth, []);
      assert SkipSpace(t, SkipSpace(t, p + 1)) == SkipSpace(t, p + 1);
    }
  }

  /** Where the first item of a non-empty list starts once the blanks before it are skipped. */
  lemma OpeningItem(c: DoubleText, t: Bytes, p: nat, items: seq<Value>, indent: int, depth: nat)
    requires Printable(c, ItemsDoubles(items)) && items != []
    requires At(t, p, ItemsText(c, items, indent, depth, true))
    ensures var q := SkipSpace(t, p);
            && At(t, q, Text(c, items[0], indent, depth + 1) + ItemsText(c, items[1..], indent, depth, false))
            && !Sees(t, q, RBRACKET)
            && q + |Text(c, items[0], indent, depth + 1)| + |ItemsText(c, items[1..], indent, depth, false)|
            == p + |ItemsText(c, items, indent, depth, true)|
  {
    hide At, Text, Indent;
    var text, rest := Text(c, items[0], indent, depth + 1), ItemsText(c, items[1..], indent, depth, false);
    var blanks := Indent(indent, depth + 1);
    assert [] + (blanks + (text + rest)) == blanks + (text + rest);
    FirstByte(c, items[0], indent, depth + 1);
    SkipTo(t, p, blanks, text + rest);
  }

  /** What follows an item is a comma, or the closing bracket after blanks. */
  lemma AfterItem(c: DoubleText, t: Bytes, e: nat, items: seq<Value>, indent: int, depth: nat)
    requires At(t, e, ItemsText(c, items, indent, depth, false))
    ensures Delimited(t, e) && e < |t|
    ensures items == [] ==>
              && SkipSpace(t, e) + 1 == e + |ItemsText(c, items, indent, depth, false)|
              && Sees(t, SkipSpace(t, e), RBRACKET)
    ensures items != [] ==>
              && SkipSpace(t, e) == e && Sees(t, e, COMMA)
              && At(t, e + 1, ItemsText(c, items, indent, depth, true))
              && |ItemsText(c, items, indent, depth, false)| == 1 + |ItemsText(c, items, indent, depth, true)|
  {
    hide At, Text, Indent;
    AtByte(t, e, ItemsText(c, items, indent, depth, false), 0);
    if items == [] {
      SkipTo(t, e, Indent(indent, depth), [RBRACKET]);
    } else {
      var rest := ItemsText(c, items, indent, depth, true);
      assert ItemsText(c, items, indent, depth, false) == [COMMA] + rest;
      AtSplit(t, e, [COMMA], rest);
    }
  }

  /** parse_value skips blanks itself, so a list may as well be read from after them. */
  lemma ValueSkips(c: DoubleText, t: Bytes, p: nat, depth: nat)
    requires p <= |t|
    ensures depth <= MAX_DEPTH ==> ParseValue(c, t, p, depth) == ParseValue(c, t, SkipSpace(t, p), depth)
    ensures depth > MAX_DEPTH ==> ParseValue(c, t, p, depth) == Fail(DepthExceeded, p)
  {
    assert SkipSpace(t, SkipSpace(t, p)) == SkipSpace(t, p);
  }

  /** One turn of parse_array's loop. */
  lemma ItemsStep(c: DoubleText, t: Bytes, p: nat, depth: nat, done: seq<Value>, r: Step<Value>)
    requires p <= |t| && ParseValue(c, t, p, depth + 1) == r
    ensures r.Failed? ==> ParseItems(c, t, p, depth, done) == r
    ensures r.Done? ==>
              var q := SkipSpace(t, r.pos);
              && (Sees(t, q, COMMA) ==> ParseItems(c, t, p, depth, done) == ParseItems(c, t, q + 1, depth, done + [r.value]))
              && (Sees(t, q, RBRACKET) ==> ParseItems(c, t, p, depth, done) == Done(Array(done + [r.value]), q + 1))
  {
    hide ParseValue, SkipSpace;
  }

  /** The value that one turn of parse_array's loop reads, and what it finds after it. */
  lemma {:induction false} ItemReads(
    c: DoubleText, t: Bytes, p: nat, items: seq<Value>, indent: int, depth: nat)
    returns (e: nat)
    requires items != [] && Printable(c, Doubles(items[0])) && depth <= MAX_DEPTH && p <= |t|
    requires At(t, SkipSpace(t, p),
                Text(c, items[0], indent, depth + 1) + ItemsText(c, items[1..], indent, depth, false))
    ensures e == SkipSpace(t, p) + |Text(c, items[0], indent, depth + 1)|
    ensures Outcome(ParseValue(c, t, p, depth + 1), Fits(items[0], depth + 1), Back(c, items[0]), e)
    ensures At(t, e, ItemsText(c, items[1..], indent, depth, false)) && Delimited(t, e) && e < |t|
    decreases items, 1
  {
    hide At, Text, ItemsText, ParseValue, Back, Height;
    var text, rest := Text(c, items[0], indent, depth + 1), ItemsText(c, items[1..], indent, depth, false);
    e := SkipSpace(t, p) + |text|;
    AtSplit(t, SkipSpace(t, p), text, rest);
    AfterItem(c, t, e, items[1..], indent, depth);
    ValueReads(c, t, SkipSpace(t, p), items[0], indent, depth + 1);
    ValueSkips(c, t, p, depth + 1);
  }

  lemma ItemsGrow(c: DoubleText, items: seq<Value>, done: seq<Value>)
    requires items != []
    ensures var first, rest := Back(c, items[0]), BackItems(c, items[1..]);
            && (first.None? ==> BackItems(c, items).None?)
            && (first.Some? ==> AsArray(done, BackItems(c, items)) == AsArray(done + [first.value], rest))
            && (first.Some? && items[1..] == [] ==> AsArray(done, BackItems(c, items)) == Some(Array(done + [first.value])))
    ensures ItemsHeight(items) == Max(Height(items[0]), ItemsHeight(items[1..])) && ItemsHeight([]) == 0
  {
    var first, rest := Back(c, items[0]), BackItems(c, items[1..]);
    if first.Some? && rest.Some? {
      Assoc(done, [first.value], rest.value);
      assert done + [first.value] + [] == done + [first.value];
    }
  }

  /** A whole turn of the loop on printed items: it fails, ends the array, or goes on to the next item. */
  lemma {:induction false} ItemsTurn(
    c: DoubleText, t: Bytes, p: nat, items: seq<Value>, indent: int, depth: nat, done: seq<Value>)
    returns (e: nat)
    requires items != [] && Printable(c, Doubles(items[0])) && depth <= MAX_DEPTH && p <= |t|
    requires At(t, SkipSpace(t, p),
                Text(c, items[0], indent, depth + 1) + ItemsText(c, items[1..], indent, depth, false))
    ensures e == SkipSpace(t, p) + |Text(c, items[0], indent, depth + 1)| < |t|
    ensures var first, fits, r := Back(c, items[0]), Fits(items[0], depth + 1), ParseItems(c, t, p, depth, done);
            && (!fits || first.None? ==> r.Failed? && Refused(r.error.kind, fits, first))
            && (fits && first.Some? && items[1..] == [] ==>
                  r == Done(Array(done + [first.value]), e + |ItemsText(c, items[1..], indent, depth, false)|))
            && (fits && first.Some? && items[1..] != [] ==>
                  && At(t, e + 1, ItemsText(c, items[1..], indent, depth, true))
                  && |ItemsText(c, items[1..], indent, depth, false)| == 1 + |ItemsText(c, items[1..], indent, depth, true)|
                  && r == ParseItems(c, t, e + 1, depth, done + [first.value]))
    decreases items, 2
  {
    hide At, Text, ItemsText, ParseValue, ParseItems, Back, Height;
    e := ItemReads(c, t, p, items, indent, depth);
    AfterItem(c, t, e, items[1..], indent, depth);
    ItemsStep(c, t, p, depth, done, ParseValue(c, t, p, depth + 1));
  }

  lemma {:induction false} ItemsRead(
    c: DoubleText, t: Bytes, p: nat, items: seq<Value>, indent: int, depth: nat, done: seq<Value>)
    requires Printable(c, ItemsDoubles(items)) && depth <= MAX_DEPTH && items != [] && p <= |t|
    requires At(t, SkipSpace(t, p),
                Text(c, items[0], indent, depth + 1) + ItemsText(c, items[1..], indent, depth, false))
    ensures Outcome(ParseItems(c, t, p, depth, done), depth + 1 + ItemsHeight(items) <= MAX_DEPTH,
                    AsArray(done, BackItems(c, items)),
                    SkipSpace(t, p) + |Text(c, items[0], indent, depth + 1)|
                    + |ItemsText(c, items[1..], indent, depth, false)|)
    decreases items, 3
  {
    hide At, Text, ItemsText, ParseValue, ParseItems, Back, BackItems, Height, ItemsHeight, Doubles;
    var e := ItemsTurn(c, t, p, items, indent, depth, done);
    ItemsGrow(c, items, done);
    if Fits(items[0], depth + 1) && Back(c, items[0]).Some? && items[1..] != [] {
      OpeningItem(c, t, e + 1, items[1..], indent, depth);
      ItemsRead(c, t, e + 1, items[1..], indent, depth, done + [Back(c, items[0]).value]);
    }
  }

  // ---------------------------------------------------------------- objects

  /** The part of MembersText that starts at a member's key. */
  function FromKey(c: DoubleText, members: seq<Member>, indent: int, depth: nat): Bytes
    requires members != []
  {
    Quoted(members[0].key)
    + (KeySeparator(indent)
       + (Text(c, members[0].value, indent, depth + 1) + MembersText(c, members[1..], indent, depth, false)))
  }

  lemma OpeningMember(c: DoubleText, t: Bytes, p: nat, members: seq<Member>, indent: int, depth: nat)
    requires members != [] && At(t, p, MembersText(c, members, indent, depth, true))
    ensures var q := SkipSpace(t, p);
            && At(t, q, FromKey(c, members, indent, depth)) && Sees(t, q, QUOTE)
            && SkipSpace(t, q) == q
            && q + |FromKey(c, members, indent, depth)| == p + |MembersText(c, members, indent, depth, true)|
  {
    hide At;
    var rest := FromKey(c, members, indent, depth);
    assert [] + (Indent(indent, depth + 1) + rest) == Indent(indent, depth + 1) + rest;
    SkipTo(t, p, Indent(indent, depth + 1), rest);
  }

  lemma AfterMember(c: DoubleText, t: Bytes, e: nat, members: seq<Member>, indent: int, depth: nat)
    requires At(t, e, MembersText(c, members, indent, depth, false))
    ensures Delimited(t, e) && e < |t|
    ensures members == [] ==>
              && SkipSpace(t, e) + 1 == e + |MembersText(c, members, indent, depth, false)|
              && Sees(t, SkipSpace(t, e), RBRACE)
    ensures members != [] ==>
              && SkipSpace(t, e) == e && Sees(t, e, COMMA)
              && At(t, e + 1, MembersText(c, members, indent, depth, true))
              && |MembersText(c, members, indent, depth, false)| == 1 + |MembersText(c, members, indent, depth, true)|
  {
    hide At, Text, Quoted, Indent, KeySeparator;
    AtByte(t, e, MembersText(c, members, indent, depth, false), 0);
    if members == [] {
      SkipTo(t, e, Indent(indent, depth), [RBRACE]);
    } else {
      var rest := MembersText(c, members, indent, depth, true);
      assert MembersText(c, members, indent, depth, false) == [COMMA] + rest;
      AtSplit(t, e, [COMMA], rest);
    }
  }

  lemma {:induction false} ObjectReads(c: DoubleText, t: Bytes, p: nat, members: seq<Member>, indent: int, depth: nat)
    requires Printable(c, MembersDoubles(members)) && depth <= MAX_DEPTH
    requires At(t, p, Text(c, Object(members), indent, depth)) && SkipSpace(t, p) == p
    ensures Outcome(ParseValue(c, t, p, depth), Fits(Object(members), depth), Back(c, Object(members)),
                    p + |Text(c, Object(members), indent, depth)|)
    decreases members, 4
  {
    hide At, MembersText, ParseValue, ParseMembers, BackMembers, MembersHeight, MembersDoubles, FromKey, Refused;
    if members == [] {
      BackOfEmpty(c);
      AtByte(t, p, [LBRACE, RBRACE], 0);
      AtByte(t, p, [LBRACE, RBRACE], 1);
      EntersObject(c, t, p, depth);
      assert SkipSpace(t, p + 1) == p + 1;
    } else {
      var rest := MembersText(c, members, indent, depth, true);
      AtByte(t, p, [LBRACE] + rest, 0);
      EntersObject(c, t, p, depth);
      AtSplit(t, p, [LBRACE], rest);
      OpeningMember(c, t, p + 1, members, indent, depth);
      MembersRead(c, t, SkipSpace(t, p + 1), members, indent, depth, []);
      assert SkipSpace(t, SkipSpace(t, p + 1)) == SkipSpace(t, p + 1);
    }
  }

  /** The separator after a key, with its optional blank. */
  lemma ColonReads(t: Bytes, p: nat, indent: int, rest: Bytes)
    requires At(t, p, KeySeparator(indent) + rest) && rest != [] && !IsSpace(rest[0])
    ensures SkipSpace(t, p) == p && Sees(t, p, COLON)
    ensures At(t, p + |KeySeparator(indent)|, rest)
    ensures SkipSpace(t, p + 1) == p + |KeySeparator(indent)|
  {
    hide At;
    AtByte(t, p, KeySeparator(indent) + rest, 0);
    AtSplit(t, p, KeySeparator(indent), rest);
    var blank: Bytes := KeySeparator(indent)[1..];
    assert KeySeparator(indent) + rest == [COLON] + (blank + rest);
    AtSplit(t, p, [COLON], blank + rest);
    SkipTo(t, p + 1, blank, rest);
  }

  lemma KeyReads(t: Bytes, p: nat, key: Bytes, indent: int, rest: Bytes)
    returns (b: nat)
    requires p <= |t| && At(t, SkipSpace(t, p), Quoted(key) + (KeySeparator(indent) + rest))
    requires rest != [] && !IsSpace(rest[0])
    ensures b <= |t| && ParseKey(t, p) == Done(key, b) && At(t, SkipSpace(t, b), rest)
    ensures SkipSpace(t, b) == SkipSpace(t, p) + |Quoted(key)| + |KeySeparator(indent)|
  {
    hide At, Quoted, KeySeparator, StringTail, SkipSpace;
    var k := SkipSpace(t, p);
    AtSplit(t, k, Quoted(key), KeySeparator(indent) + rest);
    QuotedReads(t, k, key);
    ColonReads(t, k + |Quoted(key)|, indent, rest);
    b := k + |Quoted(key)| + 1;
  }

  /** One turn of parse_object's loop. */
  lemma MembersStep(c: DoubleText, t: Bytes, p: nat, depth: nat, done: seq<Member>, key: Bytes, b: nat, r: Step<Value>)
    requires p <= |t| && ParseKey(t, p) == Done(key, b) && ParseValue(c, t, b, depth + 1) == r
    ensures r.Failed? ==> ParseMembers(c, t, p, depth, done) == r
    ensures r.Done? ==>
              var q, m := SkipSpace(t, r.pos), Member(key, r.value);
              && (Sees(t, q, COMMA) ==> ParseMembers(c, t, p, depth, done) == ParseMembers(c, t, q + 1, depth, done + [m]))
              && (Sees(t, q, RBRACE) ==> ParseMembers(c, t, p, depth, done) == Done(Object(done + [m]), q + 1))
  {
    hide ParseKey, ParseValue, SkipSpace;
  }

  /** The member that one turn of parse_object's loop reads, and what it finds after it. */
  lemma {:induction false} MemberReads(
    c: DoubleText, t: Bytes, p: nat, members: seq<Member>, indent: int, depth: nat)
    returns (b: nat, e: nat)
    requires members != [] && Printable(c, Doubles(members[0].value)) && depth <= MAX_DEPTH && p <= |t|
    requires At(t, SkipSpace(t, p), FromKey(c, members, indent, depth))
    ensures e + |MembersText(c, members[1..], indent, depth, false)|
         == SkipSpace(t, p) + |FromKey(c, members, indent, depth)|
    ensures b <= |t| && ParseKey(t, p) == Done(members[0].key, b)
    ensures Outcome(ParseValue(c, t, b, depth + 1), Fits(members[0].value, depth + 1),
                    Back(c, members[0].value), e)
    ensures At(t, e, MembersText(c, members[1..], indent, depth, false))
    decreases members, 1
  {
    hide At, Text, MembersText, ParseValue, ParseKey, Quoted, KeySeparator, Back, Height;
    var text, rest := Text(c, members[0].value, indent, depth + 1), MembersText(c, members[1..], indent, depth, false);
    FirstByte(c, members[0].value, indent, depth + 1);
    b := KeyReads(t, p, members[0].key, indent, text + rest);
    e := SkipSpace(t, b) + |text|;
    AtSplit(t, SkipSpace(t, b), text, rest);
    AfterMember(c, t, e, members[1..], indent, depth);
    ValueReads(c, t, SkipSpace(t, b), members[0].value, indent, depth + 1);
    ValueSkips(c, t, b, depth + 1);
  }

  lemma MembersGrow(c: DoubleText, members: seq<Member>, done: seq<Member>)
    requires members != []
    ensures var first, rest := BackMember(c, members[0]), BackMembers(c, members[1..]);
            && (first.None? ==> BackMembers(c, members).None?)
            && (first.Some? ==> AsObject(done, BackMembers(c, members)) == AsObject(done + [first.value], rest))
            && (first.Some? && members[1..] == [] ==>
                  AsObject(done, BackMembers(c, members)) == Some(Object(done + [first.value])))
    ensures MembersHeight(members) == Max(Height(members[0].value), MembersHeight(members[1..])) && MembersHeight([]) == 0
  {
    var first, rest := BackMember(c, members[0]), BackMembers(c, members[1..]);
    if first.Some? && rest.Some? {
      Assoc(done, [first.value], rest.value);
      assert done + [first.value] + [] == done + [first.value];
    }
  }

  lemma {:induction false} MembersTurn(
    c: DoubleText, t: Bytes, p: nat, members: seq<Member>, indent: int, depth: nat, done: seq<Member>)
    returns (e: nat)
    requires members != [] && Printable(c, Doubles(members[0].value)) && depth <= MAX_DEPTH && p <= |t|
    requires At(t, SkipSpace(t, p), FromKey(c, members, indent, depth))
    ensures e + |MembersText(c, members[1..], indent, depth, false)|
         == SkipSpace(t, p) + |FromKey(c, members, indent, depth)| && e < |t|
    ensures var value, first := Back(c, members[0].value), BackMember(c, members[0]);
            var fits, r := Fits(members[0].value, depth + 1), ParseMembers(c, t, p, depth, done);
            && (!fits || first.None? ==> r.Failed? && Refused(r.error.kind, fits, value))
            && (fits && first.Some? && members[1..] == [] ==>
                  r == Done(Object(done + [first.value]), e + |MembersText(c, members[1..], indent, depth, false)|))
            && (fits && first.Some? && members[1..] != [] ==>
                  && At(t, e + 1, MembersText(c, members[1..], indent, depth, true))
                  && |MembersText(c, members[1..], indent, depth, false)| == 1 + |MembersText(c, members[1..], indent, depth, true)|
                  && r == ParseMembers(c, t, e + 1, depth, done + [first.value]))
    decreases members, 2
  {
    hide At, Text, MembersText, ParseValue, ParseKey, ParseMembers, FromKey, Back, Height;
    var b;
    b, e := MemberReads(c, t, p, members, indent, depth);
    AfterMember(c, t, e, members[1..], indent, depth);
    MembersStep(c, t, p, depth, done, members[0].key, b, ParseValue(c, t, b, depth + 1));
  }

  lemma {:induction false} MembersRead(
    c: DoubleText, t: Bytes, p: nat, members: seq<Member>, indent: int, depth: nat, done: seq<Member>)
    requires Printable(c, MembersDoubles(members)) && depth <= MAX_DEPTH && members != [] && p <= |t|
    requires At(t, SkipSpace(t, p), FromKey(c, members, indent, depth))
    ensures Outcome(ParseMembers(c, t, p, depth, done), depth + 1 + MembersHeight(members) <= MAX_DEPTH,
                    AsObject(done, BackMembers(c, members)), SkipSpace(t, p) + |FromKey(c, members, indent, depth)|)
    decreases members, 3
  {
    hide At, Text, MembersText, ParseValue, ParseMembers, FromKey, Back, BackMembers, Height, MembersHeight, Doubles;
    var e := MembersTurn(c, t, p, members, indent, depth, done);
    MembersGrow(c, members, done);
    if Fits(members[0].value, depth + 1) && BackMember(c, members[0]).Some? && members[1..] != [] {
      OpeningMember(c, t, e + 1, members[1..], indent, depth);
      MembersRead(c, t, e + 1, members[1..], indent, depth, done + [BackMember(c, members[0]).value]);
    }
  }

  // ---------------------------------------------------------------- main results

  /**
   * Every value whose doubles print as number literals, at every indent: the printed text parses to what
   * `Back` says when the value is nested at most 128 deep and no double's text is refused. Otherwise it is
   * refused, for its depth or for a number, whichever applies.
   */
  lemma ParseOfSerialize(c: DoubleText, v: Value, indent: int)
    requires Printable(c, Doubles(v))
    ensures var r, fits := Parse(c, Serialize(c, v, indent)), Height(v) <= MAX_DEPTH;
            if fits && Back(c, v).Some? then r == Ok(Back(c, v).value)
            else r.Err? && Refused(r.error.kind, fits, Back(c, v))
  {
    var t := Serialize(c, v, indent);
    FirstByte(c, v, indent, 0);
    if |t| >= 3 {
      assert t[..3][0] == t[0];
    }
    assert t[0..|t|] == t;
    hide Back, Text, ParseValue, Height, Doubles, Refused;
    assert SkipSpace(t, 0) == 0 && SkipSpace(t, |t|) == |t|;
    assert Parse(c, t)
        == match ParseValue(c, t, 0, 0)
           case Failed(e) => Err(e)
           case Done(w, e) => if SkipSpace(t, e) != |t| then Err(ParseError(TrailingCharacters, SkipSpace(t, e))) else Ok(w);
    ValueReads(c, t, 0, v, indent, 0);
  }

  lemma {:induction false} BackIsIdentity(c: DoubleText, v: Value)
    ensures Back(c, v) == Some(v) <==> Lossless(c, Doubles(v))
    decreases v, 0
  {
    match v
    case Array(items) => BackItemsIdentity(c, items);
    case Object(members) => BackMembersIdentity(c, members);
    case Number(d) => assert d in Doubles(v);
    case _ =>
  }

  lemma {:induction false} BackItemsIdentity(c: DoubleText, items: seq<Value>)
    ensures BackItems(c, items) == Some(items) <==> Lossless(c, ItemsDoubles(items))
    ensures AsArray([], BackItems(c, items)) == Some(Array(items)) <==> BackItems(c, items) == Some(items)
    decreases items, 1
  {
    if items != [] {
      BackIsIdentity(c, items[0]);
      BackItemsIdentity(c, items[1..]);
      Unfolded(Back(c, items[0]), BackItems(c, items[1..]), items);
    }
    assert BackItems(c, items).Some? ==> [] + BackItems(c, items).value == BackItems(c, items).value;
  }

  lemma Unfolded<T>(first: Option<T>, rest: Option<seq<T>>, all: seq<T>)
    requires all != []
    ensures After(first, rest) == Some(all) <==> first == Some(all[0]) && rest == Some(all[1..])
  {
    assert all == [all[0]] + all[1..];
    if first.Some? && rest.Some? {
      assert ([first.value] + rest.value)[0] == first.value && ([first.value] + rest.value)[1..] == rest.value;
    }
  }

  lemma {:induction false} BackMembersIdentity(c: DoubleText, members: seq<Member>)
    ensures BackMembers(c, members) == Some(members) <==> Lossless(c, MembersDoubles(members))
    ensures AsObject([], BackMembers(c, members)) == Some(Object(members)) <==> BackMembers(c, members) == Some(members)
    decreases members, 1
  {
    if members != [] {
      BackIsIdentity(c, members[0].value);
      BackMembersIdentity(c, members[1..]);
      Unfolded(BackMember(c, members[0]), BackMembers(c, members[1..]), members);
    }
    assert BackMembers(c, members).Some? ==> [] + BackMembers(c, members).value == BackMembers(c, members).value;
  }

  /** Exactly which values survive the round trip, whatever the indent. */
  lemma RoundTrip(c: DoubleText, v: Value, indent: int)
    requires Printable(c, Doubles(v))
    ensures Parse(c, Serialize(c, v, indent)) == Ok(v) <==> Height(v) <= MAX_DEPTH && Lossless(c, Doubles(v))
  {
    ParseOfSerialize(c, v, indent);
    BackIsIdentity(c, v);
  }

  /** Nothing need be known of snprintf and strtod for a value in which no double occurs. */
  lemma RoundTripWithoutDoubles(c: DoubleText, v: Value, indent: int)
    requires Doubles(v) == {}
    ensures var r := Parse(c, Serialize(c, v, indent));
            if Height(v) <= MAX_DEPTH then r == Ok(v) else r.Err? && r.error.kind == DepthExceeded
  {
    ParseOfSerialize(c, v, indent);
    BackIsIdentity(c, v);
  }

  /** A loss: a double printed as "1" comes back as the integer 1. */
  lemma WholeDoubleBecomesInteger(c: DoubleText)
    requires c.render(1.0) == [0x31]
    ensures Parse(c, Serialize(c, Number(Finite(1.0)), -1)) == Ok(Int(1))
  {
    ParseOfSerialize(c, Number(Finite(1.0)), -1);
    assert Unsigned([0x31]) == [0x31];
    DecimalRoundTrip(1);
    assert Decimal(1) == [0x31];
  }

  /** "5e-324", the text of the least double, which std::stod refuses as out of range. */
  const LEAST_DOUBLE: Bytes := [0x35, 0x65, 0x2D, 0x33, 0x32, 0x34]

  /** Another loss: where strtod refuses the text of a subnormal double, so does the parser. */
  lemma SubnormalIsRefused(c: DoubleText, r: real)
    requires c.render(r) == LEAST_DOUBLE && c.read(LEAST_DOUBLE).None?
    ensures Height(Number(Finite(r))) == 0 && !AllDigits(Unsigned(c.render(r)))
    ensures Parse(c, Serialize(c, Number(Finite(r)), -1)) == Err(ParseError(NumberOutOfRange, 6))
  {
    var t := LEAST_DOUBLE;
    assert !IsDigit(Unsigned(t)[1]);
    assert t[..3][0] != 0xEF;
    assert t[0..6] == t;
    NumberReads(c, t, 0, Number(Finite(r)));
  }

  /** Printing is injective on the values that survive. */
  lemma SerializeInjective(c: DoubleText, v: Value, w: Value, indent: int)
    requires Height(v) <= MAX_DEPTH && Lossless(c, Doubles(v)) && Lossless(c, Doubles(w))
    requires Printable(c, Doubles(v)) && Printable(c, Doubles(w))
    requires Serialize(c, v, indent) == Serialize(c, w, indent)
    ensures v == w
  {
    RoundTrip(c, v, indent);
    ParseOfSerialize(c, w, indent);
    BackIsIdentity(c, w);
  }
}
