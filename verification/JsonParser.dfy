/** The parser object and the printing loops, proved against JsonText (src/core/json.cpp). */
module JsonParser {
  import opened Base
  import opened JsonText

  class Parser {
    const text: Bytes
    const doubles: DoubleText
    var pos: nat

    constructor (text: Bytes, doubles: DoubleText)
      ensures this.text == text && this.doubles == doubles && pos == 0
    {
      this.text := text;
      this.doubles := doubles;
      pos := 0;
    }

    predicate Valid()
      reads this`pos
    {
      pos <= |text|
    }

    /** A method's outcome is the one JsonText gives for the position it started at. */
    ghost predicate Agrees<T>(spec: Step<T>, r: Result<T, ParseError>)
      reads this`pos
    {
      match spec
      case Done(value, end) => r == Ok(value) && pos == end <= |text|
      case Failed(error) => r == Err(error)
    }

    method SkipWhitespace()
      requires Valid()
      modifies `pos
      ensures Valid() && pos == SkipSpace(text, old(pos))
    {
      while pos < |text| && IsSpace(text[pos])
        invariant Valid() && SkipSpace(text, pos) == SkipSpace(text, old(pos))
      {
        pos := pos + 1;
      }
    }

    method Consume(expected: Byte) returns (found: bool)
      requires Valid()
      modifies `pos
      ensures Valid() && found == Sees(text, old(pos), expected)
      ensures pos == if found then old(pos) + 1 else old(pos)
    {
      found := pos < |text| && text[pos] == expected;
      if found {
        pos := pos + 1;
      }
    }

    method ParseHex4() returns (r: Result<nat, ParseError>)
      requires Valid()
      modifies `pos
      ensures Agrees(Hex4(text, old(pos)), r)
      ensures r.Ok? ==> r.value < 0x1_0000
    {
      if pos + 4 > |text| {
        return Err(ParseError(TruncatedUnicode, pos));
      }
      var value: nat := 0;
      for i := 0 to 4
        invariant pos == old(pos) + i
        invariant HexDigits(text, pos, 4 - i, value) == HexDigits(text, old(pos), 4, 0)
      {
        var digit := HexValue(text[pos]);
        pos := pos + 1;
        if digit.None? {
          return Err(ParseError(InvalidHexDigit, pos));
        }
        value := value * 16 + digit.value;
      }
      return Ok(value);
    }

    /** The body of case 'u', `pos` just after it. */
    method ParseUnicodeEscape() returns (r: Result<Bytes, ParseError>)
      requires Valid()
      modifies `pos
      ensures Agrees(UnicodeEscape(text, old(pos)), r)
    {
      var code := ParseHex4();
      if code.Err? {
        return Err(code.error);
      }
      var codePoint := code.value;
      if IsHigh(codePoint) && pos + 1 < |text| && text[pos] == BACKSLASH && text[pos + 1] == LETTER_U {
        var saved := pos;
        pos := pos + 2;
        var low := ParseHex4();
        if low.Ok? && IsLow(low.value) {
          codePoint := Combine(codePoint, low.value);
        } else {
          pos := saved;
        }
      }
      return Ok(Utf8(codePoint));
    }

    /** The body of the backslash case, `pos` just after it. */
    method ParseEscape() returns (r: Result<Bytes, ParseError>)
      requires Valid()
      modifies `pos
      ensures Agrees(EscapeSequence(text, old(pos)), r)
    {
      if pos >= |text| {
        return Err(ParseError(UnterminatedEscape, pos));
      }
      var escape := text[pos];
      pos := pos + 1;
      match escape
      case 0x22 => r := Ok([QUOTE]);
      case 0x5C => r := Ok([BACKSLASH]);
      case 0x2F => r := Ok([0x2F]);
      case 0x62 => r := Ok([0x08]);
      case 0x66 => r := Ok([0x0C]);
      case 0x6E => r := Ok([0x0A]);
      case 0x72 => r := Ok([0x0D]);
      case 0x74 => r := Ok([0x09]);
      case 0x75 => r := ParseUnicodeEscape();
      case _ => r := Err(ParseError(InvalidEscape, pos));
    }

    method ParseString() returns (r: Result<Bytes, ParseError>)
      requires pos < |text|
      modifies `pos
      ensures Agrees(StringTail(text, old(pos) + 1, []), r)
      ensures r.Ok? ==> old(pos) < pos
    {
      pos := pos + 1;
      var out: Bytes := [];
      while pos < |text|
        invariant Valid() && old(pos) < pos
        invariant StringTail(text, pos, out) == StringTail(text, old(pos) + 1, [])
        decreases |text| - pos
      {
        var b := text[pos];
        if b == QUOTE {
          pos := pos + 1;
          return Ok(out);
        }
        if b == BACKSLASH {
          pos := pos + 1;
          var bytes := ParseEscape();
          if bytes.Err? {
            return Err(bytes.error);
          }
          out := out + bytes.value;
        } else if b < 0x20 {
          return Err(ParseError(ControlCharacter, pos));
        } else {
          out := out + [b];
          pos := pos + 1;
        }
      }
      return Err(ParseError(UnterminatedString, pos));
    }

    /** The scanning loop: over digits, points, exponent letters and signs; were they all digits? */
    method SkipNumber() returns (isInteger: bool)
      requires Valid()
      modifies `pos
      ensures Valid() && old(pos) <= pos && pos == NumberEnd(text, old(pos))
      ensures isInteger <==> forall i :: old(pos) <= i < pos ==> IsDigit(text[i])
    {
      isInteger := true;
      while pos < |text|
        invariant old(pos) <= pos <= |text| && NumberEnd(text, pos) == NumberEnd(text, old(pos))
        invariant isInteger <==> forall i :: old(pos) <= i < pos ==> IsDigit(text[i])
      {
        var b := text[pos];
        if IsDigit(b) {
          pos := pos + 1;
        } else if b == 0x2E || b == 0x65 || b == 0x45 || b == PLUS || b == MINUS {
          isInteger := false;
          pos := pos + 1;
        } else {
          break;
        }
      }
    }

    method ParseNumberLiteral() returns (r: Result<Value, ParseError>)
      requires Valid()
      modifies `pos
      ensures Agrees(ParseNumber(doubles, text, old(pos)), r)
    {
      hide ReadInteger, NumberEnd, ParseNumber, Unsigned, AllDigits;
      var start := pos;
      if pos < |text| && (text[pos] == MINUS || text[pos] == PLUS) {
        pos := pos + 1;
      }
      ghost var first := pos;
      var isInteger := SkipNumber();
      if pos == start {
        NoNumberIs(start);
        return Err(ParseError(InvalidNumber, pos));
      }
      var literal := text[start..pos];
      UnsignedLiteral(start, first, pos);
      NumberIs(start, first, pos);
      if isInteger {
        var whole := ReadInteger(literal);
        return if whole.Some? then Ok(Int(whole.value)) else Err(ParseError(NumberOutOfRange, pos));
      }
      var double := doubles.read(literal);
      return if double.Some? then Ok(Number(Finite(double.value))) else Err(ParseError(NumberOutOfRange, pos));
    }

    lemma NoNumberIs(start: nat)
      requires start <= |text| && SignEnd(text, start) == NumberEnd(text, start) == start
      ensures ParseNumber(doubles, text, start) == Fail(InvalidNumber, start)
    {
      hide ReadLiteral, NumberEnd, SignEnd;
    }

    lemma NumberIs(start: nat, first: nat, end: nat)
      requires start <= |text| && first == SignEnd(text, start) && end == NumberEnd(text, first) && start < end
      ensures ParseNumber(doubles, text, start)
              == match ReadLiteral(doubles, text[start..end])
                 case Some(v) => Done(v, end)
                 case None => Fail(NumberOutOfRange, end)
    {
      hide ReadLiteral, NumberEnd, SignEnd;
    }

    lemma UnsignedLiteral(start: nat, first: nat, end: nat)
      requires start <= first <= end <= |text| && start < end && first == SignEnd(text, start)
      ensures Unsigned(text[start..end]) == text[first..end]
      ensures AllDigits(Unsigned(text[start..end])) <==> forall i :: first <= i < end ==> IsDigit(text[i])
    {
      var s := text[start..end];
      assert s[0] == text[start];
      assert Unsigned(s) == text[first..end];
      forall i | first <= i < end
        ensures text[i] == text[first..end][i - first]
      {
      }
    }

    method ParseJson(depth: nat) returns (r: Result<Value, ParseError>)
      requires Valid()
      modifies `pos
      ensures Agrees(ParseValue(doubles, text, old(pos), depth), r)
      decreases |text| - pos, 2
    {
      if depth > MAX_DEPTH {
        return Err(ParseError(DepthExceeded, pos));
      }
      SkipWhitespace();
      if pos >= |text| {
        return Err(ParseError(UnexpectedEnd, pos));
      }
      var b := text[pos];
      if b == LBRACE {
        r := ParseObject(depth);
      } else if b == LBRACKET {
        r := ParseArray(depth);
      } else if b == QUOTE {
        var s := ParseString();
        return if s.Ok? then Ok(String(s.value)) else Err(s.error);
      } else if b == 0x74 {
        r := ParseWord(TRUE_TEXT, Bool(true));
      } else if b == 0x66 {
        r := ParseWord(FALSE_TEXT, Bool(false));
      } else if b == 0x6E {
        r := ParseWord(NULL_TEXT, Null);
      } else {
        r := ParseNumberLiteral();
      }
    }

    method ParseWord(word: Bytes, value: Value) returns (r: Result<Value, ParseError>)
      requires Valid() && |word| > 0
      modifies `pos
      ensures Agrees(ParseLiteral(text, old(pos), word, value), r)
    {
      if At(text, pos, word) {
        pos := pos + |word|;
        return Ok(value);
      }
      return Err(ParseError(InvalidLiteral, pos));
    }

    lemma OpensContainer(p: nat, depth: nat)
      requires p < |text| && SkipSpace(text, p) == p && depth <= MAX_DEPTH
      ensures text[p] == LBRACKET ==>
                ParseValue(doubles, text, p, depth)
                == var inner := SkipSpace(text, p + 1);
                   if Sees(text, inner, RBRACKET) then Done(Array([]), inner + 1)
                   else ParseItems(doubles, text, inner, depth, [])
      ensures text[p] == LBRACE ==>
                ParseValue(doubles, text, p, depth)
                == var inner := SkipSpace(text, p + 1);
                   if Sees(text, inner, RBRACE) then Done(Object([]), inner + 1)
                   else ParseMembers(doubles, text, inner, depth, [])
    {
    }

    method ParseArray(depth: nat) returns (r: Result<Value, ParseError>)
      requires pos < |text| && text[pos] == LBRACKET && SkipSpace(text, pos) == pos && depth <= MAX_DEPTH
      modifies `pos
      ensures Agrees(ParseValue(doubles, text, old(pos), depth), r)
      decreases |text| - pos, 1
    {
      hide ParseValue, SkipSpace;
      OpensContainer(pos, depth);
      ghost var start := pos;
      pos := pos + 1;
      var items: seq<Value> := [];
      SkipWhitespace();
      var closed := Consume(RBRACKET);
      if closed {
        return Ok(Array(items));
      }
      while true
        invariant start < pos <= |text|
        invariant ParseItems(doubles, text, pos, depth, items) == ParseValue(doubles, text, start, depth)
        decreases |text| - pos
      {
        ghost var turn := pos;
        var value := ParseJson(depth + 1);
        if value.Err? {
          return value;
        }
        items := items + [value.value];
        SkipWhitespace();
        var more := Consume(COMMA);
        if !more {
          closed := Consume(RBRACKET);
          if closed {
            return Ok(Array(items));
          }
          return Err(ParseError(ExpectedCommaOrBracket, pos));
        }
        assert turn < pos;
      }
    }

    /** The part of parse_object's loop up to the colon. */
    method ParseMemberKey() returns (r: Result<Bytes, ParseError>)
      requires Valid()
      modifies `pos
      ensures Agrees(ParseKey(text, old(pos)), r)
      ensures r.Ok? ==> old(pos) < pos
    {
      SkipWhitespace();
      if pos >= |text| || text[pos] != QUOTE {
        return Err(ParseError(ExpectedKey, pos));
      }
      r := ParseString();
      if r.Ok? {
        SkipWhitespace();
        var colon := Consume(COLON);
        if !colon {
          return Err(ParseError(ExpectedColon, pos));
        }
      }
    }

    method ParseObject(depth: nat) returns (r: Result<Value, ParseError>)
      requires pos < |text| && text[pos] == LBRACE && SkipSpace(text, pos) == pos && depth <= MAX_DEPTH
      modifies `pos
      ensures Agrees(ParseValue(doubles, text, old(pos), depth), r)
      decreases |text| - pos, 1
    {
      hide ParseValue, SkipSpace, ParseKey;
      OpensContainer(pos, depth);
      ghost var start := pos;
      pos := pos + 1;
      var members: seq<Member> := [];
      SkipWhitespace();
      var closed := Consume(RBRACE);
      if closed {
        return Ok(Object(members));
      }
      while true
        invariant start < pos <= |text|
        invariant ParseMembers(doubles, text, pos, depth, members) == ParseValue(doubles, text, start, depth)
        decreases |text| - pos
      {
        ghost var turn := pos;
        var key := ParseMemberKey();
        if key.Err? {
          return Err(key.error);
        }
        var value := ParseJson(depth + 1);
        if value.Err? {
          return value;
        }
        members := members + [Member(key.value, value.value)];
        SkipWhitespace();
        var more := Consume(COMMA);
        if !more {
          closed := Consume(RBRACE);
          if closed {
            return Ok(Object(members));
          }
          return Err(ParseError(ExpectedCommaOrBrace, pos));
        }
        assert turn < pos;
      }
    }

    method ParseDocument() returns (r: Result<Value, ParseError>)
      requires pos == 0
      modifies `pos
      ensures r == match ParseValue(doubles, text, SkipSpace(text, 0), 0)
                   case Failed(e) => Err(e)
                   case Done(v, e) =>
                     if SkipSpace(text, e) != |text| then Err(ParseError(TrailingCharacters, SkipSpace(text, e)))
                     else Ok(v)
    {
      SkipWhitespace();
      r := ParseJson(0);
      if r.Ok? {
        SkipWhitespace();
        if pos != |text| {
          return Err(ParseError(TrailingCharacters, pos));
        }
      }
    }
  }

  method ParseText(doubles: DoubleText, text: Bytes) returns (r: Result<Value, ParseError>)
    ensures r == Parse(doubles, text)
  {
    if text == [] {
      return Err(ParseError(EmptyDocument, 0));
    }
    var body := text;
    if StartsWithMark(text) {
      body := text[3..];
    }
    var parser := new Parser(body, doubles);
    r := parser.ParseDocument();
  }

  method EscapeText(input: Bytes) returns (out: Bytes)
    ensures out == Escape(input)
  {
    out := [];
    for i := 0 to |input|
      invariant Escape(input) == out + Escape(input[i..])
    {
      assert input[i..][1..] == input[i + 1..];
      Assoc(out, EscapeByte(input[i]), Escape(input[i + 1..]));
      out := out + EscapeByte(input[i]);
    }
  }

  method WriteIndent(out: Bytes, indent: int, depth: nat) returns (r: Bytes)
    ensures r == out + Indent(indent, depth)
  {
    if indent < 0 {
      return out;
    }
    MarginWidth(indent, depth);
    r := out + [0x0A];
    r := r + Spaces(indent * depth);
  }

  method SerializeInto(doubles: DoubleText, value: Value, out: Bytes, indent: int, depth: nat) returns (r: Bytes)
    ensures r == out + Text(doubles, value, indent, depth)
    decreases value, 1
  {
    match value
    case Null => r := out + NULL_TEXT;
    case Bool(b) => r := out + if b then TRUE_TEXT else FALSE_TEXT;
    case Int(i) => r := out + IntText(i);
    case Number(d) => r := out + DoubleBytes(doubles, d);
    case String(s) =>
      var body := EscapeText(s);
      r := out + [QUOTE] + body + [QUOTE];
    case Array(items) =>
      if items == [] {
        return out + [LBRACKET, RBRACKET];
      }
      r := SerializeItems(doubles, items, out + [LBRACKET], indent, depth);
    case Object(members) =>
      if members == [] {
        return out + [LBRACE, RBRACE];
      }
      r := SerializeMembers(doubles, members, out + [LBRACE], indent, depth);
  }

  lemma AppendQuoted(out: Bytes, s: Bytes)
    ensures out + [QUOTE] + Escape(s) + [QUOTE] == out + Quoted(s)
  {
  }

  lemma ItemsTextStep(
    c: DoubleText, out: Bytes, items: seq<Value>, i: nat, indent: int, depth: nat, first: bool)
    requires i < |items|
    ensures var before := if first then out else out + [COMMA];
            out + ItemsText(c, items[i..], indent, depth, first)
            == before + Indent(indent, depth + 1) + Text(c, items[i], indent, depth + 1)
               + ItemsText(c, items[i + 1..], indent, depth, false)
  {
    hide Text, Indent;
    assert items[i..][1..] == items[i + 1..];
    var rest := ItemsText(c, items[i + 1..], indent, depth, false);
    assert ItemsText(c, items[i..], indent, depth, first)
        == (if first then [] else [COMMA]) + (Indent(indent, depth + 1) + (Text(c, items[i], indent, depth + 1) + rest));
  }

  lemma MembersTextStep(
    c: DoubleText, out: Bytes, members: seq<Member>, i: nat, indent: int, depth: nat, first: bool)
    requires i < |members|
    ensures var before := if first then out else out + [COMMA];
            out + MembersText(c, members[i..], indent, depth, first)
            == before + Indent(indent, depth + 1) + Quoted(members[i].key) + KeySeparator(indent)
               + Text(c, members[i].value, indent, depth + 1)
               + MembersText(c, members[i + 1..], indent, depth, false)
  {
    hide Text, Indent, KeySeparator, Quoted;
    assert members[i..][1..] == members[i + 1..];
    var rest := MembersText(c, members[i + 1..], indent, depth, false);
    assert MembersText(c, members[i..], indent, depth, first)
        == (if first then [] else [COMMA])
           + (Indent(indent, depth + 1)
              + (Quoted(members[i].key) + (KeySeparator(indent) + (Text(c, members[i].value, indent, depth + 1) + rest))));
  }

  /** The array loop of serialize_into, after the opening bracket. */
  method SerializeItems(doubles: DoubleText, items: seq<Value>, out: Bytes, indent: int, depth: nat)
    returns (r: Bytes)
    ensures r == out + ItemsText(doubles, items, indent, depth, true)
    decreases items, 2
  {
    r := out;
    var first := true;
    for i := 0 to |items|
      invariant first == (i == 0)
      invariant out + ItemsText(doubles, items, indent, depth, true)
             == r + ItemsText(doubles, items[i..], indent, depth, first)
    {
      hide Text, Indent, ItemsText;
      ItemsTextStep(doubles, r, items, i, indent, depth, first);
      if !first {
        r := r + [COMMA];
      }
      first := false;
      r := WriteIndent(r, indent, depth + 1);
      r := SerializeInto(doubles, items[i], r, indent, depth + 1);
    }
    r := WriteIndent(r, indent, depth);
    r := r + [RBRACKET];
  }

  /** The object loop of serialize_into, after the opening brace. */
  method SerializeMembers(doubles: DoubleText, members: seq<Member>, out: Bytes, indent: int, depth: nat)
    returns (r: Bytes)
    ensures r == out + MembersText(doubles, members, indent, depth, true)
    decreases members, 2
  {
    r := out;
    var first := true;
    for i := 0 to |members|
      invariant first == (i == 0)
      invariant out + MembersText(doubles, members, indent, depth, true)
             == r + MembersText(doubles, members[i..], indent, depth, first)
    {
      hide Text, Indent, MembersText, KeySeparator, Quoted;
      MembersTextStep(doubles, r, members, i, indent, depth, first);
      if !first {
        r := r + [COMMA];
      }
      first := false;
      r := WriteIndent(r, indent, depth + 1);
      var key := EscapeText(members[i].key);
      AppendQuoted(r, members[i].key);
      r := r + [QUOTE] + key + [QUOTE];
      r := r + KeySeparator(indent);
      r := SerializeInto(doubles, members[i].value, r, indent, depth + 1);
    }
    r := WriteIndent(r, indent, depth);
    r := r + [RBRACE];
  }

  method Dump(doubles: DoubleText, value: Value, indent: int) returns (out: Bytes)
    ensures out == Serialize(doubles, value, indent)
  {
    out := SerializeInto(doubles, value, [], indent, 0);
  }
}
