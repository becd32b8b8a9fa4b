/** JSON values, the printer, and what the parser accepts at each byte position (src/core/json.cpp). */
module JsonText {
  import opened Base

  type Int64 = i: int | -0x8000_0000_0000_0000 <= i <= 0x7FFF_FFFF_FFFF_FFFF

  /** A C++ double: the reals it can hold, or NaN and the infinities, which print alike. */
  datatype Double = NotFinite | Finite(value: real)

  datatype Member = Member(key: Bytes, value: Value)

  datatype Value =
    | Null
    | Bool(b: bool)
    | Int(i: Int64)
    | Number(d: Double)
    | String(s: Bytes)
    | Array(items: seq<Value>)
    | Object(members: seq<Member>)

  /**
   * The library calls behind doubles: snprintf, and stod with None where it throws. A real that no
   * double holds is printed like the nearest one that does.
   */
  datatype DoubleText = DoubleText(render: real -> Bytes, read: Bytes -> Option<real>)

  const MAX_DEPTH := 128

  // ---------------------------------------------------------------- bytes

  const QUOTE: Byte := 0x22
  const BACKSLASH: Byte := 0x5C
  const COMMA: Byte := 0x2C
  const COLON: Byte := 0x3A
  const LBRACE: Byte := 0x7B
  const RBRACE: Byte := 0x7D
  const LBRACKET: Byte := 0x5B
  const RBRACKET: Byte := 0x5D
  const MINUS: Byte := 0x2D
  const PLUS: Byte := 0x2B
  const LETTER_U: Byte := 0x75
  const NULL_TEXT: Bytes := [0x6E, 0x75, 0x6C, 0x6C]
  const TRUE_TEXT: Bytes := [0x74, 0x72, 0x75, 0x65]
  const FALSE_TEXT: Bytes := [0x66, 0x61, 0x6C, 0x73, 0x65]

  predicate IsSpace(b: Byte) { b == 0x20 || b == 0x09 || b == 0x0A || b == 0x0D }

  predicate IsDigit(b: Byte) { 0x30 <= b <= 0x39 }

  /** The bytes parse_number runs over: digits . e E + - */
  predicate IsNumberByte(b: Byte) {
    IsDigit(b) || b == 0x2E || b == 0x65 || b == 0x45 || b == PLUS || b == MINUS
  }

  predicate AllDigits(s: Bytes) { forall i :: 0 <= i < |s| ==> IsDigit(s[i]) }

  // ---------------------------------------------------------------- decimal text

  /** std::to_string of an unsigned value. */
  function Decimal(n: nat): (s: Bytes)
    ensures 0 < |s| && AllDigits(s)
  {
    if n < 10 then [0x30 + n] else Decimal(n / 10) + [0x30 + n % 10]
  }

  function DecimalValue(s: Bytes): nat
    requires AllDigits(s)
  {
    if s == [] then 0 else 10 * DecimalValue(s[..|s| - 1]) + (s[|s| - 1] - 0x30)
  }

  lemma {:induction false} DecimalRoundTrip(n: nat)
    ensures DecimalValue(Decimal(n)) == n
  {
    if n >= 10 {
      DecimalRoundTrip(n / 10);
      assert Decimal(n)[..|Decimal(n)| - 1] == Decimal(n / 10);
    } else {
      assert Decimal(n)[..0] == [];
    }
  }

  lemma DecimalInjective(m: nat, n: nat)
    requires Decimal(m) == Decimal(n)
    ensures m == n
  {
    DecimalRoundTrip(m);
    DecimalRoundTrip(n);
  }

  function IntText(i: int): Bytes {
    if i < 0 then [MINUS] + Decimal(-i) else Decimal(i)
  }

  predicate Signed(s: Bytes) { |s| > 0 && (s[0] == MINUS || s[0] == PLUS) }

  function Unsigned(s: Bytes): Bytes { if Signed(s) then s[1..] else s }

  /** std::stoll on a literal that is an optional sign and digits; None where it throws. */
  function ReadInteger(s: Bytes): Option<Int64>
    requires AllDigits(Unsigned(s))
  {
    if Unsigned(s) == [] then None
    else
      var magnitude: int := DecimalValue(Unsigned(s));
      var value: int := if Signed(s) && s[0] == MINUS then -magnitude else magnitude;
      if -0x8000_0000_0000_0000 <= value <= 0x7FFF_FFFF_FFFF_FFFF then Some(value) else None
  }

  lemma IntTextReads(i: Int64)
    ensures AllDigits(Unsigned(IntText(i))) && ReadInteger(IntText(i)) == Some(i)
  {
    var n: nat := if i < 0 then 0 - i else i;
    DecimalRoundTrip(n);
    assert IsDigit(Decimal(n)[0]);
    assert Unsigned(IntText(i)) == Decimal(n);
  }

  // ---------------------------------------------------------------- UTF-8

  /** append_utf8: the bytes of one code point. */
  function Utf8(c: nat): (s: Bytes)
    requires c < 0x11_0000
    ensures 1 <= |s| <= 4
  {
    if c <= 0x7F then [c]
    else if c <= 0x7FF then [0xC0 + c / 0x40, 0x80 + c % 0x40]
    else if c <= 0xFFFF then [0xE0 + c / 0x1000, 0x80 + c / 0x40 % 0x40, 0x80 + c % 0x40]
    else [0xF0 + c / 0x4_0000, 0x80 + c / 0x1000 % 0x40, 0x80 + c / 0x40 % 0x40, 0x80 + c % 0x40]
  }

  predicate IsHigh(u: nat) { 0xD800 <= u <= 0xDBFF }

  predicate IsLow(u: nat) { 0xDC00 <= u <= 0xDFFF }

  function Combine(high: nat, low: nat): (c: nat)
    requires IsHigh(high) && IsLow(low)
    ensures 0x1_0000 <= c < 0x11_0000
  {
    0x1_0000 + (high - 0xD800) * 0x400 + (low - 0xDC00)
  }

  // ---------------------------------------------------------------- printer

  function HexDigit(n: nat): Byte
    requires n < 16
  {
    if n < 10 then 0x30 + n else 0x61 + (n - 10)
  }

  /** escape, one byte at a time. */
  function EscapeByte(b: Byte): Bytes {
    if b == QUOTE then [BACKSLASH, QUOTE]
    else if b == BACKSLASH then [BACKSLASH, BACKSLASH]
    else if b == 0x08 then [BACKSLASH, 0x62]
    else if b == 0x0C then [BACKSLASH, 0x66]
    else if b == 0x0A then [BACKSLASH, 0x6E]
    else if b == 0x0D then [BACKSLASH, 0x72]
    else if b == 0x09 then [BACKSLASH, 0x74]
    else if b < 0x20 then [BACKSLASH, LETTER_U, 0x30, 0x30, HexDigit(b / 16), HexDigit(b % 16)]
    else [b]
  }

  function Escape(s: Bytes): Bytes {
    if s == [] then [] else EscapeByte(s[0]) + Escape(s[1..])
  }

  function Quoted(s: Bytes): Bytes { [QUOTE] + (Escape(s) + [QUOTE]) }

  function Spaces(n: nat): (s: Bytes)
    ensures |s| == n && forall i :: 0 <= i < n ==> s[i] == 0x20
  {
    seq(n, _ => 0x20)
  }

  /** `depth` times `indent` spaces. */
  function Margin(indent: nat, depth: nat): (s: Bytes)
    ensures forall i :: 0 <= i < |s| ==> s[i] == 0x20
  {
    if depth == 0 then [] else Margin(indent, depth - 1) + Spaces(indent)
  }

  lemma {:induction false} MarginWidth(indent: nat, depth: nat)
    ensures Margin(indent, depth) == Spaces(indent * depth)
  {
    if depth > 0 {
      MarginWidth(indent, depth - 1);
      assert indent * depth == indent * (depth - 1) + indent;
    }
  }

  /** write_indent */
  function Indent(indent: int, depth: nat): (s: Bytes)
    ensures forall i :: 0 <= i < |s| ==> IsSpace(s[i])
  {
    if indent < 0 then [] else [0x0A] + Margin(indent, depth)
  }

  function DoubleBytes(c: DoubleText, d: Double): Bytes {
    match d
    case NotFinite => NULL_TEXT
    case Finite(value) => c.render(value)
  }

  /** serialize_into: the text of `v` printed at nesting depth `depth`. */
  function Text(c: DoubleText, v: Value, indent: int, depth: nat): Bytes
    decreases v, 0
  {
    match v
    case Null => NULL_TEXT
    case Bool(b) => if b then TRUE_TEXT else FALSE_TEXT
    case Int(i) => IntText(i)
    case Number(d) => DoubleBytes(c, d)
    case String(s) => Quoted(s)
    case Array(items) =>
      if items == [] then [LBRACKET, RBRACKET]
      else [LBRACKET] + ItemsText(c, items, indent, depth, true)
    case Object(members) =>
      if members == [] then [LBRACE, RBRACE]
      else [LBRACE] + MembersText(c, members, indent, depth, true)
  }

  /** What the array loop still has to print when `items` are left. */
  function ItemsText(c: DoubleText, items: seq<Value>, indent: int, depth: nat, first: bool): Bytes
    decreases items, 1
  {
    if items == [] then Indent(indent, depth) + [RBRACKET]
    else
      (if first then [] else [COMMA])
      + (Indent(indent, depth + 1)
         + (Text(c, items[0], indent, depth + 1) + ItemsText(c, items[1..], indent, depth, false)))
  }

  function KeySeparator(indent: int): Bytes { if indent < 0 then [COLON] else [COLON, 0x20] }

  function MembersText(c: DoubleText, members: seq<Member>, indent: int, depth: nat, first: bool): Bytes
    decreases members, 1
  {
    if members == [] then Indent(indent, depth) + [RBRACE]
    else
      (if first then [] else [COMMA])
      + (Indent(indent, depth + 1)
         + (Quoted(members[0].key)
            + (KeySeparator(indent)
               + (Text(c, members[0].value, indent, depth + 1)
                  + MembersText(c, members[1..], indent, depth, false)))))
  }

  // ---------------------------------------------------------------- parser

  datatype ErrorKind =
    | EmptyDocument | TrailingCharacters | DepthExceeded | UnexpectedEnd | InvalidLiteral
    | ExpectedKey | ExpectedColon | ExpectedCommaOrBrace | ExpectedCommaOrBracket
    | UnterminatedEscape | InvalidEscape | ControlCharacter | UnterminatedString
    | TruncatedUnicode | InvalidHexDigit | InvalidNumber | NumberOutOfRange

  /** The message and the byte offset that `fail` puts in it. */
  datatype ParseError = ParseError(kind: ErrorKind, offset: nat)

  /** What a parsing step leaves behind: a value and the next position, or an error. */
  datatype Step<+T> = Done(value: T, pos: nat) | Failed(error: ParseError)

  function Fail<T>(kind: ErrorKind, offset: nat): Step<T> { Failed(ParseError(kind, offset)) }

  function SkipSpace(t: Bytes, p: nat): (q: nat)
    requires p <= |t|
    ensures p <= q <= |t|
    ensures q < |t| ==> !IsSpace(t[q])
    decreases |t| - p
  {
    if p < |t| && IsSpace(t[p]) then SkipSpace(t, p + 1) else p
  }

  predicate Sees(t: Bytes, p: nat, b: Byte) { p < |t| && t[p] == b }

  function HexValue(b: Byte): Option<nat> {
    if 0x30 <= b <= 0x39 then Some(b - 0x30)
    else if 0x61 <= b <= 0x66 then Some(b - 0x61 + 10)
    else if 0x41 <= b <= 0x46 then Some(b - 0x41 + 10)
    else None
  }

  /** The rest of parse_hex4's loop: `left` digits to go, `value` so far. */
  function HexDigits(t: Bytes, p: nat, left: nat, value: nat): (r: Step<nat>)
    requires p + left <= |t|
    ensures r.Done? ==> r.pos == p + left
    decreases left
  {
    if left == 0 then Done(value, p)
    else if HexValue(t[p]).None? then Fail(InvalidHexDigit, p + 1)
    else HexDigits(t, p + 1, left - 1, value * 16 + HexValue(t[p]).value)
  }

  function Hex4(t: Bytes, p: nat): (r: Step<nat>)
    ensures r.Done? ==> r.pos == p + 4 <= |t| && r.value < 0x1_0000
  {
    if p + 4 > |t| then Fail(TruncatedUnicode, p)
    else
      Hex4Bound(t, p);
      HexDigits(t, p, 4, 0)
  }

  lemma Hex4Bound(t: Bytes, p: nat)
    requires p + 4 <= |t|
    ensures HexDigits(t, p, 4, 0).Done? ==> HexDigits(t, p, 4, 0).value < 0x1_0000
  {
    HexBound(t, p, 4, 0, 1);
  }

  lemma {:induction false} HexBound(t: Bytes, p: nat, left: nat, value: nat, bound: nat)
    requires p + left <= |t| && left <= 4 && value < bound
    ensures HexDigits(t, p, left, value).Done? ==>
              HexDigits(t, p, left, value).value < bound * Power16(left)
    decreases left
  {
    if left > 0 && HexValue(t[p]).Some? {
      HexBound(t, p + 1, left - 1, value * 16 + HexValue(t[p]).value, bound * 16);
      assert (bound * 16) * Power16(left - 1) == bound * Power16(left);
    }
  }

  function Power16(n: nat): nat
    requires n <= 4
  {
    if n == 0 then 1 else if n == 1 then 16 else if n == 2 then 256 else if n == 3 then 4096 else 65536
  }

  /** A \u escape, `p` just after the u: a surrogate pair is combined, anything else stands alone. */
  function UnicodeEscape(t: Bytes, p: nat): (r: Step<Bytes>)
    ensures r.Done? ==> p < r.pos <= |t|
  {
    match Hex4(t, p)
    case Failed(e) => Failed(e)
    case Done(code, q) =>
      if IsHigh(code) && q + 1 < |t| && t[q] == BACKSLASH && t[q + 1] == LETTER_U
         && Hex4(t, q + 2).Done? && IsLow(Hex4(t, q + 2).value)
      then Done(Utf8(Combine(code, Hex4(t, q + 2).value)), q + 6)
      else Done(Utf8(code), q)
  }

  /** An escape sequence, `p` just after the backslash. */
  function EscapeSequence(t: Bytes, p: nat): (r: Step<Bytes>)
    ensures r.Done? ==> p < r.pos <= |t|
  {
    if p >= |t| then Fail(UnterminatedEscape, p)
    else
      var e := t[p];
      if e == QUOTE || e == BACKSLASH || e == 0x2F then Done([e], p + 1)
      else if e == 0x62 then Done([0x08], p + 1)
      else if e == 0x66 then Done([0x0C], p + 1)
      else if e == 0x6E then Done([0x0A], p + 1)
      else if e == 0x72 then Done([0x0D], p + 1)
      else if e == 0x74 then Done([0x09], p + 1)
      else if e == LETTER_U then UnicodeEscape(t, p + 1)
      else Fail(InvalidEscape, p + 1)
  }

  /** The rest of parse_string's loop with `out` collected so far. */
  function StringTail(t: Bytes, p: nat, out: Bytes): (r: Step<Bytes>)
    requires p <= |t|
    ensures r.Done? ==> p < r.pos <= |t|
    decreases |t| - p
  {
    if p == |t| then Fail(UnterminatedString, p)
    else if t[p] == QUOTE then Done(out, p + 1)
    else if t[p] == BACKSLASH then
      match EscapeSequence(t, p + 1)
      case Failed(e) => Failed(e)
      case Done(bytes, q) => StringTail(t, q, out + bytes)
    else if t[p] < 0x20 then Fail(ControlCharacter, p)
    else StringTail(t, p + 1, out + [t[p]])
  }

  /** The end of the run of number bytes at `p`. */
  function NumberEnd(t: Bytes, p: nat): (q: nat)
    requires p <= |t|
    ensures p <= q <= |t|
    ensures forall i :: p <= i < q ==> IsNumberByte(t[i])
    ensures q < |t| ==> !IsNumberByte(t[q])
    decreases |t| - p
  {
    if p < |t| && IsNumberByte(t[p]) then NumberEnd(t, p + 1) else p
  }

  /** What parse_number makes of a literal it has delimited. */
  function ReadLiteral(c: DoubleText, s: Bytes): Option<Value> {
    if AllDigits(Unsigned(s)) then
      match ReadInteger(s)
      case Some(i) => Some(Int(i))
      case None => None
    else
      match c.read(s)
      case Some(d) => Some(Number(Finite(d)))
      case None => None
  }

  function SignEnd(t: Bytes, p: nat): nat
    requires p <= |t|
  {
    if Sees(t, p, MINUS) || Sees(t, p, PLUS) then p + 1 else p
  }

  function ParseNumber(c: DoubleText, t: Bytes, p: nat): (r: Step<Value>)
    requires p <= |t|
    ensures r.Done? ==> p < r.pos <= |t|
  {
    var end := NumberEnd(t, SignEnd(t, p));
    if end == p then Fail(InvalidNumber, p)
    else
      match ReadLiteral(c, t[p..end])
      case Some(v) => Done(v, end)
      case None => Fail(NumberOutOfRange, end)
  }

  function ParseLiteral(t: Bytes, p: nat, word: Bytes, v: Value): (r: Step<Value>)
    requires |word| > 0
    ensures r.Done? ==> p < r.pos <= |t|
  {
    if At(t, p, word) then Done(v, p + |word|) else Fail(InvalidLiteral, p)
  }

  function ParseValue(c: DoubleText, t: Bytes, p: nat, depth: nat): (r: Step<Value>)
    requires p <= |t|
    ensures r.Done? ==> p < r.pos <= |t|
    decreases |t| - p, 0
  {
    if depth > MAX_DEPTH then Fail(DepthExceeded, p)
    else
      var q := SkipSpace(t, p);
      if q >= |t| then Fail(UnexpectedEnd, q)
      else if t[q] == LBRACE then
        var inner := SkipSpace(t, q + 1);
        if Sees(t, inner, RBRACE) then Done(Object([]), inner + 1)
        else ParseMembers(c, t, inner, depth, [])
      else if t[q] == LBRACKET then
        var inner := SkipSpace(t, q + 1);
        if Sees(t, inner, RBRACKET) then Done(Array([]), inner + 1)
        else ParseItems(c, t, inner, depth, [])
      else if t[q] == QUOTE then
        match StringTail(t, q + 1, [])
        case Done(s, e) => Done(String(s), e)
        case Failed(e) => Failed(e)
      else if t[q] == 0x74 then ParseLiteral(t, q, TRUE_TEXT, Bool(true))
      else if t[q] == 0x66 then ParseLiteral(t, q, FALSE_TEXT, Bool(false))
      else if t[q] == 0x6E then ParseLiteral(t, q, NULL_TEXT, Null)
      else ParseNumber(c, t, q)
  }

  /** The rest of parse_array's loop with `items` collected so far. */
  function ParseItems(c: DoubleText, t: Bytes, p: nat, depth: nat, items: seq<Value>): (r: Step<Value>)
    requires p <= |t|
    ensures r.Done? ==> p < r.pos <= |t|
    decreases |t| - p, 1
  {
    match ParseValue(c, t, p, depth + 1)
    case Failed(e) => Failed(e)
    case Done(v, e) =>
      var q := SkipSpace(t, e);
      if Sees(t, q, COMMA) then ParseItems(c, t, q + 1, depth, items + [v])
      else if Sees(t, q, RBRACKET) then Done(Array(items + [v]), q + 1)
      else Fail(ExpectedCommaOrBracket, q)
  }

  /** A member's key and the colon after it. */
  function ParseKey(t: Bytes, p: nat): (r: Step<Bytes>)
    requires p <= |t|
    ensures r.Done? ==> p < r.pos <= |t|
  {
    var k := SkipSpace(t, p);
    if !Sees(t, k, QUOTE) then Fail(ExpectedKey, k)
    else
      match StringTail(t, k + 1, [])
      case Failed(e) => Failed(e)
      case Done(key, e) =>
        var colon := SkipSpace(t, e);
        if Sees(t, colon, COLON) then Done(key, colon + 1) else Fail(ExpectedColon, colon)
  }

  /** The rest of parse_object's loop with `members` collected so far. */
  function ParseMembers(c: DoubleText, t: Bytes, p: nat, depth: nat, members: seq<Member>): (r: Step<Value>)
    requires p <= |t|
    ensures r.Done? ==> p < r.pos <= |t|
    decreases |t| - p, 1
  {
    match ParseKey(t, p)
    case Failed(e) => Failed(e)
    case Done(key, b) =>
      match ParseValue(c, t, b, depth + 1)
      case Failed(e) => Failed(e)
      case Done(v, e) =>
        var q := SkipSpace(t, e);
        if Sees(t, q, COMMA) then ParseMembers(c, t, q + 1, depth, members + [Member(key, v)])
        else if Sees(t, q, RBRACE) then Done(Object(members + [Member(key, v)]), q + 1)
        else Fail(ExpectedCommaOrBrace, q)
  }

  predicate StartsWithMark(text: Bytes) { |text| >= 3 && text[..3] == [0xEF, 0xBB, 0xBF] }

  /** parse: a byte order mark is dropped and offsets are counted after it. */
  function Parse(c: DoubleText, text: Bytes): Result<Value, ParseError> {
    if text == [] then Err(ParseError(EmptyDocument, 0))
    else
      var t := if StartsWithMark(text) then text[3..] else text;
      match ParseValue(c, t, SkipSpace(t, 0), 0)
      case Failed(e) => Err(e)
      case Done(v, e) =>
        var q := SkipSpace(t, e);
        if q != |t| then Err(ParseError(TrailingCharacters, q)) else Ok(v)
  }

  /** serialize */
  function Serialize(c: DoubleText, v: Value, indent: int): Bytes { Text(c, v, indent, 0) }
}
