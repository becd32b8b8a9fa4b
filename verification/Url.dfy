/** URL parsing and printing (src/privacy/sanitizer.cpp:35-131). */
module Url {
  import opened Base

  datatype Pair = Pair(key: Bytes, value: Bytes)

  datatype ParsedUrl = ParsedUrl(
    scheme: Bytes, userinfo: Bytes, host: Bytes, port: Bytes, path: Bytes, query: seq<Pair>, fragment: Bytes)

  datatype UrlError = EmptyUrl | NoScheme

  const COLON: Byte := 0x3A
  const SLASH: Byte := 0x2F
  const QUESTION: Byte := 0x3F
  const HASH: Byte := 0x23
  const AMPERSAND: Byte := 0x26
  const EQUALS: Byte := 0x3D
  const AT_SIGN: Byte := 0x40
  const CLOSING_BRACKET: Byte := 0x5D
  const SCHEME_MARK: Bytes := [0x3A, 0x2F, 0x2F]
  const EMPTY_PAIR := Pair([], [])

  // ---------------------------------------------------------------- searching

  /** find; the length of `s` stands for npos. */
  function IndexOf(s: Bytes, b: Byte): (i: nat)
    ensures i <= |s| && b !in s[..i]
    ensures i < |s| ==> s[i] == b
  {
    if s == [] || s[0] == b then 0
    else
      var i := 1 + IndexOf(s[1..], b);
      assert s[..i] == [s[0]] + s[1..][..i - 1];
      i
  }

  /** rfind */
  function LastIndexOf(s: Bytes, b: Byte): (i: Option<nat>)
    ensures i.None? ==> b !in s
    ensures i.Some? ==> i.value < |s| && s[i.value] == b && b !in s[i.value + 1..]
  {
    if s == [] then None
    else if s[|s| - 1] == b then Some(|s| - 1)
    else
      var i := LastIndexOf(s[..|s| - 1], b);
      assert s == s[..|s| - 1] + [s[|s| - 1]];
      assert i.Some? ==> s[i.value + 1..] == s[..|s| - 1][i.value + 1..] + [s[|s| - 1]];
      i
  }

  predicate MarkAt(s: Bytes, i: nat) {
    i + 3 <= |s| && s[i] == COLON && s[i + 1] == SLASH && s[i + 2] == SLASH
  }

  /** find("://") */
  function FindMark(s: Bytes): (i: nat)
    ensures i <= |s| && (i < |s| ==> MarkAt(s, i))
    ensures forall j: nat :: j < i ==> !MarkAt(s, j)
  {
    if s == [] || MarkAt(s, 0) then 0
    else
      var i := 1 + FindMark(s[1..]);
      assert forall j: nat :: 0 < j < i ==> MarkAt(s, j) == MarkAt(s[1..], j - 1);
      i
  }

  predicate EndsAuthority(b: Byte) { b == SLASH || b == QUESTION || b == HASH }

  predicate IsAuthorityText(s: Bytes) { forall i :: 0 <= i < |s| ==> !EndsAuthority(s[i]) }

  /** find_first_of("/?#") */
  function AuthorityEnd(s: Bytes): (i: nat)
    ensures i <= |s| && forall j :: 0 <= j < i ==> !EndsAuthority(s[j])
    ensures i < |s| ==> EndsAuthority(s[i])
  {
    if s == [] || EndsAuthority(s[0]) then 0
    else
      1 + AuthorityEnd(s[1..])
  }

  // ---------------------------------------------------------------- parsing

  datatype Authority = Authority(userinfo: Bytes, host: Bytes, port: Bytes)

  datatype Tail = Tail(path: Bytes, query: seq<Pair>, fragment: Bytes)

  function ParseHost(s: Bytes): Authority {
    var colon := LastIndexOf(s, COLON);
    if colon.Some? && CLOSING_BRACKET !in s
    then Authority([], Lower(s[..colon.value]), s[colon.value + 1..])
    else Authority([], Lower(s), [])
  }

  function ParseAuthority(s: Bytes): Authority {
    match LastIndexOf(s, AT_SIGN)
    case Some(at) => ParseHost(s[at + 1..]).(userinfo := s[..at])
    case None => ParseHost(s)
  }

  function ParsePair(s: Bytes): Pair {
    var equals := IndexOf(s, EQUALS);
    if equals == |s| then Pair(s, []) else Pair(s[..equals], s[equals + 1..])
  }

  function ParseQuery(s: Bytes): seq<Pair>
    decreases |s|
  {
    if s == [] then []
    else
      var amp := IndexOf(s, AMPERSAND);
      [ParsePair(s[..amp])] + (if amp == |s| then [] else ParseQuery(s[amp + 1..]))
  }

  function ParseTail(s: Bytes): Tail {
    var hash := IndexOf(s, HASH);
    var fragment := if hash == |s| then [] else s[hash + 1..];
    var rest := s[..hash];
    var question := IndexOf(rest, QUESTION);
    Tail(rest[..question], if question == |rest| then [] else ParseQuery(rest[question + 1..]), fragment)
  }

  /** What follows scheme:// */
  function ParseHierarchical(scheme: Bytes, s: Bytes): ParsedUrl {
    var end := AuthorityEnd(s);
    var a, t := ParseAuthority(s[..end]), ParseTail(s[end..]);
    ParsedUrl(scheme, a.userinfo, a.host, a.port, t.path, t.query, t.fragment)
  }

  /** The text holds "://". */
  predicate Hierarchical(url: Bytes) { FindMark(url) < |url| }

  function Parse(url: Bytes): Result<ParsedUrl, UrlError> {
    if url == [] then Err(EmptyUrl)
    else
      var mark := FindMark(url);
      if mark < |url| then Ok(ParseHierarchical(Lower(url[..mark]), url[mark + 3..]))
      else
        var colon := IndexOf(url, COLON);
        if colon < |url| && SLASH !in url[..colon]
        then Ok(ParsedUrl(Lower(url[..colon]), [], [], [], url[colon + 1..], [], []))
        else Err(NoScheme)
  }

  // ---------------------------------------------------------------- printing

  function PrintPair(p: Pair): Bytes { p.key + (if p.value == [] then [] else [EQUALS] + p.value) }

  function PrintPairs(query: seq<Pair>): Bytes {
    if query == [] then []
    else if |query| == 1 then PrintPair(query[0])
    else PrintPair(query[0]) + ([AMPERSAND] + PrintPairs(query[1..]))
  }

  function PrintQuery(query: seq<Pair>): Bytes { if query == [] then [] else [QUESTION] + PrintPairs(query) }

  function PrintPort(port: Bytes): Bytes { if port == [] then [] else [COLON] + port }

  function PrintAuthority(u: ParsedUrl): Bytes {
    (if u.userinfo == [] then [] else u.userinfo + [AT_SIGN]) + (u.host + PrintPort(u.port))
  }

  function PrintFragment(fragment: Bytes): Bytes { if fragment == [] then [] else [HASH] + fragment }

  function PrintTail(u: ParsedUrl): Bytes { u.path + (PrintQuery(u.query) + PrintFragment(u.fragment)) }

  /** ParsedUrl::to_string */
  function Print(u: ParsedUrl): Bytes {
    (if u.scheme == [] then [] else u.scheme + SCHEME_MARK) + (PrintAuthority(u) + PrintTail(u))
  }

  // ---------------------------------------------------------------- what parsing guarantees

  predicate PairShaped(p: Pair) {
    && AMPERSAND !in p.key && EQUALS !in p.key && HASH !in p.key
    && AMPERSAND !in p.value && HASH !in p.value
  }

  predicate AuthorityShaped(a: Authority) {
    && Lower(a.host) == a.host
    && AT_SIGN !in a.host && AT_SIGN !in a.port && COLON !in a.port
    && IsAuthorityText(a.userinfo) && IsAuthorityText(a.host) && IsAuthorityText(a.port)
    && (a.port != [] ==> CLOSING_BRACKET !in a.host && CLOSING_BRACKET !in a.port)
  }

  function AuthorityOf(u: ParsedUrl): Authority { Authority(u.userinfo, u.host, u.port) }

  predicate SchemeShaped(scheme: Bytes) {
    Lower(scheme) == scheme && FindMark(scheme + SCHEME_MARK) == |scheme|
  }

  predicate QueryShaped(query: seq<Pair>) { forall p <- query :: PairShaped(p) }

  predicate Shaped(u: ParsedUrl) {
    SchemeShaped(u.scheme) && AuthorityShaped(AuthorityOf(u)) && QueryShaped(u.query)
  }

  lemma LowerIdempotent(s: Bytes)
    ensures Lower(Lower(s)) == Lower(s)
  {
  }

  lemma LowerKeeps(s: Bytes, b: Byte)
    requires !(65 <= b <= 90) && !(97 <= b <= 122)
    ensures b in Lower(s) <==> b in s
    ensures |Lower(s)| == |s|
  {
    forall i | 0 <= i < |s|
      ensures Lower(s)[i] == b <==> s[i] == b
    {
    }
    if b in s {
      var i :| 0 <= i < |s| && s[i] == b;
      assert Lower(s)[i] == b;
    }
  }

  lemma LowerKeepsText(s: Bytes)
    requires IsAuthorityText(s)
    ensures IsAuthorityText(Lower(s))
  {
  }

  lemma PartOfText(s: Bytes, i: nat, j: nat)
    requires IsAuthorityText(s) && i <= j <= |s|
    ensures IsAuthorityText(s[i..j])
  {
  }

  lemma PartLacks(s: Bytes, i: nat, j: nat, b: Byte)
    requires b !in s && i <= j <= |s|
    ensures b !in s[i..j]
  {
  }

  lemma HostShaped(s: Bytes)
    requires IsAuthorityText(s) && AT_SIGN !in s
    ensures AuthorityShaped(ParseHost(s))
  {
    var colon := LastIndexOf(s, COLON);
    if colon.Some? && CLOSING_BRACKET !in s {
      var c := colon.value;
      assert s[..c] == s[0..c] && s[c + 1..] == s[c + 1..|s|];
      PartOfText(s, 0, c);
      PartOfText(s, c + 1, |s|);
      PartLacks(s, 0, c, AT_SIGN);
      PartLacks(s, 0, c, CLOSING_BRACKET);
      PartLacks(s, c + 1, |s|, AT_SIGN);
      PartLacks(s, c + 1, |s|, CLOSING_BRACKET);
      LowerKeeps(s[..c], AT_SIGN);
      LowerKeeps(s[..c], CLOSING_BRACKET);
      LowerKeepsText(s[..c]);
      LowerIdempotent(s[..c]);
    } else {
      LowerKeeps(s, AT_SIGN);
      LowerKeepsText(s);
      LowerIdempotent(s);
    }
  }

  lemma AuthorityIsShaped(s: Bytes)
    requires IsAuthorityText(s)
    ensures AuthorityShaped(ParseAuthority(s))
  {
    hide ParseHost;
    match LastIndexOf(s, AT_SIGN)
    case Some(at) =>
      assert s[at + 1..] == s[at + 1..|s|] && s[..at] == s[0..at];
      PartOfText(s, at + 1, |s|);
      PartOfText(s, 0, at);
      HostShaped(s[at + 1..]);
    case None =>
      HostShaped(s);
      assert ParseHost(s).userinfo == [] by {
        HostHasNoUserinfo(s);
      }
  }

  lemma HostHasNoUserinfo(s: Bytes)
    ensures ParseHost(s).userinfo == []
  {
  }

  lemma PairIsShaped(s: Bytes)
    requires AMPERSAND !in s && HASH !in s
    ensures PairShaped(ParsePair(s))
  {
    var e := IndexOf(s, EQUALS);
    assert s[..e] == s[0..e];
    PartLacks(s, 0, e, AMPERSAND);
    PartLacks(s, 0, e, HASH);
    if e < |s| {
      assert s[e + 1..] == s[e + 1..|s|];
      PartLacks(s, e + 1, |s|, AMPERSAND);
      PartLacks(s, e + 1, |s|, HASH);
    } else {
      assert s[..e] == s;
    }
  }

  lemma {:induction false} QueryIsShaped(s: Bytes)
    requires HASH !in s
    ensures QueryShaped(ParseQuery(s))
    decreases |s|
  {
    hide PairShaped, ParsePair, IndexOf;
    if s != [] {
      var amp := IndexOf(s, AMPERSAND);
      assert s[..amp] == s[0..amp];
      PartLacks(s, 0, amp, HASH);
      PairIsShaped(s[..amp]);
      if amp < |s| {
        assert s[amp + 1..] == s[amp + 1..|s|];
        PartLacks(s, amp + 1, |s|, HASH);
        QueryIsShaped(s[amp + 1..]);
      }
    }
  }

  predicate PathPlain(path: Bytes) {
    (path != [] ==> path[0] == SLASH) && QUESTION !in path && HASH !in path
  }

  lemma TailIsShaped(s: Bytes)
    requires s != [] ==> EndsAuthority(s[0])
    ensures QueryShaped(ParseTail(s).query) && PathPlain(ParseTail(s).path)
  {
    hide ParseQuery, QueryShaped;
    var hash := IndexOf(s, HASH);
    var rest := s[..hash];
    var question := IndexOf(rest, QUESTION);
    var path := rest[..question];
    assert path == rest[0..question];
    PartLacks(rest, 0, question, HASH);
    if path != [] {
      assert path[0] == s[0];
      assert path[0] in path && path[0] in rest;
    }
    if question < |rest| {
      assert rest[question + 1..] == rest[question + 1..|rest|];
      PartLacks(rest, question + 1, |rest|, HASH);
      QueryIsShaped(rest[question + 1..]);
    } else {
      assert QueryShaped([]) by {
        QueryIsShaped([]);
        EmptyQuery();
      }
    }
  }

  lemma EmptyQuery()
    ensures ParseQuery([]) == []
  {
  }

  lemma MarkIs(s: Bytes, m: nat)
    requires MarkAt(s, m) && forall j: nat :: j < m ==> !MarkAt(s, j)
    ensures FindMark(s) == m
  {
    var i := FindMark(s);
    assert i <= m;
  }

  /** The lower-cased text before the first mark still has its mark there. */
  lemma SchemeOfMark(url: Bytes)
    requires Hierarchical(url)
    ensures SchemeShaped(Lower(url[..FindMark(url)]))
  {
    var m := FindMark(url);
    var t := Lower(url[..m]) + SCHEME_MARK;
    assert forall i :: 0 <= i < m ==> (t[i] == COLON <==> url[i] == COLON) && (t[i] == SLASH <==> url[i] == SLASH);
    forall j: nat | j < m
      ensures !MarkAt(t, j)
    {
      assert !MarkAt(url, j);
    }
    MarkIs(t, m);
    LowerIdempotent(url[..m]);
  }

  lemma SchemeOfColon(scheme: Bytes)
    requires COLON !in scheme && Lower(scheme) == scheme
    ensures SchemeShaped(scheme)
  {
    var t := scheme + SCHEME_MARK;
    forall j: nat | j < |scheme|
      ensures !MarkAt(t, j)
    {
      assert t[j] in scheme;
    }
    MarkIs(t, |scheme|);
  }

  lemma HierarchicalIsShaped(url: Bytes)
    requires Hierarchical(url)
    ensures Parse(url).Ok? && Shaped(Parse(url).value) && PathPlain(Parse(url).value.path)
  {
    hide ParseAuthority, ParseTail, AuthorityShaped, QueryShaped, PathPlain, SchemeShaped;
    var m := FindMark(url);
    SchemeOfMark(url);
    var s := url[m + 3..];
    var end := AuthorityEnd(s);
    AuthorityIsShaped(s[..end]);
    assert s[end..] != [] ==> s[end..][0] == s[end];
    TailIsShaped(s[end..]);
    var u := Parse(url).value;
    assert AuthorityOf(u) == ParseAuthority(s[..end]);
  }

  /** Every successful parse is shaped. */
  lemma ParseIsShaped(url: Bytes)
    requires Parse(url).Ok?
    ensures Shaped(Parse(url).value)
  {
    if Hierarchical(url) {
      hide *;
      HierarchicalIsShaped(url);
    } else {
      hide SchemeShaped;
      var colon := IndexOf(url, COLON);
      LowerKeeps(url[..colon], COLON);
      LowerIdempotent(url[..colon]);
      SchemeOfColon(Lower(url[..colon]));
    }
  }

  // ---------------------------------------------------------------- printing, then parsing

  lemma IndexIs(s: Bytes, b: Byte, i: nat)
    requires i <= |s| && b !in s[..i] && (i < |s| ==> s[i] == b)
    ensures IndexOf(s, b) == i
  {
    var k := IndexOf(s, b);
  }

  lemma LastIndexIs(s: Bytes, b: Byte, i: nat)
    requires i < |s| && s[i] == b && b !in s[i + 1..]
    ensures LastIndexOf(s, b) == Some(i)
  {
    assert s[i] in s;
    var k := LastIndexOf(s, b).value;
  }

  lemma LastIndexNone(s: Bytes, b: Byte)
    requires b !in s
    ensures LastIndexOf(s, b) == None
  {
  }

  lemma PairParses(p: Pair)
    requires PairShaped(p)
    ensures ParsePair(PrintPair(p)) == p
    ensures AMPERSAND !in PrintPair(p) && HASH !in PrintPair(p)
    ensures PrintPair(p) == [] <==> p == EMPTY_PAIR
  {
    var s := PrintPair(p);
    assert s[..|p.key|] == p.key;
    IndexIs(s, EQUALS, |p.key|);
    if p.value != [] {
      assert s[|p.key| + 1..] == p.value;
    }
  }

  /** A last pair without key and value leaves no text behind. */
  function Trim(query: seq<Pair>): seq<Pair> {
    if query != [] && query[|query| - 1] == EMPTY_PAIR then query[..|query| - 1] else query
  }

  lemma TrimTail(query: seq<Pair>)
    requires |query| >= 2
    ensures Trim(query) == [query[0]] + Trim(query[1..])
  {
    assert query[1..][|query| - 2] == query[|query| - 1];
    assert query == [query[0]] + query[1..];
    assert query[..|query| - 1] == [query[0]] + query[1..][..|query| - 2];
  }

  lemma FirstPair(text: Bytes, rest: Bytes)
    requires AMPERSAND !in text
    ensures ParseQuery(text + ([AMPERSAND] + rest)) == [ParsePair(text)] + ParseQuery(rest)
  {
    hide ParsePair;
    var s := text + ([AMPERSAND] + rest);
    assert s[..|text|] == text;
    IndexIs(s, AMPERSAND, |text|);
    assert s[|text| + 1..] == rest;
  }

  lemma OnlyPair(text: Bytes)
    requires AMPERSAND !in text && text != []
    ensures ParseQuery(text) == [ParsePair(text)]
  {
    hide ParsePair;
    assert text[..|text|] == text;
    IndexIs(text, AMPERSAND, |text|);
  }

  lemma {:induction false} QueryParses(query: seq<Pair>)
    requires QueryShaped(query)
    ensures ParseQuery(PrintPairs(query)) == Trim(query)
    ensures HASH !in PrintPairs(query)
  {
    if query != [] {
      hide PairShaped, ParsePair, PrintPair, Trim;
      assert query[0] in query;
      PairParses(query[0]);
      if |query| == 1 {
        LastPairParses(query[0]);
        assert query == [query[0]];
      } else {
        QueryParses(query[1..]);
        FirstPair(PrintPair(query[0]), PrintPairs(query[1..]));
        TrimTail(query);
      }
    }
  }

  lemma LastPairParses(p: Pair)
    requires PairShaped(p)
    ensures ParseQuery(PrintPair(p)) == Trim([p])
  {
    hide PairShaped, ParsePair, PrintPair;
    PairParses(p);
    if p != EMPTY_PAIR {
      OnlyPair(PrintPair(p));
    } else {
      assert [p][..0] == [];
    }
  }

  /** `find` stops at what follows a text without the byte. */
  lemma IndexAfter(front: Bytes, b: Byte, rest: Bytes)
    requires b !in front && (rest != [] ==> rest[0] == b)
    ensures var s := front + rest;
            IndexOf(s, b) == |front| && s[..|front|] == front && (rest != [] ==> s[|front| + 1..] == rest[1..])
  {
    var s := front + rest;
    assert s[..|front|] == front;
    assert rest != [] ==> s[|front|] == rest[0];
    IndexIs(s, b, |front|);
  }

  lemma FragmentParses(front: Bytes, fragment: Bytes)
    requires HASH !in front
    ensures var s := front + PrintFragment(fragment);
            && IndexOf(s, HASH) == |front| && s[..|front|] == front
            && (if |front| == |s| then [] else s[|front| + 1..]) == fragment
  {
    hide IndexOf;
    IndexAfter(front, HASH, PrintFragment(fragment));
    assert fragment != [] ==> PrintFragment(fragment)[1..] == fragment;
  }

  lemma QueryHalfParses(path: Bytes, query: seq<Pair>)
    requires QueryShaped(query) && QUESTION !in path
    ensures var front := path + PrintQuery(query);
            && IndexOf(front, QUESTION) == |path| && front[..|path|] == path
            && (if |path| == |front| then [] else ParseQuery(front[|path| + 1..])) == Trim(query)
  {
    QueryParses(query);
    TrimNothing();
    hide QueryShaped, PrintPairs, ParseQuery, Trim, IndexOf;
    IndexAfter(path, QUESTION, PrintQuery(query));
    assert query != [] ==> PrintQuery(query)[1..] == PrintPairs(query);
  }

  lemma FrontLacksHash(path: Bytes, query: seq<Pair>)
    requires QueryShaped(query) && HASH !in path
    ensures HASH !in path + PrintQuery(query)
  {
    hide QueryShaped, PrintPairs;
    QueryParses(query);
  }

  lemma TailEndsAuthority(u: ParsedUrl)
    requires PathPlain(u.path)
    ensures PrintTail(u) != [] ==> EndsAuthority(PrintTail(u)[0])
  {
    hide PrintPairs;
  }

  lemma TailParses(u: ParsedUrl)
    requires QueryShaped(u.query) && PathPlain(u.path)
    ensures ParseTail(PrintTail(u)) == Tail(u.path, Trim(u.query), u.fragment)
    ensures PrintTail(u) != [] ==> EndsAuthority(PrintTail(u)[0])
  {
    hide *;
    TailEndsAuthority(u);
    PrintTailIs(u);
    PathLacks(u.path);
    FrontLacksHash(u.path, u.query);
    var front := u.path + PrintQuery(u.query);
    FragmentParses(front, u.fragment);
    QueryHalfParses(u.path, u.query);
    TailIs(PrintTail(u), front, u.path, Trim(u.query), u.fragment);
  }

  lemma PathLacks(path: Bytes)
    requires PathPlain(path)
    ensures QUESTION !in path && HASH !in path
  {
  }

  lemma PrintTailIs(u: ParsedUrl)
    ensures PrintTail(u) == u.path + PrintQuery(u.query) + PrintFragment(u.fragment)
  {
  }

  /** parse_url's cuts at the hash and at the question mark, put together. */
  lemma TailIs(s: Bytes, front: Bytes, path: Bytes, query: seq<Pair>, fragment: Bytes)
    requires IndexOf(s, HASH) == |front| <= |s| && s[..|front|] == front
    requires (if |front| == |s| then [] else s[|front| + 1..]) == fragment
    requires IndexOf(front, QUESTION) == |path| <= |front| && front[..|path|] == path
    requires (if |path| == |front| then [] else ParseQuery(front[|path| + 1..])) == query
    ensures ParseTail(s) == Tail(path, query, fragment)
  {
    hide IndexOf, ParseQuery;
  }

  lemma TrimNothing()
    ensures Trim([]) == []
  {
  }

  predicate ColonKept(u: ParsedUrl) {
    u.port == [] ==> COLON !in u.host || CLOSING_BRACKET in u.host
  }

  lemma HostParses(host: Bytes, port: Bytes)
    requires AuthorityShaped(Authority([], host, port))
    requires port == [] ==> COLON !in host || CLOSING_BRACKET in host
    ensures ParseHost(host + PrintPort(port)) == Authority([], host, port)
  {
    hide IsAuthorityText, LastIndexOf;
    var s := host + PrintPort(port);
    if port == [] {
      assert s == host;
    } else {
      assert s[|host| + 1..] == port;
      LastIndexIs(s, COLON, |host|);
      assert s[..|host|] == host;
      assert CLOSING_BRACKET !in s;
    }
  }

  lemma TextJoins(a: Bytes, b: Byte, c: Bytes)
    requires IsAuthorityText(a) && IsAuthorityText(c) && !EndsAuthority(b)
    ensures IsAuthorityText(a + [b] + c) && IsAuthorityText(a + [])
  {
  }

  lemma AuthorityIsText(u: ParsedUrl)
    requires AuthorityShaped(AuthorityOf(u))
    ensures IsAuthorityText(PrintAuthority(u))
  {
    hide IsAuthorityText;
    var h := u.host + PrintPort(u.port);
    TextJoins(u.host, COLON, u.port);
    assert u.port != [] ==> h == u.host + [COLON] + u.port;
    TextJoins(u.userinfo, AT_SIGN, h);
    assert [] + h == h;
  }

  lemma HostLacksAt(host: Bytes, port: Bytes)
    requires AT_SIGN !in host && AT_SIGN !in port
    ensures AT_SIGN !in host + PrintPort(port)
  {
  }

  /** Host and port as they read once printed: without a port, a host may lose its last colon to one. */
  function HostAgain(u: ParsedUrl): Authority { ParseHost(u.host + PrintPort(u.port)) }

  lemma AuthorityParses(u: ParsedUrl)
    requires AuthorityShaped(AuthorityOf(u))
    ensures ParseAuthority(PrintAuthority(u)) == HostAgain(u).(userinfo := u.userinfo)
  {
    var h := u.host + PrintPort(u.port);
    HostLacksAt(u.host, u.port);
    hide *;
    AuthoritySplits(u.userinfo, h);
    assert PrintAuthority(u) == (if u.userinfo == [] then [] else u.userinfo + [AT_SIGN]) + h by {
      PrintAuthorityIs(u);
    }
  }

  lemma PrintAuthorityIs(u: ParsedUrl)
    ensures PrintAuthority(u)
            == (if u.userinfo == [] then [] else u.userinfo + [AT_SIGN]) + (u.host + PrintPort(u.port))
    ensures AuthorityOf(u) == Authority([], u.host, u.port).(userinfo := u.userinfo)
  {
  }

  lemma AuthoritySplits(userinfo: Bytes, h: Bytes)
    requires AT_SIGN !in h
    ensures var s := (if userinfo == [] then [] else userinfo + [AT_SIGN]) + h;
            ParseAuthority(s) == ParseHost(h).(userinfo := userinfo)
  {
    hide ParseHost;
    HostHasNoUserinfo(h);
    if userinfo == [] {
      LastIndexNone(h, AT_SIGN);
      assert [] + h == h;
    } else {
      var s := userinfo + [AT_SIGN] + h;
      assert s[|userinfo| + 1..] == h;
      LastIndexIs(s, AT_SIGN, |userinfo|);
      assert s[..|userinfo|] == userinfo;
    }
  }

  lemma AuthorityEndIs(a: Bytes, t: Bytes)
    requires IsAuthorityText(a) && (t != [] ==> EndsAuthority(t[0]))
    ensures AuthorityEnd(a + t) == |a|
  {
    assert t != [] ==> (a + t)[|a|] == t[0];
  }

  lemma MarkAfterScheme(scheme: Bytes, rest: Bytes)
    requires SchemeShaped(scheme)
    ensures FindMark(scheme + SCHEME_MARK + rest) == |scheme|
  {
    var t, s := scheme + SCHEME_MARK, scheme + SCHEME_MARK + rest;
    forall j: nat | j < |scheme|
      ensures !MarkAt(s, j)
    {
      assert !MarkAt(t, j);
    }
    MarkIs(s, |scheme|);
  }

  /** What a shaped URL reads as once printed. */
  function ReadAgain(u: ParsedUrl): ParsedUrl {
    u.(host := HostAgain(u).host, port := HostAgain(u).port, query := Trim(u.query))
  }

  lemma ReadAgainKeepsHost(u: ParsedUrl)
    requires Shaped(u) && ColonKept(u)
    ensures ReadAgain(u) == u.(query := Trim(u.query))
  {
    hide ParseHost, SchemeShaped, QueryShaped, Trim;
    HostParses(u.host, u.port);
  }

  /** A printed text is parsed piece by piece. */
  lemma PiecesParse(scheme: Bytes, a: Bytes, t: Bytes)
    requires SchemeShaped(scheme) && IsAuthorityText(a) && (t != [] ==> EndsAuthority(t[0]))
    ensures var s := scheme + SCHEME_MARK + (a + t);
            && Hierarchical(s)
            && Parse(s) == Ok(PutTogether(scheme, ParseAuthority(a), ParseTail(t)))
  {
    hide ParseAuthority, ParseTail, IsAuthorityText, EndsAuthority, FindMark, AuthorityEnd, SchemeShaped;
    AuthorityEndIs(a, t);
    MarkAfterScheme(scheme, a + t);
    ShapedSchemeIsLower(scheme);
    var s := scheme + SCHEME_MARK + (a + t);
    assert s[..|scheme|] == scheme && s[|scheme| + 3..] == a + t;
    assert (a + t)[..|a|] == a && (a + t)[|a|..] == t;
  }

  lemma ShapedSchemeIsLower(scheme: Bytes)
    requires SchemeShaped(scheme)
    ensures Lower(scheme) == scheme
  {
  }

  function PutTogether(scheme: Bytes, a: Authority, t: Tail): ParsedUrl {
    ParsedUrl(scheme, a.userinfo, a.host, a.port, t.path, t.query, t.fragment)
  }

  /** Printing then parsing loses at most a last pair that is wholly empty, and the host's last colon to a port. */
  lemma ParseOfPrint(u: ParsedUrl)
    requires Shaped(u) && PathPlain(u.path) && u.scheme != []
    ensures Hierarchical(Print(u)) && Parse(Print(u)) == Ok(ReadAgain(u))
    ensures ColonKept(u) ==> ReadAgain(u) == u.(query := Trim(u.query))
  {
    if ColonKept(u) {
      ReadAgainKeepsHost(u);
    }
    AuthorityParses(u);
    AuthorityIsText(u);
    TailParses(u);
    hide Parse, Hierarchical, ParseAuthority, ParseTail, PrintAuthority, PrintTail, AuthorityShaped, QueryShaped,
      PathPlain, Trim, ColonKept, HostAgain, SchemeShaped, IsAuthorityText, EndsAuthority;
    PiecesParse(u.scheme, PrintAuthority(u), PrintTail(u));
  }

  // ---------------------------------------------------------------- exactly when the round trip holds

  predicate Canonical(u: ParsedUrl) {
    && u.scheme != [] && PathPlain(u.path) && ColonKept(u)
    && (u.query != [] ==> u.query[|u.query| - 1] != EMPTY_PAIR)
  }

  lemma HostShrinks(s: Bytes)
    ensures var a := ParseHost(s);
            |a.host + PrintPort(a.port)| <= |s|
            && (a.port == [] && COLON in a.host && CLOSING_BRACKET !in a.host ==> |a.host| < |s|)
  {
    LowerKeeps(s, COLON);
    LowerKeeps(s, CLOSING_BRACKET);
  }

  lemma AuthorityShrinks(s: Bytes, u: ParsedUrl)
    requires AuthorityOf(u) == ParseAuthority(s)
    ensures |PrintAuthority(u)| <= |s|
    ensures !ColonKept(u) ==> |PrintAuthority(u)| < |s|
  {
    hide ParseHost;
    match LastIndexOf(s, AT_SIGN)
    case Some(at) => HostShrinks(s[at + 1..]);
    case None =>
      HostShrinks(s);
      HostHasNoUserinfo(s);
  }

  lemma PairShrinks(s: Bytes)
    ensures |PrintPair(ParsePair(s))| <= |s|
    ensures ParsePair(s) == EMPTY_PAIR && s != [] ==> |PrintPair(ParsePair(s))| < |s|
  {
  }

  lemma {:induction false} QueryShrinks(s: Bytes)
    ensures |PrintPairs(ParseQuery(s))| <= |s|
    ensures var q := ParseQuery(s);
            q != [] && q[|q| - 1] == EMPTY_PAIR ==> |PrintPairs(q)| < |s|
    decreases |s|
  {
    hide ParsePair, PrintPair, IndexOf, PrintPairs;
    if s == [] {
      PrintPairsOf(EMPTY_PAIR, []);
    } else {
      var amp := IndexOf(s, AMPERSAND);
      var first := ParsePair(s[..amp]);
      PairShrinks(s[..amp]);
      ParseQueryStep(s, amp, first);
      if amp < |s| {
        var q := ParseQuery(s[amp + 1..]);
        hide ParseQuery;
        QueryShrinks(s[amp + 1..]);
        PrintPairsOf(first, q);
        assert q != [] ==> ([first] + q)[|q|] == q[|q| - 1];
      } else {
        assert s[..amp] == s;
        PrintPairsOf(first, []);
        assert [first] + [] == [first];
      }
    }
  }

  lemma PrintPairsOf(first: Pair, rest: seq<Pair>)
    ensures |PrintPairs([first] + rest)| == |PrintPair(first)| + (if rest == [] then 0 else 1 + |PrintPairs(rest)|)
    ensures PrintPairs([]) == []
  {
    hide PrintPair;
    assert ([first] + rest)[1..] == rest;
  }

  lemma TailShrinks(s: Bytes, u: ParsedUrl)
    requires ParseTail(s) == Tail(u.path, u.query, u.fragment)
    ensures |PrintTail(u)| <= |s|
    ensures u.query != [] && u.query[|u.query| - 1] == EMPTY_PAIR ==> |PrintTail(u)| < |s|
  {
    hide ParseQuery, PrintPairs;
    var hash := IndexOf(s, HASH);
    var rest := s[..hash];
    var question := IndexOf(rest, QUESTION);
    if question < |rest| {
      QueryShrinks(rest[question + 1..]);
    }
  }

  /** A hierarchical parse that is not canonical prints to less text than was parsed. */
  lemma PrintShrinks(url: Bytes)
    requires Hierarchical(url)
    ensures |Print(Parse(url).value)| <= |url|
    ensures !Canonical(Parse(url).value) ==> |Print(Parse(url).value)| < |url|
  {
    hide ParseAuthority, ParseTail, PrintAuthority, PrintTail, PathPlain, ColonKept;
    HierarchicalIsShaped(url);
    var u := Parse(url).value;
    var s := url[FindMark(url) + 3..];
    var end := AuthorityEnd(s);
    AuthorityShrinks(s[..end], u);
    TailShrinks(s[end..], u);
  }

  lemma NotHierarchicalPrint(u: ParsedUrl, w: Bytes)
    requires Parse(w) == Ok(u) && !Hierarchical(w) && u.scheme == []
    ensures |Print(u)| < |w|
  {
  }

  lemma SchemeGivesMark(u: ParsedUrl)
    requires u.scheme != []
    ensures Hierarchical(Print(u))
  {
    var s := Print(u);
    assert MarkAt(s, |u.scheme|);
  }

  /** For every URL that parses: printing then parsing gives the parse back exactly when it is canonical. */
  lemma RoundTripsExactlyWhenCanonical(url: Bytes)
    requires Parse(url).Ok?
    ensures var u := Parse(url).value;
            Parse(Print(u)) == Ok(u) <==> Canonical(u)
  {
    hide Shaped, ParseHierarchical, PrintAuthority, PrintTail, PathPlain, ColonKept;
    var u := Parse(url).value;
    ParseIsShaped(url);
    if Canonical(u) {
      ParseOfPrint(u);
    } else if Parse(Print(u)) == Ok(u) {
      if u.scheme != [] {
        SchemeGivesMark(u);
      } else if !Hierarchical(Print(u)) {
        NotHierarchicalPrint(u, Print(u));
      }
      if Hierarchical(Print(u)) {
        PrintShrinks(Print(u));
      }
    }
  }

  // ---------------------------------------------------------------- the methods

  method ParseUrl(url: Bytes) returns (r: Result<ParsedUrl, UrlError>)
    ensures r == Parse(url)
  {
    hide IndexOf, LastIndexOf, FindMark, AuthorityEnd, ParsePair, ParseQuery;
    if url == [] {
      return Err(EmptyUrl);
    }
    var rest := url;
    var scheme;
    var mark := FindMark(rest);
    if mark < |rest| {
      scheme := Lower(rest[..mark]);
      rest := rest[mark + 3..];
    } else {
      var colon := IndexOf(rest, COLON);
      if colon < |rest| && SLASH !in rest[..colon] {
        return Ok(ParsedUrl(Lower(rest[..colon]), [], [], [], rest[colon + 1..], [], []));
      }
      return Err(NoScheme);
    }
    ghost var whole := rest;
    var end := AuthorityEnd(rest);
    var authority := rest[..end];
    rest := rest[end..];
    var userinfo, port, path, fragment: Bytes := [], [], [], [];
    var at := LastIndexOf(authority, AT_SIGN);
    if at.Some? {
      userinfo := authority[..at.value];
      authority := authority[at.value + 1..];
    }
    var colon := LastIndexOf(authority, COLON);
    if colon.Some? && CLOSING_BRACKET !in authority {
      port := authority[colon.value + 1..];
      authority := authority[..colon.value];
    }
    var host := Lower(authority);
    assert Authority(userinfo, host, port) == ParseAuthority(whole[..end]);

    var hash := IndexOf(rest, HASH);
    if hash < |rest| {
      fragment := rest[hash + 1..];
    }
    rest := rest[..hash];
    var query: seq<Pair> := [];
    var question := IndexOf(rest, QUESTION);
    path := rest[..question];
    if question < |rest| {
      query := ParsePairs(rest[question + 1..]);
    }
    assert Tail(path, query, fragment) == ParseTail(whole[end..]);
    return Ok(ParsedUrl(scheme, userinfo, host, port, path, query, fragment));
  }

  lemma ParseQueryStep(s: Bytes, amp: nat, pair: Pair)
    requires s != [] && amp == IndexOf(s, AMPERSAND) && pair == ParsePair(s[..amp])
    ensures amp == |s| ==> ParseQuery(s) == [pair]
    ensures amp < |s| ==> ParseQuery(s) == [pair] + ParseQuery(s[amp + 1..])
  {
    hide ParsePair;
  }

  /** The loop of parse_url over the query. */
  method ParsePairs(all: Bytes) returns (query: seq<Pair>)
    ensures query == ParseQuery(all)
  {
    hide ParseQuery;
    EmptyQuery();
    var rest := all;
    query := [];
    while rest != []
      invariant ParseQuery(all) == query + ParseQuery(rest)
      decreases |rest|
    {
      var amp := IndexOf(rest, AMPERSAND);
      var text := rest[..amp];
      var equals := IndexOf(text, EQUALS);
      var pair;
      if equals == |text| {
        pair := Pair(text, []);
      } else {
        pair := Pair(text[..equals], text[equals + 1..]);
      }
      ParseQueryStep(rest, amp, pair);
      query := query + [pair];
      if amp == |rest| {
        break;
      }
      rest := rest[amp + 1..];
    }
  }

  /** ParsedUrl::to_string */
  method ToString(u: ParsedUrl) returns (out: Bytes)
    ensures out == Print(u)
  {
    hide PrintQuery;
    out := [];
    if u.scheme != [] {
      out := out + (u.scheme + SCHEME_MARK);
    }
    if u.userinfo != [] {
      out := out + (u.userinfo + [AT_SIGN]);
    }
    out := out + u.host;
    if u.port != [] {
      out := out + ([COLON] + u.port);
    }
    out := out + u.path;
    FrontOfPrint(u, out);
    out := AppendQuery(out, u.query);
    if u.fragment != [] {
      out := out + ([HASH] + u.fragment);
    }
  }

  lemma FrontOfPrint(u: ParsedUrl, front: Bytes)
    requires front == (if u.scheme == [] then [] else u.scheme + SCHEME_MARK) + PrintAuthority(u) + u.path
    ensures Print(u) == front + PrintQuery(u.query) + PrintFragment(u.fragment)
  {
    hide PrintQuery, PrintFragment, PrintAuthority;
    var start := if u.scheme == [] then [] else u.scheme + SCHEME_MARK;
    Assoc(start, PrintAuthority(u), PrintTail(u));
    Assoc(start + PrintAuthority(u), u.path, PrintQuery(u.query) + PrintFragment(u.fragment));
    Assoc(front, PrintQuery(u.query), PrintFragment(u.fragment));
  }

  /** The loop of to_string. */
  method AppendQuery(front: Bytes, query: seq<Pair>) returns (out: Bytes)
    ensures out == front + PrintQuery(query)
  {
    hide PrintPairs, PrintPair, PrintRest, PrintQuery;
    RestOfAll(query);
    out := front;
    assert query[0..] == query;
    for i := 0 to |query|
      invariant out + PrintRest(query[i..], i == 0) == front + PrintQuery(query)
    {
      PrintRestStep(query[i..], i == 0);
      assert query[i..][1..] == query[i + 1..];
      PairText(query[i], if i == 0 then QUESTION else AMPERSAND);
      var piece := [if i == 0 then QUESTION else AMPERSAND] + query[i].key;
      if query[i].value != [] {
        piece := piece + ([EQUALS] + query[i].value);
      }
      Assoc(out, piece, PrintRest(query[i + 1..], false));
      out := out + piece;
    }
  }

  lemma PairText(p: Pair, separator: Byte)
    ensures p.value != [] ==> [separator] + PrintPair(p) == [separator] + p.key + ([EQUALS] + p.value)
    ensures p.value == [] ==> [separator] + PrintPair(p) == [separator] + p.key
  {
  }

  /** What the loop of to_string still prints. */
  function PrintRest(query: seq<Pair>, first: bool): Bytes {
    if query == [] then [] else [if first then QUESTION else AMPERSAND] + PrintPairs(query)
  }

  lemma RestOfAll(query: seq<Pair>)
    ensures PrintRest(query, true) == PrintQuery(query) && PrintRest([], false) == PrintRest([], true) == []
  {
  }

  lemma PrintRestStep(query: seq<Pair>, first: bool)
    requires query != []
    ensures PrintRest(query, first)
            == ([if first then QUESTION else AMPERSAND] + PrintPair(query[0])) + PrintRest(query[1..], false)
  {
    hide PrintPair;
  }
}
