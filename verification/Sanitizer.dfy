/** The rule fold over a parsed URL (src/privacy/sanitizer.cpp:12-31, 187-370). */
module Sanitizer {
  import opened Base
  import opened Url
  import Glob

  datatype Action = RemoveParameter | MaskParameter | TruncatePath | DropUrl | ExcludeTab

  datatype Rule = Rule(
    id: Bytes, action: Action, parameters: seq<Bytes>, hostPatterns: seq<Bytes>, pathPatterns: seq<Bytes>, enabled: bool)

  datatype Options = Options(
    stripAllQuery: bool, stripFragments: bool, stripUserinfo: bool, detectEntropy: bool,
    threshold: real, minLength: nat, extraSensitive: seq<Bytes>, denylist: seq<Bytes>, allowlist: seq<Bytes>)

  datatype SanitizeResult = SanitizeResult(url: Bytes, modified: bool, excluded: bool, applied: seq<Bytes>)

  function LocalFiles(): Bytes { Ascii("local-files") }
  function FileScheme(): Bytes { Ascii("file") }
  function RedactedFile(): Bytes { Ascii("file:///[redacted]") }
  function Redacted(): Bytes { Ascii("[redacted]") }

  // ---------------------------------------------------------------- tests on names, hosts and values

  predicate ContainsCi(haystack: seq<Bytes>, needle: Bytes) {
    exists i :: 0 <= i < |haystack| && Lower(haystack[i]) == Lower(needle)
  }

  predicate SomeGlob(patterns: seq<Bytes>, text: Bytes) {
    exists i :: 0 <= i < |patterns| && Glob.Accepts(patterns[i], text)
  }

  /** any_glob: no pattern is no constraint. */
  predicate AnyGlob(patterns: seq<Bytes>, text: Bytes) { patterns == [] || SomeGlob(patterns, text) }

  predicate HostBlocked(o: Options, host: Bytes) {
    if o.allowlist != [] then !AnyGlob(o.allowlist, host) else SomeGlob(o.denylist, host)
  }

  predicate TokenByte(b: Byte) {
    0x30 <= b <= 0x39 || 0x41 <= b <= 0x5A || 0x61 <= b <= 0x7A
    || b == 0x2D || b == 0x5F || b == 0x2E || b == 0x25 || b == 0x3D
  }

  predicate TokenShaped(value: Bytes) { forall i :: 0 <= i < |value| ==> TokenByte(value[i]) }

  predicate LooksLikeSecret(o: Options, entropy: Bytes -> real, p: Pair) {
    || ContainsCi(o.extraSensitive, p.key)
    || (o.detectEntropy && |p.value| >= o.minLength && TokenShaped(p.value) && entropy(p.value) >= o.threshold)
  }

  // ---------------------------------------------------------------- one rule

  /** The rule takes part in the fold and its patterns fit. */
  predicate Applies(rule: Rule, u: ParsedUrl) {
    && rule.enabled && rule.id != LocalFiles()
    && AnyGlob(rule.hostPatterns, u.host) && AnyGlob(rule.pathPatterns, u.path)
  }

  function FilterPair(rule: Rule, p: Pair): seq<Pair> {
    if !ContainsCi(rule.parameters, p.key) then [p]
    else if rule.action == MaskParameter then [Pair(p.key, Redacted())]
    else []
  }

  function FilterQuery(rule: Rule, query: seq<Pair>): seq<Pair> {
    if query == [] then [] else FilterPair(rule, query[0]) + FilterQuery(rule, query[1..])
  }

  predicate Names(rule: Rule, query: seq<Pair>) {
    exists i :: 0 <= i < |query| && ContainsCi(rule.parameters, query[i].key)
  }

  datatype Effect = Exclude | Keep(url: ParsedUrl, applied: bool)

  function Apply(rule: Rule, u: ParsedUrl): Effect {
    if !Applies(rule, u) then Keep(u, false)
    else
      match rule.action
      case ExcludeTab => Exclude
      case DropUrl => Keep(u.(path := [], query := [], fragment := []), true)
      case TruncatePath =>
        if u.path != [] && u.path != [SLASH] then Keep(u.(path := [SLASH], query := []), true) else Keep(u, false)
      case RemoveParameter => Keep(u.(query := FilterQuery(rule, u.query)), Names(rule, u.query))
      case MaskParameter => Keep(u.(query := FilterQuery(rule, u.query)), Names(rule, u.query))
  }

  // ---------------------------------------------------------------- the whole fold

  datatype Progress = Stopped(applied: seq<Bytes>) | Going(url: ParsedUrl, modified: bool, applied: seq<Bytes>)

  function ApplyAll(rules: seq<Rule>, u: ParsedUrl, modified: bool, applied: seq<Bytes>): Progress {
    if rules == [] then Going(u, modified, applied)
    else
      match Apply(rules[0], u)
      case Exclude => Stopped(applied + [rules[0].id])
      case Keep(v, hit) =>
        ApplyAll(rules[1..], v, modified || hit, if hit then applied + [rules[0].id] else applied)
  }

  function Unsuspected(o: Options, entropy: Bytes -> real, query: seq<Pair>): (kept: seq<Pair>)
    ensures |kept| <= |query|
  {
    if query == [] then []
    else (if LooksLikeSecret(o, entropy, query[0]) then [] else [query[0]]) + Unsuspected(o, entropy, query[1..])
  }

  function Repeat(id: Bytes, n: nat): seq<Bytes> { seq(n, i => id) }

  function StripUserinfo(o: Options, p: Progress): Progress {
    if p.Going? && o.stripUserinfo && p.url.userinfo != []
    then Going(p.url.(userinfo := []), true, p.applied + [Ascii("userinfo")]) else p
  }

  function StripFragment(o: Options, p: Progress): Progress {
    if p.Going? && o.stripFragments && p.url.fragment != []
    then Going(p.url.(fragment := []), true, p.applied + [Ascii("fragment")]) else p
  }

  function StripQuery(o: Options, p: Progress): Progress {
    if p.Going? && o.stripAllQuery && p.url.query != []
    then Going(p.url.(query := []), true, p.applied + [Ascii("strip-all-query")]) else p
  }

  function Strip(o: Options, u: ParsedUrl): Progress {
    StripQuery(o, StripFragment(o, StripUserinfo(o, Going(u, false, []))))
  }

  /** sanitize_url */
  function Sanitize(o: Options, rules: seq<Rule>, entropy: Bytes -> real, url: Bytes): SanitizeResult {
    if url == [] then SanitizeResult(url, false, false, [])
    else
      match Parse(url)
      case Err(_) => SanitizeResult(url, QUESTION in url, QUESTION in url, [])
      case Ok(u) =>
        if u.scheme == FileScheme() then SanitizeResult(RedactedFile(), true, false, [LocalFiles()])
        else if HostBlocked(o, u.host) then SanitizeResult(url, true, true, [Ascii("domain-policy")])
        else
          var s := Strip(o, u);
          match ApplyAll(rules, s.url, s.modified, s.applied)
          case Stopped(applied) => SanitizeResult(url, true, true, applied)
          case Going(v, modified, applied) =>
            var kept := Unsuspected(o, entropy, v.query);
            var dropped := |v.query| - |kept|;
            SanitizeResult(Print(v.(query := kept)), modified || dropped > 0, false,
                           applied + Repeat(Ascii("entropy"), dropped))
  }

  // ---------------------------------------------------------------- the URL that comes out

  /** The URL part of the fold. */
  function Fold(rules: seq<Rule>, u: ParsedUrl): Option<ParsedUrl> {
    if rules == [] then Some(u)
    else
      match Apply(rules[0], u)
      case Exclude => None
      case Keep(v, _) => Fold(rules[1..], v)
  }

  lemma {:induction false} FoldIsApplyAll(rules: seq<Rule>, u: ParsedUrl, modified: bool, applied: seq<Bytes>)
    ensures var p := ApplyAll(rules, u, modified, applied);
            if p.Stopped? then Fold(rules, u) == None else Fold(rules, u) == Some(p.url)
  {
    hide Apply;
    if rules != [] {
      match Apply(rules[0], u)
      case Exclude =>
      case Keep(v, hit) =>
        FoldIsApplyAll(rules[1..], v, modified || hit, if hit then applied + [rules[0].id] else applied);
    }
  }

  /** What is printed for a parsed URL that is neither a file, nor blocked, nor excluded. */
  function Final(o: Options, rules: seq<Rule>, entropy: Bytes -> real, u: ParsedUrl): Option<ParsedUrl> {
    if HostBlocked(o, u.host) then None
    else
      match Fold(rules, Strip(o, u).url)
      case None => None
      case Some(v) => Some(v.(query := Unsuspected(o, entropy, v.query)))
  }

  lemma SanitizePrintsFinal(o: Options, rules: seq<Rule>, entropy: Bytes -> real, url: Bytes)
    requires url != [] && Parse(url).Ok? && Parse(url).value.scheme != FileScheme()
    ensures var r, f := Sanitize(o, rules, entropy, url), Final(o, rules, entropy, Parse(url).value);
            if f.None? then r.excluded && r.url == url else !r.excluded && r.url == Print(f.value)
  {
    hide Parse, Print, HostBlocked, ApplyAll, Fold, Strip;
    var u := Parse(url).value;
    var s := Strip(o, u);
    StripGoes(o, u);
    FoldIsApplyAll(rules, s.url, s.modified, s.applied);
  }

  lemma StripGoes(o: Options, u: ParsedUrl)
    ensures Strip(o, u).Going?
    ensures var v := Strip(o, u).url;
            v == u.(userinfo := if o.stripUserinfo then [] else u.userinfo,
                    fragment := if o.stripFragments then [] else u.fragment,
                    query := if o.stripAllQuery then [] else u.query)
  {
  }

  // ---------------------------------------------------------------- what later rules leave alone

  /** Rules that exclude or drop look at the host only, as the built-in ones do. */
  predicate Stable(rules: seq<Rule>) {
    forall r <- rules :: r.action == ExcludeTab || r.action == DropUrl ==> r.pathPatterns == []
  }

  predicate Settled(rule: Rule, u: ParsedUrl) { Apply(rule, u).Keep? && Apply(rule, u).url == u }

  /** Every pair of `after` stands in `before`, with its value or masked. */
  ghost predicate PairsFrom(before: seq<Pair>, after: seq<Pair>) {
    forall p <- after :: p in before || (p.value == Redacted() && exists v :: Pair(p.key, v) in before)
  }

  /** `v` can come out of `u` by rules and by the entropy filter. */
  ghost predicate Later(u: ParsedUrl, v: ParsedUrl) {
    && v.scheme == u.scheme && v.userinfo == u.userinfo && v.host == u.host && v.port == u.port
    && (v.fragment == u.fragment || v.fragment == [])
    && PairsFrom(u.query, v.query)
    && (v.path == u.path || (v.query == [] && (v.path == [] || (v.path == [SLASH] && u.path != []))))
  }

  lemma PairsFromTransitive(a: seq<Pair>, b: seq<Pair>, c: seq<Pair>)
    requires PairsFrom(a, b) && PairsFrom(b, c)
    ensures PairsFrom(a, c)
  {
    forall p <- c
      ensures p in a || (p.value == Redacted() && exists v :: Pair(p.key, v) in a)
    {
      if p !in b {
        var v :| Pair(p.key, v) in b;
      }
    }
  }

  lemma LaterTransitive(u: ParsedUrl, v: ParsedUrl, w: ParsedUrl)
    requires Later(u, v) && Later(v, w)
    ensures Later(u, w)
  {
    hide PairsFrom;
    PairsFromTransitive(u.query, v.query, w.query);
    if w.path != v.path && v.path != u.path {
    } else if v.path != u.path {
      NothingFromNothing(w.query);
      assert PairsFrom([], w.query);
    }
  }

  lemma NothingFromNothing(query: seq<Pair>)
    ensures PairsFrom([], query) ==> query == []
  {
    assert query == [] || query[0] in query;
  }

  lemma {:induction false} FilterGivesPairs(rule: Rule, query: seq<Pair>)
    ensures PairsFrom(query, FilterQuery(rule, query))
  {
    if query != [] {
      FilterGivesPairs(rule, query[1..]);
      assert query[0] in query && Pair(query[0].key, query[0].value) == query[0];
      forall p <- FilterQuery(rule, query)
        ensures p in query || (p.value == Redacted() && exists v :: Pair(p.key, v) in query)
      {
        if p in FilterQuery(rule, query[1..]) && p !in query[1..] {
          var v :| Pair(p.key, v) in query[1..];
          assert Pair(p.key, v) in query;
        }
      }
    }
  }

  lemma {:induction false} UnsuspectedSubset(o: Options, entropy: Bytes -> real, query: seq<Pair>)
    ensures forall p <- Unsuspected(o, entropy, query) :: p in query && !LooksLikeSecret(o, entropy, p)
    ensures PairsFrom(query, Unsuspected(o, entropy, query))
  {
    hide LooksLikeSecret;
    if query != [] {
      UnsuspectedSubset(o, entropy, query[1..]);
    }
  }

  lemma ApplyIsLater(rule: Rule, u: ParsedUrl)
    requires Apply(rule, u).Keep?
    ensures Later(u, Apply(rule, u).url)
  {
    hide Applies, FilterQuery, PairsFrom;
    FilterGivesPairs(rule, u.query);
    SameAndNone(u.query);
  }

  lemma SameAndNone(query: seq<Pair>)
    ensures PairsFrom(query, query) && PairsFrom(query, [])
  {
  }

  // ---------------------------------------------------------------- rules settle

  /** What a parameter rule leaves: none of its names, or masked values only. */
  predicate Filtered(rule: Rule, query: seq<Pair>) {
    forall p <- query :: ContainsCi(rule.parameters, p.key) ==> rule.action == MaskParameter && p.value == Redacted()
  }

  lemma {:induction false} FilterFilters(rule: Rule, query: seq<Pair>)
    ensures Filtered(rule, FilterQuery(rule, query))
  {
    if query != [] {
      FilterFilters(rule, query[1..]);
    }
  }

  lemma {:induction false} FilteredIsFixed(rule: Rule, query: seq<Pair>)
    requires rule.action == MaskParameter || rule.action == RemoveParameter
    ensures Filtered(rule, query) <==> FilterQuery(rule, query) == query
  {
    if Filtered(rule, query) {
      FixedWhenFiltered(rule, query);
    } else if FilterQuery(rule, query) == query {
      FilterFilters(rule, query);
    }
  }

  lemma {:induction false} FixedWhenFiltered(rule: Rule, query: seq<Pair>)
    requires Filtered(rule, query)
    ensures FilterQuery(rule, query) == query
  {
    if query != [] {
      assert query[0] in query;
      assert query == [query[0]] + query[1..];
      FixedWhenFiltered(rule, query[1..]);
    }
  }

  lemma FilteredLater(rule: Rule, before: seq<Pair>, after: seq<Pair>)
    requires Filtered(rule, before) && PairsFrom(before, after)
    ensures Filtered(rule, after)
  {
    forall p <- after | ContainsCi(rule.parameters, p.key)
      ensures rule.action == MaskParameter && p.value == Redacted()
    {
      assert forall v :: Pair(p.key, v).key == p.key;
    }
  }

  /** Right after it ran, a rule has nothing more to do. */
  lemma RuleSettles(rule: Rule, u: ParsedUrl)
    requires Apply(rule, u).Keep?
    requires rule.action == ExcludeTab || rule.action == DropUrl ==> rule.pathPatterns == []
    ensures Settled(rule, Apply(rule, u).url)
  {
    hide FilterQuery, AnyGlob;
    if rule.action == RemoveParameter || rule.action == MaskParameter {
      FilterFilters(rule, u.query);
      FilteredIsFixed(rule, FilterQuery(rule, u.query));
    }
  }

  /** Once settled, a rule stays settled whatever the others do. */
  lemma SettledStays(rule: Rule, u: ParsedUrl, v: ParsedUrl)
    requires Settled(rule, u) && Later(u, v)
    requires rule.action == ExcludeTab || rule.action == DropUrl ==> rule.pathPatterns == []
    ensures Settled(rule, v)
  {
    hide FilterQuery, AnyGlob, PairsFrom, Filtered;
    NothingFromNothing(v.query);
    NoPatterns(u.path);
    NoPatterns(v.path);
    match rule.action
    case RemoveParameter => ParameterRuleStays(rule, u, v);
    case MaskParameter => ParameterRuleStays(rule, u, v);
    case TruncatePath =>
    case DropUrl =>
    case ExcludeTab =>
  }

  lemma NoPatterns(text: Bytes)
    ensures AnyGlob([], text)
  {
  }

  lemma ParameterRuleStays(rule: Rule, u: ParsedUrl, v: ParsedUrl)
    requires rule.action == RemoveParameter || rule.action == MaskParameter
    requires Settled(rule, u) && Later(u, v)
    ensures Settled(rule, v)
  {
    hide FilterQuery, AnyGlob, PairsFrom, Filtered;
    FilteredIsFixed(rule, v.query);
    if v.path == u.path {
      FilteredIsFixed(rule, u.query);
      if Applies(rule, v) {
        FilteredLater(rule, u.query, v.query);
      }
    } else {
      NothingNamed(rule);
    }
  }

  lemma NothingNamed(rule: Rule)
    ensures Filtered(rule, [])
  {
  }

  lemma {:induction false} FoldIsLater(rules: seq<Rule>, u: ParsedUrl)
    requires Fold(rules, u).Some?
    ensures Later(u, Fold(rules, u).value)
  {
    hide Apply, Later;
    if rules == [] {
      LaterReflexive(u);
    } else {
      var v := Apply(rules[0], u).url;
      ApplyIsLater(rules[0], u);
      FoldIsLater(rules[1..], v);
      LaterTransitive(u, v, Fold(rules, u).value);
    }
  }

  lemma {:induction false} FoldSettles(rules: seq<Rule>, u: ParsedUrl)
    requires Stable(rules) && Fold(rules, u).Some?
    ensures Later(u, Fold(rules, u).value)
    ensures forall r <- rules :: Settled(r, Fold(rules, u).value)
  {
    hide Apply, Settled, Later;
    if rules == [] {
      LaterReflexive(u);
    } else {
      var r := rules[0];
      var v := Apply(r, u).url;
      var w := Fold(rules, u).value;
      assert r in rules;
      assert Stable(rules[1..]);
      FoldSettles(rules[1..], v);
      ApplyIsLater(r, u);
      RuleSettles(r, u);
      SettledStays(r, v, w);
      LaterTransitive(u, v, w);
      assert forall s <- rules :: s == r || s in rules[1..];
    }
  }

  /** Where the path stays, a settled rule stays settled whatever its patterns. */
  lemma SettledSamePath(rule: Rule, u: ParsedUrl, v: ParsedUrl)
    requires Settled(rule, u) && Later(u, v) && v.path == u.path
    ensures Settled(rule, v)
  {
    hide FilterQuery, AnyGlob, PairsFrom, Filtered;
    NothingFromNothing(v.query);
    match rule.action
    case RemoveParameter => ParameterRuleStays(rule, u, v);
    case MaskParameter => ParameterRuleStays(rule, u, v);
    case TruncatePath =>
    case DropUrl =>
    case ExcludeTab =>
  }

  /** A rule that neither excludes nor cuts has nothing more to do right after it ran. */
  lemma UncutSettles(rule: Rule, u: ParsedUrl)
    requires Apply(rule, u).Keep? && !Cuts(rule, u)
    ensures Settled(rule, Apply(rule, u).url)
  {
    hide FilterQuery, AnyGlob;
    if rule.action == RemoveParameter || rule.action == MaskParameter {
      FilterFilters(rule, u.query);
      FilteredIsFixed(rule, FilterQuery(rule, u.query));
    }
  }

  lemma {:induction false} UncutFoldSettles(rules: seq<Rule>, u: ParsedUrl)
    requires !Cut(rules, u) && Fold(rules, u).Some?
    ensures Fold(rules, u).value.path == u.path
    ensures forall r <- rules :: Settled(r, Fold(rules, u).value)
  {
    hide Settled, Later, Cuts, Cut, FilterQuery, AnyGlob, Names;
    if rules != [] {
      var r := rules[0];
      var v := Apply(r, u).url;
      FirstOfRules(rules, u);
      KeptPath(r, u);
      SameRules(rules[1..], u, v);
      UncutFoldSettles(rules[1..], v);
      UncutSettles(r, u);
      FoldIsLater(rules[1..], v);
      SettledSamePath(r, v, Fold(rules, u).value);
      assert forall s <- rules :: s == r || s in rules[1..];
    }
  }

  lemma LaterReflexive(u: ParsedUrl)
    ensures Later(u, u)
  {
  }

  lemma {:induction false} SettledFold(rules: seq<Rule>, u: ParsedUrl)
    requires forall r <- rules :: Settled(r, u)
    ensures Fold(rules, u) == Some(u)
  {
    hide Apply;
    if rules != [] {
      assert rules[0] in rules;
      SettledFold(rules[1..], u);
    }
  }

  lemma {:induction false} UnsuspectedFixed(o: Options, entropy: Bytes -> real, query: seq<Pair>)
    requires forall p <- query :: !LooksLikeSecret(o, entropy, p)
    ensures Unsuspected(o, entropy, query) == query
  {
    hide LooksLikeSecret;
    if query != [] {
      assert query[0] in query;
      UnsuspectedFixed(o, entropy, query[1..]);
      assert query == [query[0]] + query[1..];
    }
  }

  /** A sanitized URL: nothing is left for the options, the rules and the entropy check to do. */
  ghost predicate Clean(o: Options, rules: seq<Rule>, entropy: Bytes -> real, u: ParsedUrl) {
    && (o.stripUserinfo ==> u.userinfo == []) && (o.stripFragments ==> u.fragment == [])
    && (o.stripAllQuery ==> u.query == [])
    && !HostBlocked(o, u.host)
    && (forall r <- rules :: Settled(r, u))
    && (forall p <- u.query :: !LooksLikeSecret(o, entropy, p))
  }

  /** Rules that leave nothing to do behind: the excluding and dropping ones look at the host only, or none cuts. */
  predicate Tame(rules: seq<Rule>, u: ParsedUrl) { Stable(rules) || !Cut(rules, u) }

  lemma TameFoldSettles(rules: seq<Rule>, u: ParsedUrl, s: ParsedUrl)
    requires Tame(rules, u) && s.host == u.host && s.path == u.path && Fold(rules, s).Some?
    ensures forall r <- rules :: Settled(r, Fold(rules, s).value)
    ensures Later(s, Fold(rules, s).value)
  {
    SameRules(rules, u, s);
    hide Cut, Fold, Settled, Later;
    FoldIsLater(rules, s);
    if Stable(rules) {
      FoldSettles(rules, s);
    } else {
      UncutFoldSettles(rules, s);
    }
  }

  lemma FinalIsClean(o: Options, rules: seq<Rule>, entropy: Bytes -> real, u: ParsedUrl)
    requires Tame(rules, u) && Final(o, rules, entropy, u).Some?
    ensures Clean(o, rules, entropy, Final(o, rules, entropy, u).value)
    ensures Later(Strip(o, u).url, Final(o, rules, entropy, u).value)
  {
    hide Fold, Settled, Unsuspected, LooksLikeSecret, HostBlocked, Strip, PairsFrom, Tame;
    StripGoes(o, u);
    var s := Strip(o, u).url;
    var v := Fold(rules, s).value;
    var w := Final(o, rules, entropy, u).value;
    TameFoldSettles(rules, u, s);
    UnsuspectedSubset(o, entropy, v.query);
    assert Later(v, w);
    NothingFromNothing(w.query);
    LaterTransitive(s, v, w);
    forall r <- rules
      ensures Settled(r, w)
    {
      SettledSamePath(r, v, w);
    }
  }

  lemma FinalIsLater(o: Options, rules: seq<Rule>, entropy: Bytes -> real, u: ParsedUrl)
    requires Final(o, rules, entropy, u).Some?
    ensures Later(Strip(o, u).url, Final(o, rules, entropy, u).value)
  {
    hide Fold, Unsuspected, LooksLikeSecret, HostBlocked, Strip, PairsFrom;
    StripGoes(o, u);
    var v := Fold(rules, Strip(o, u).url).value;
    var w := Final(o, rules, entropy, u).value;
    FoldIsLater(rules, Strip(o, u).url);
    UnsuspectedSubset(o, entropy, v.query);
    NothingFromNothing(w.query);
    LaterTransitive(Strip(o, u).url, v, w);
  }

  lemma CleanIsFinal(o: Options, rules: seq<Rule>, entropy: Bytes -> real, u: ParsedUrl)
    requires Clean(o, rules, entropy, u)
    ensures Final(o, rules, entropy, u) == Some(u)
  {
    hide Fold, Settled, Unsuspected, LooksLikeSecret, HostBlocked, Strip;
    StripGoes(o, u);
    assert Strip(o, u).url == u;
    SettledFold(rules, u);
    UnsuspectedFixed(o, entropy, u.query);
  }

  lemma CleanTrims(o: Options, rules: seq<Rule>, entropy: Bytes -> real, u: ParsedUrl)
    requires Clean(o, rules, entropy, u)
    ensures Clean(o, rules, entropy, u.(query := Trim(u.query)))
  {
    hide Settled, LooksLikeSecret, HostBlocked;
    var v := u.(query := Trim(u.query));
    assert forall p <- v.query :: p in u.query;
    assert Later(u, v);
    forall r <- rules
      ensures Settled(r, v)
    {
      SettledSamePath(r, u, v);
    }
  }

  // ---------------------------------------------------------------- sanitizing twice

  /** scheme://..., with a scheme, and without a colon that an empty port would lose. */
  predicate WebUrl(url: Bytes) {
    Hierarchical(url) && FindMark(url) > 0 && ColonKept(Parse(url).value)
  }

  lemma RedactedPair(key: Bytes)
    requires AMPERSAND !in key && EQUALS !in key && HASH !in key
    ensures PairShaped(Pair(key, Redacted()))
  {
    var v := Redacted();
    assert forall i :: 0 <= i < |v| ==> v[i] != AMPERSAND && v[i] != HASH;
  }

  lemma ShapedLater(before: seq<Pair>, after: seq<Pair>)
    requires QueryShaped(before) && PairsFrom(before, after)
    ensures QueryShaped(after)
  {
    hide Redacted;
    forall p <- after
      ensures PairShaped(p)
    {
      if p !in before {
        var v :| Pair(p.key, v) in before;
        assert PairShaped(Pair(p.key, v));
        RedactedPair(p.key);
      }
    }
  }

  lemma ShapedAfterStrip(o: Options, u: ParsedUrl)
    requires Shaped(u)
    ensures Shaped(Strip(o, u).url)
  {
    hide SchemeShaped, PairShaped, Strip;
    StripGoes(o, u);
  }

  lemma SchemeOf(url: Bytes)
    requires Hierarchical(url)
    ensures Parse(url).Ok? && Parse(url).value.scheme == Lower(url[..FindMark(url)])
  {
  }

  lemma FinalIsPrintable(o: Options, rules: seq<Rule>, entropy: Bytes -> real, url: Bytes)
    requires Hierarchical(url) && Parse(url).Ok? && Final(o, rules, entropy, Parse(url).value).Some?
    ensures var u, f := Parse(url).value, Final(o, rules, entropy, Parse(url).value).value;
            Shaped(f) && PathPlain(f.path) && f.scheme == u.scheme && f.host == u.host && f.port == u.port
  {
    hide Final, ParseHierarchical, SchemeShaped, AuthorityShaped, QueryShaped, PairsFrom, Strip;
    var u := Parse(url).value;
    HierarchicalIsShaped(url);
    StripGoes(o, u);
    ShapedAfterStrip(o, u);
    FinalIsLater(o, rules, entropy, u);
    ShapedLater(Strip(o, u).url.query, Final(o, rules, entropy, u).value.query);
  }

  /** The text that comes out parses again, and its parse has nothing left to sanitize. */
  lemma SanitizedIsClean(o: Options, rules: seq<Rule>, entropy: Bytes -> real, url: Bytes)
    requires WebUrl(url) && Tame(rules, Parse(url).value) && Parse(url).value.scheme != FileScheme()
    requires !Sanitize(o, rules, entropy, url).excluded
    ensures var w := Sanitize(o, rules, entropy, url).url;
            Parse(w).Ok? && Clean(o, rules, entropy, Parse(w).value)
  {
    hide *;
    var f := ReparseIsTrimmed(o, rules, entropy, url);
    CleanTrims(o, rules, entropy, f);
  }

  lemma WebUrlParts(url: Bytes)
    requires WebUrl(url)
    ensures Hierarchical(url) && Parse(url).Ok? && Parse(url).value.scheme != [] && ColonKept(Parse(url).value)
  {
    SchemeOf(url);
    hide Parse, FindMark, ColonKept;
  }

  lemma SameColon(u: ParsedUrl, v: ParsedUrl)
    requires v.host == u.host && v.port == u.port
    ensures ColonKept(v) == ColonKept(u) && HostAgain(v) == HostAgain(u)
  {
  }

  lemma ReparseIsTrimmed(o: Options, rules: seq<Rule>, entropy: Bytes -> real, url: Bytes) returns (f: ParsedUrl)
    requires WebUrl(url) && Tame(rules, Parse(url).value) && Parse(url).value.scheme != FileScheme()
    requires !Sanitize(o, rules, entropy, url).excluded
    ensures Final(o, rules, entropy, Parse(url).value) == Some(f) && Clean(o, rules, entropy, f)
    ensures Sanitize(o, rules, entropy, url).url == Print(f)
    ensures Parse(Print(f)) == Ok(f.(query := Trim(f.query))) && f.scheme == Parse(url).value.scheme
  {
    assert url != [] && Parse(url).Ok?;
    SchemeOf(url);
    WebUrlParts(url);
    hide *;
    SanitizePrintsFinal(o, rules, entropy, url);
    f := Final(o, rules, entropy, Parse(url).value).value;
    FinalIsPrintable(o, rules, entropy, url);
    FinalIsClean(o, rules, entropy, Parse(url).value);
    SameColon(Parse(url).value, f);
    ParseOfPrint(f);
  }

  lemma {:induction false} PairsShorten(query: seq<Pair>)
    requires query != [] && query[|query| - 1] == EMPTY_PAIR
    ensures |query| > 1 ==> |PrintPairs(query[..|query| - 1])| < |PrintPairs(query)|
  {
    if |query| > 2 {
      var init := query[..|query| - 1];
      assert init[1..] == query[1..][..|query| - 2];
      PairsShorten(query[1..]);
    }
  }

  predicate EndsEmpty(query: seq<Pair>) { query != [] && query[|query| - 1] == EMPTY_PAIR }

  lemma TrimShortens(u: ParsedUrl)
    ensures var t := u.(query := Trim(u.query));
            if EndsEmpty(u.query) then |Print(t)| < |Print(u)| else t == u
  {
    hide PrintPairs;
    if u.query != [] && u.query[|u.query| - 1] == EMPTY_PAIR {
      PairsShorten(u.query);
      assert PrintAuthority(u.(query := Trim(u.query))) == PrintAuthority(u);
    }
  }

  /** Sanitizing twice changes the text when the record printed first ends in a wholly empty pair. */
  lemma TwiceByFinal(o: Options, rules: seq<Rule>, entropy: Bytes -> real, url: Bytes)
    requires WebUrl(url) && Tame(rules, Parse(url).value) && Parse(url).value.scheme != FileScheme()
    requires !Sanitize(o, rules, entropy, url).excluded
    ensures var once := Sanitize(o, rules, entropy, url);
            var twice := Sanitize(o, rules, entropy, once.url);
            && !twice.excluded
            && Final(o, rules, entropy, Parse(url).value).Some?
            && (twice.url == once.url <==> !EndsEmpty(Final(o, rules, entropy, Parse(url).value).value.query))
  {
    hide *;
    var f := ReparseIsTrimmed(o, rules, entropy, url);
    var t := f.(query := Trim(f.query));
    CleanTrims(o, rules, entropy, f);
    CleanIsFinal(o, rules, entropy, t);
    TrimShortens(f);
    NoUrlFromNothing();
    SanitizePrintsFinal(o, rules, entropy, Print(f));
  }

  lemma NoUrlFromNothing()
    ensures Parse([]).Err?
  {
  }

  /** Local files become one fixed text, which is left alone. */
  lemma FilesAreRedacted(o: Options, rules: seq<Rule>, entropy: Bytes -> real, url: Bytes)
    requires Parse(url).Ok? && Parse(url).value.scheme == FileScheme()
    ensures var once := Sanitize(o, rules, entropy, url);
            !once.excluded && once.url == RedactedFile() && Sanitize(o, rules, entropy, RedactedFile()) == once
  {
    RedactedFileParses();
    NoUrlFromNothing();
    hide Parse;
  }

  lemma WholeText(w: Bytes)
    ensures Hierarchical(w) <==> FindMark(w) < |w|
  {
  }

  lemma RedactedFileParses()
    ensures Parse(RedactedFile()).Ok? && Parse(RedactedFile()).value.scheme == FileScheme()
  {
    var w := RedactedFile();
    assert forall j: nat :: j < 4 ==> w[j] != COLON;
    assert MarkAt(w, 4);
    assert w[..4] == FileScheme();
    assert Lower(FileScheme()) == FileScheme();
    hide *;
    MarkIs(w, 4);
    WholeText(w);
    SchemeOf(w);
  }

  // ---------------------------------------------------------------- what goes and what stays

  predicate Bare(path: Bytes) { path == [] || path == [SLASH] }

  /** The rule takes path and query away. */
  predicate Cuts(rule: Rule, u: ParsedUrl) {
    Applies(rule, u) && (rule.action == DropUrl || (rule.action == TruncatePath && !Bare(u.path)))
  }

  predicate Cut(rules: seq<Rule>, u: ParsedUrl) { exists i :: 0 <= i < |rules| && Cuts(rules[i], u) }

  predicate Removed(rules: seq<Rule>, u: ParsedUrl, key: Bytes) {
    exists i :: 0 <= i < |rules| && Takes(rules[i], u, RemoveParameter, key)
  }

  predicate Masked(rules: seq<Rule>, u: ParsedUrl, key: Bytes) {
    exists i :: 0 <= i < |rules| && Takes(rules[i], u, MaskParameter, key)
  }

  predicate Takes(rule: Rule, u: ParsedUrl, action: Action, key: Bytes) {
    Applies(rule, u) && rule.action == action && ContainsCi(rule.parameters, key)
  }

  /** A pair as the applying rules leave it. */
  function Shown(rules: seq<Rule>, u: ParsedUrl, p: Pair): Pair {
    if Masked(rules, u, p.key) then Pair(p.key, Redacted()) else p
  }

  /** No applying rule removes the pair, and as the rules leave it, it does not look like a secret. */
  predicate Survives(o: Options, rules: seq<Rule>, entropy: Bytes -> real, u: ParsedUrl, p: Pair) {
    !Removed(rules, u, p.key) && !LooksLikeSecret(o, entropy, Shown(rules, u, p))
  }

  function Survivors(o: Options, rules: seq<Rule>, entropy: Bytes -> real, u: ParsedUrl, query: seq<Pair>): seq<Pair> {
    if query == [] then []
    else
      (if Survives(o, rules, entropy, u, query[0]) then [Shown(rules, u, query[0])] else [])
      + Survivors(o, rules, entropy, u, query[1..])
  }

  lemma SameApplies(u: ParsedUrl, v: ParsedUrl)
    requires v.host == u.host && v.path == u.path
    ensures forall r :: Applies(r, v) == Applies(r, u)
    ensures forall r :: Cuts(r, v) == Cuts(r, u)
    ensures forall r, a, k :: Takes(r, v, a, k) == Takes(r, u, a, k)
  {
    hide AnyGlob, ContainsCi;
  }

  lemma LaterFromNothing(u: ParsedUrl, v: ParsedUrl)
    requires Later(u, v) && u.query == [] && Bare(u.path)
    ensures v.query == [] && Bare(v.path)
  {
    NothingFromNothing(v.query);
  }

  lemma {:induction false} FoldCuts(rules: seq<Rule>, u: ParsedUrl)
    requires Fold(rules, u).Some? && Cut(rules, u)
    ensures Fold(rules, u).value.query == [] && Bare(Fold(rules, u).value.path)
  {
    hide Later, FilterQuery, AnyGlob, ContainsCi;
    var v := Apply(rules[0], u).url;
    FoldIsLater(rules[1..], v);
    if Cuts(rules[0], u) {
      LaterFromNothing(v, Fold(rules, u).value);
    } else {
      SameApplies(u, v);
      var i :| 0 <= i < |rules| && Cuts(rules[i], u);
      assert rules[1..][i - 1] == rules[i];
      FoldCuts(rules[1..], v);
    }
  }

  /** The first of the rules, seen apart from the others. */
  lemma FirstOfRules(rules: seq<Rule>, u: ParsedUrl)
    requires rules != []
    ensures Cut(rules, u) == (Cuts(rules[0], u) || Cut(rules[1..], u))
    ensures forall k :: Removed(rules, u, k) == (Takes(rules[0], u, RemoveParameter, k) || Removed(rules[1..], u, k))
    ensures forall k :: Masked(rules, u, k) == (Takes(rules[0], u, MaskParameter, k) || Masked(rules[1..], u, k))
  {
    hide Cuts, Takes;
    assert forall i :: 0 < i < |rules| ==> rules[1..][i - 1] == rules[i];
  }

  lemma SameRules(rules: seq<Rule>, u: ParsedUrl, v: ParsedUrl)
    requires v.host == u.host && v.path == u.path
    ensures Cut(rules, v) == Cut(rules, u)
    ensures forall k :: Removed(rules, v, k) == Removed(rules, u, k) && Masked(rules, v, k) == Masked(rules, u, k)
  {
    SameApplies(u, v);
    hide Cuts, Takes;
  }

  /** Where nothing cuts, the fold and the secret check leave the survivors. */
  lemma {:induction false} FoldKeeps(o: Options, rules: seq<Rule>, entropy: Bytes -> real, u: ParsedUrl)
    requires Fold(rules, u).Some? && !Cut(rules, u)
    ensures var v := Fold(rules, u).value;
            v == u.(query := v.query)
            && Unsuspected(o, entropy, v.query) == Survivors(o, rules, entropy, u, u.query)
  {
    hide FilterQuery, LooksLikeSecret, Cut, Removed, Masked;
    if rules == [] {
      SurvivorsOfNothing(o, entropy, u, u.query);
    } else {
      var v := Apply(rules[0], u).url;
      FirstOfRules(rules, u);
      KeptPath(rules[0], u);
      SameRules(rules[1..], u, v);
      hide Apply, Survivors, Unsuspected;
      FoldKeeps(o, rules[1..], entropy, v);
      SurvivorStep(o, rules, entropy, u, v, u.query);
    }
  }

  /** A rule that neither excludes nor cuts filters the query, or leaves the URL alone. */
  function Sieved(rule: Rule, u: ParsedUrl, query: seq<Pair>): seq<Pair> {
    if Applies(rule, u) && (rule.action == RemoveParameter || rule.action == MaskParameter) then FilterQuery(rule, query)
    else query
  }

  lemma KeptPath(rule: Rule, u: ParsedUrl)
    requires Apply(rule, u).Keep? && !Cuts(rule, u)
    ensures Apply(rule, u).url == u.(query := Sieved(rule, u, u.query))
  {
    hide FilterQuery, AnyGlob, Names;
  }

  lemma {:induction false} SurvivorsOfNothing(o: Options, entropy: Bytes -> real, u: ParsedUrl, query: seq<Pair>)
    ensures Unsuspected(o, entropy, query) == Survivors(o, [], entropy, u, query)
  {
    hide LooksLikeSecret;
    if query != [] {
      SurvivorsOfNothing(o, entropy, u, query[1..]);
    }
  }

  /** What the first rule makes of one pair, judged by the rest, is what all of them make of it. */
  lemma SurvivorOfPair(o: Options, rules: seq<Rule>, entropy: Bytes -> real, u: ParsedUrl, v: ParsedUrl, p: Pair)
    requires rules != [] && v.host == u.host && v.path == u.path
    ensures Survivors(o, rules[1..], entropy, v, Sieved(rules[0], u, [p]))
            == if Survives(o, rules, entropy, u, p) then [Shown(rules, u, p)] else []
  {
    hide LooksLikeSecret, ContainsCi, Applies, Removed, Masked, Redacted;
    FirstOfRules(rules, u);
    SameRules(rules[1..], u, v);
    OnePair(rules[0], p);
    forall q: Pair
      ensures Survivors(o, rules[1..], entropy, v, [q])
              == if Survives(o, rules[1..], entropy, v, q) then [Shown(rules[1..], v, q)] else []
    {
      assert [q][1..] == [];
    }
  }

  lemma {:induction false} SurvivorsAppend(
    o: Options, rules: seq<Rule>, entropy: Bytes -> real, u: ParsedUrl, a: seq<Pair>, b: seq<Pair>)
    ensures Survivors(o, rules, entropy, u, a + b)
            == Survivors(o, rules, entropy, u, a) + Survivors(o, rules, entropy, u, b)
  {
    hide Survives, Shown;
    if a == [] {
      assert a + b == b;
    } else {
      assert (a + b)[0] == a[0] && (a + b)[1..] == a[1..] + b;
      SurvivorsAppend(o, rules, entropy, u, a[1..], b);
    }
  }

  lemma {:induction false} SurvivorStep(
    o: Options, rules: seq<Rule>, entropy: Bytes -> real, u: ParsedUrl, v: ParsedUrl, query: seq<Pair>)
    requires rules != [] && v.host == u.host && v.path == u.path
    ensures Survivors(o, rules[1..], entropy, v, Sieved(rules[0], u, query)) == Survivors(o, rules, entropy, u, query)
  {
    if query != [] {
      hide Survives, Shown, Applies;
      SurvivorStep(o, rules, entropy, u, v, query[1..]);
      SurvivorOfPair(o, rules, entropy, u, v, query[0]);
      SievedAppend(rules[0], u, query);
      SurvivorsAppend(o, rules[1..], entropy, v, Sieved(rules[0], u, [query[0]]), Sieved(rules[0], u, query[1..]));
    }
  }

  lemma SievedAppend(rule: Rule, u: ParsedUrl, query: seq<Pair>)
    requires query != []
    ensures Sieved(rule, u, query) == Sieved(rule, u, [query[0]]) + Sieved(rule, u, query[1..])
  {
    assert query == [query[0]] + query[1..];
    FilterAppend(rule, [query[0]], query[1..]);
  }

  /** The record that is printed, told from the parsed URL. */
  lemma FinalOfInput(o: Options, rules: seq<Rule>, entropy: Bytes -> real, u: ParsedUrl)
    requires Final(o, rules, entropy, u).Some?
    ensures var f := Final(o, rules, entropy, u).value;
            && (o.stripAllQuery || Cut(rules, u) ==> f.query == [])
            && (Cut(rules, u) ==> Bare(f.path))
            && (!Cut(rules, u) ==>
                  f == u.(userinfo := if o.stripUserinfo then [] else u.userinfo,
                          fragment := if o.stripFragments then [] else u.fragment,
                          query := if o.stripAllQuery then [] else Survivors(o, rules, entropy, u, u.query)))
  {
    StripGoes(o, u);
    var s := Strip(o, u).url;
    SameRules(rules, u, s);
    hide Strip, HostBlocked, Fold, Cut, LooksLikeSecret;
    if Cut(rules, u) {
      FoldCuts(rules, s);
    } else {
      FoldKeeps(o, rules, entropy, s);
      SameSurvivors(o, rules, entropy, u, s, u.query);
      FinalIsLater(o, rules, entropy, u);
      NothingFromNothing(Final(o, rules, entropy, u).value.query);
    }
  }

  lemma {:induction false} SameSurvivors(
    o: Options, rules: seq<Rule>, entropy: Bytes -> real, u: ParsedUrl, v: ParsedUrl, query: seq<Pair>)
    requires v.host == u.host && v.path == u.path
    ensures Survivors(o, rules, entropy, v, query) == Survivors(o, rules, entropy, u, query)
  {
    SameRules(rules, u, v);
    hide Removed, Masked, LooksLikeSecret;
    if query != [] {
      SameSurvivors(o, rules, entropy, u, v, query[1..]);
    }
  }

  /** Where a rule cuts, such as the built-in one for reset links, neither path nor query gets through. */
  lemma CutLinksLeaveNothing(o: Options, rules: seq<Rule>, entropy: Bytes -> real, url: Bytes)
    requires Parse(url).Ok? && Parse(url).value.scheme != [] && Parse(url).value.scheme != FileScheme()
    requires Cut(rules, Parse(url).value) && !Sanitize(o, rules, entropy, url).excluded
    ensures var w := Parse(Sanitize(o, rules, entropy, url).url);
            w.Ok? && w.value.query == [] && Bare(w.value.path)
  {
    NoUrlFromNothing();
    hide *;
    var u := Parse(url).value;
    SanitizePrintsFinal(o, rules, entropy, url);
    FinalOfInput(o, rules, entropy, u);
    CutIsPrintable(o, rules, entropy, url);
    var f := Final(o, rules, entropy, u).value;
    ParseOfPrint(f);
    ReadAgainKeeps(f);
  }

  lemma ReadAgainKeeps(u: ParsedUrl)
    ensures var v := ReadAgain(u);
            && v == u.(host := HostAgain(u).host, port := HostAgain(u).port, query := Trim(u.query))
            && (u.query == [] ==> v.query == [])
  {
    hide HostAgain;
  }

  lemma CutIsPrintable(o: Options, rules: seq<Rule>, entropy: Bytes -> real, url: Bytes)
    requires Parse(url).Ok? && Final(o, rules, entropy, Parse(url).value).Some?
    requires var f := Final(o, rules, entropy, Parse(url).value).value; f.query == [] && Bare(f.path)
    ensures var u, f := Parse(url).value, Final(o, rules, entropy, Parse(url).value).value;
            Shaped(f) && PathPlain(f.path) && f.scheme == u.scheme && f.host == u.host && f.port == u.port
  {
    hide Final, Parse, SchemeShaped, PairsFrom, Strip, IsAuthorityText;
    var u := Parse(url).value;
    ParseIsShaped(url);
    StripGoes(o, u);
    FinalIsLater(o, rules, entropy, u);
    ShapedAfterStrip(o, u);
    assert AuthorityShaped(AuthorityOf(Strip(o, u).url));
  }

  /** Where nothing cuts, the survivors are printed, in order, and otherwise the URL only loses what the options strip. */
  lemma SurvivorsArePrinted(o: Options, rules: seq<Rule>, entropy: Bytes -> real, url: Bytes)
    requires url != [] && Parse(url).Ok? && Parse(url).value.scheme != FileScheme()
    requires !Cut(rules, Parse(url).value)
    ensures var u, r := Parse(url).value, Sanitize(o, rules, entropy, url);
            if HostBlocked(o, u.host) || exists i :: 0 <= i < |rules| && Applies(rules[i], u) && rules[i].action == ExcludeTab
            then r.excluded && r.url == url
            else !r.excluded
                 && r.url == Print(u.(userinfo := if o.stripUserinfo then [] else u.userinfo,
                                      fragment := if o.stripFragments then [] else u.fragment,
                                      query := if o.stripAllQuery then []
                                               else Survivors(o, rules, entropy, u, u.query)))
  {
    var u := Parse(url).value;
    StripGoes(o, u);
    var s := Strip(o, u).url;
    SameRules(rules, u, s);
    SameApplies(u, s);
    hide Parse, Sanitize, Print, FileScheme, Strip, Applies, HostBlocked, LooksLikeSecret, Fold, Survivors, Cut;
    FoldExcludes(rules, s);
    SanitizePrintsFinal(o, rules, entropy, url);
    if Final(o, rules, entropy, u).Some? {
      FinalOfInput(o, rules, entropy, u);
    }
  }

  lemma {:induction false} FoldExcludes(rules: seq<Rule>, u: ParsedUrl)
    requires !Cut(rules, u)
    ensures Fold(rules, u).None? <==> exists i :: 0 <= i < |rules| && Applies(rules[i], u) && rules[i].action == ExcludeTab
  {
    if rules != [] {
      hide Cut, FilterQuery, AnyGlob, Names;
      FirstOfRules(rules, u);
      if Apply(rules[0], u).Exclude? {
        assert Applies(rules[0], u) && rules[0].action == ExcludeTab;
      } else {
        var v := Apply(rules[0], u).url;
        KeptPath(rules[0], u);
        SameRules(rules[1..], u, v);
        SameApplies(u, v);
        FoldExcludes(rules[1..], v);
        assert !(Applies(rules[0], u) && rules[0].action == ExcludeTab);
        hide Apply, Applies;
        assert forall i :: 0 < i < |rules| ==> rules[1..][i - 1] == rules[i];
      }
    }
  }

  // ---------------------------------------------------------------- when sanitizing twice changes nothing

  /** The last pair of the query that survives is wholly empty. */
  predicate EmptySurvivesLast(
    o: Options, rules: seq<Rule>, entropy: Bytes -> real, u: ParsedUrl, query: seq<Pair>)
  {
    exists i :: 0 <= i < |query| && query[i] == EMPTY_PAIR
      && Survives(o, rules, entropy, u, EMPTY_PAIR) && !Masked(rules, u, [])
      && forall j :: i < j < |query| ==> !Survives(o, rules, entropy, u, query[j])
  }

  lemma {:induction false} NoSurvivors(
    o: Options, rules: seq<Rule>, entropy: Bytes -> real, u: ParsedUrl, query: seq<Pair>)
    ensures Survivors(o, rules, entropy, u, query) == []
       <==> forall j :: 0 <= j < |query| ==> !Survives(o, rules, entropy, u, query[j])
  {
    hide Survives, Shown;
    if query != [] {
      NoSurvivors(o, rules, entropy, u, query[1..]);
      assert forall j :: 0 < j < |query| ==> query[1..][j - 1] == query[j];
    }
  }

  lemma EmptyStaysEmpty(rules: seq<Rule>, u: ParsedUrl, p: Pair)
    ensures Shown(rules, u, p) == EMPTY_PAIR <==> p == EMPTY_PAIR && !Masked(rules, u, [])
  {
    hide Masked;
    assert Redacted() != [];
  }

  lemma {:induction false} LastSurvivor(
    o: Options, rules: seq<Rule>, entropy: Bytes -> real, u: ParsedUrl, query: seq<Pair>)
    ensures EndsEmpty(Survivors(o, rules, entropy, u, query)) <==> EmptySurvivesLast(o, rules, entropy, u, query)
  {
    hide Survives, Shown, Masked;
    if query != [] {
      var rest := query[1..];
      assert forall j :: 0 < j < |query| ==> rest[j - 1] == query[j];
      LastSurvivor(o, rules, entropy, u, rest);
      NoSurvivors(o, rules, entropy, u, rest);
      EmptyStaysEmpty(rules, u, query[0]);
      LaterOrFirst(o, rules, entropy, u, query);
    }
  }

  /** The last survivor of a non-empty query stands in its tail, or is the first pair. */
  lemma LaterOrFirst(o: Options, rules: seq<Rule>, entropy: Bytes -> real, u: ParsedUrl, query: seq<Pair>)
    requires query != []
    ensures EmptySurvivesLast(o, rules, entropy, u, query)
       <==> || EmptySurvivesLast(o, rules, entropy, u, query[1..])
            || (query[0] == EMPTY_PAIR && Survives(o, rules, entropy, u, EMPTY_PAIR) && !Masked(rules, u, [])
                && forall j :: 0 <= j < |query[1..]| ==> !Survives(o, rules, entropy, u, query[1..][j]))
  {
    hide Survives, Masked;
    var rest := query[1..];
    assert forall j :: 0 < j < |query| ==> rest[j - 1] == query[j];
    assert forall j :: 0 <= j < |rest| ==> query[j + 1] == rest[j];
    if EmptySurvivesLast(o, rules, entropy, u, rest) {
      var i :| 0 <= i < |rest| && rest[i] == EMPTY_PAIR && forall j :: i < j < |rest| ==> !Survives(o, rules, entropy, u, rest[j]);
      assert query[i + 1] == EMPTY_PAIR;
    }
    if EmptySurvivesLast(o, rules, entropy, u, query) {
      var i :| 0 <= i < |query| && query[i] == EMPTY_PAIR && forall j :: i < j < |query| ==> !Survives(o, rules, entropy, u, query[j]);
      assert i > 0 ==> rest[i - 1] == EMPTY_PAIR;
    }
  }

  /**
   * Sanitizing an unexcluded result again leaves it alone exactly when the query is stripped, a rule cuts
   * the URL, or the last pair of the query that survives is not wholly empty.
   */
  lemma WebTwice(o: Options, rules: seq<Rule>, entropy: Bytes -> real, url: Bytes)
    requires WebUrl(url) && Tame(rules, Parse(url).value) && Parse(url).value.scheme != FileScheme()
    requires !Sanitize(o, rules, entropy, url).excluded
    ensures var u, once := Parse(url).value, Sanitize(o, rules, entropy, url);
            var twice := Sanitize(o, rules, entropy, once.url);
            && !twice.excluded
            && (twice.url == once.url <==>
                  o.stripAllQuery || Cut(rules, u) || !EmptySurvivesLast(o, rules, entropy, u, u.query))
  {
    EmptyEndsNowhere();
    SchemeOf(url);
    hide *;
    var u := Parse(url).value;
    TwiceByFinal(o, rules, entropy, url);
    FinalOfInput(o, rules, entropy, u);
    LastSurvivor(o, rules, entropy, u, u.query);
  }

  lemma EmptyEndsNowhere()
    ensures !EndsEmpty([])
  {
  }

  /** In particular nothing changes where the query has no wholly empty pair. */
  lemma WebTwiceWithoutEmptyPairs(o: Options, rules: seq<Rule>, entropy: Bytes -> real, url: Bytes)
    requires WebUrl(url) && Tame(rules, Parse(url).value) && Parse(url).value.scheme != FileScheme()
    requires !Sanitize(o, rules, entropy, url).excluded && EMPTY_PAIR !in Parse(url).value.query
    ensures var once := Sanitize(o, rules, entropy, url); Sanitize(o, rules, entropy, once.url).url == once.url
  {
    NothingEmptyLast(o, rules, entropy, Parse(url).value);
    hide *;
    WebTwice(o, rules, entropy, url);
  }

  lemma NothingEmptyLast(o: Options, rules: seq<Rule>, entropy: Bytes -> real, u: ParsedUrl)
    requires EMPTY_PAIR !in u.query
    ensures !EmptySurvivesLast(o, rules, entropy, u, u.query)
  {
    hide Survives;
  }

  // ---------------------------------------------------------------- the built-in rules

  function Words(words: seq<string>): seq<Bytes> { seq(|words|, i requires 0 <= i < |words| => Ascii(words[i])) }

  function OauthRule(): Rule {
    Rule(Ascii("oauth"), RemoveParameter,
         Words(["access_token", "id_token", "refresh_token", "code", "code_verifier", "client_secret",
                "state", "nonce", "assertion", "authuser"]), [], [], true)
  }

  function SessionRule(): Rule {
    Rule(Ascii("session"), RemoveParameter,
         Words(["session", "sessionid", "session_id", "sid", "sessid", "phpsessid", "jsessionid",
                "csrf", "csrf_token", "xsrf", "auth", "authorization", "api_key", "apikey", "token",
                "key", "password", "passwd", "pwd", "secret", "signature", "sig"]), [], [], true)
  }

  function StorageRule(): Rule {
    Rule(Ascii("presigned-storage"), RemoveParameter,
         Words(["x-amz-signature", "x-amz-credential", "x-amz-security-token", "x-goog-signature",
                "sig", "se", "sp", "sv", "sr", "st", "skoid"]),
         Words(["*.amazonaws.com", "*.blob.core.windows.net", "*.googleapis.com",
                "storage.googleapis.com", "*.r2.cloudflarestorage.com"]), [], true)
  }

  function ResetRule(): Rule {
    Rule(Ascii("reset-links"), TruncatePath, [], [],
         Words(["*/reset*", "*/verify*", "*/magic*", "*/invite/*", "*/confirm/*", "*/activate/*",
                "*/unsubscribe/*", "*/set-password*"]), true)
  }

  function MeetingRule(): Rule {
    Rule(Ascii("meeting-passcodes"), RemoveParameter,
         Words(["pwd", "passcode", "password", "pw", "k", "tk"]),
         Words(["*.zoom.us", "zoom.us", "teams.microsoft.com", "meet.google.com", "*.webex.com",
                "*.whereby.com"]), [], true)
  }

  function TrackerRule(): Rule {
    Rule(Ascii("trackers"), RemoveParameter,
         Words(["utm_source", "utm_medium", "utm_campaign", "utm_term", "utm_content", "utm_id",
                "gclid", "dclid", "fbclid", "msclkid", "mc_eid", "mc_cid", "igshid", "ttclid",
                "_hsenc", "_hsmi", "vero_id", "yclid", "twclid", "ref_src"]), [], [], true)
  }

  function LocalFilesRule(): Rule {
    Rule(LocalFiles(), DropUrl, [], Words([""]), [], true)
  }

  function PrivateRule(): Rule {
    Rule(Ascii("private-browsing"), ExcludeTab, [],
         Words(["*.bank*", "*vault*", "*.1password.com", "*.bitwarden.com", "*lastpass.com"]), [], true)
  }

  function DefaultRules(): (rules: seq<Rule>)
    ensures Stable(rules)
  {
    [OauthRule(), SessionRule(), StorageRule(), ResetRule(), MeetingRule(), TrackerRule(), LocalFilesRule(), PrivateRule()]
  }

  function DefaultOptions(): Options { Options(false, true, true, true, 3.5, 20, [], [], []) }

  // ---------------------------------------------------------------- a URL that changes twice

  /** A literal byte of a pattern must stand in every text it matches. */
  lemma {:induction false} LiteralOccurs(pattern: Bytes, text: Bytes, i: nat)
    requires Glob.Matches(pattern, text) && i < |pattern|
    requires pattern[i] != Glob.STAR && pattern[i] != Glob.QUESTION
    ensures exists j :: 0 <= j < |text| && LowerByte(text[j]) == LowerByte(pattern[i])
    decreases |pattern| + |text|
  {
    if pattern[0] == Glob.STAR && Glob.Matches(pattern[1..], text) {
      LiteralOccurs(pattern[1..], text, i - 1);
    } else {
      if pattern[0] == Glob.STAR {
        LiteralOccurs(pattern, text[1..], i);
      } else if i > 0 {
        LiteralOccurs(pattern[1..], text[1..], i - 1);
      } else {
        assert LowerByte(text[0]) == LowerByte(pattern[0]);
      }
      if i > 0 || pattern[0] == Glob.STAR {
        var j :| 0 <= j < |text[1..]| && LowerByte(text[1..][j]) == LowerByte(pattern[i]);
        assert text[j + 1] == text[1..][j];
      }
    }
  }

  /** A literal byte of a pattern keeps it off every text that lacks the byte. */
  lemma NotOn(pattern: Bytes, text: Bytes, i: nat)
    requires i < |pattern| && Glob.STAR !in text
    requires pattern[i] != Glob.STAR && pattern[i] != Glob.QUESTION
    requires forall b <- text :: LowerByte(b) != LowerByte(pattern[i])
    ensures !Glob.Accepts(pattern, text)
  {
    hide Glob.Accepts, Glob.Matches;
    Glob.AcceptsIsMatches(pattern, text);
    if Glob.Matches(pattern, text) {
      LiteralOccurs(pattern, text, i);
    }
  }

  /** No name of the rule is empty, and where it excludes or drops its host patterns all have a literal at 1. */
  predicate Harmless(rule: Rule) {
    && (forall i :: 0 <= i < |rule.parameters| ==> rule.parameters[i] != [])
    && (rule.action == DropUrl ==> rule.id == LocalFiles())
    && (rule.action == ExcludeTab ==>
          rule.hostPatterns != []
          && forall i :: 0 <= i < |rule.hostPatterns| ==>
               |rule.hostPatterns[i]| > 1
               && var b := rule.hostPatterns[i][1]; b != Glob.STAR && b != Glob.QUESTION && LowerByte(b) != 0x68)
  }

  lemma PrivateIsHarmless()
    ensures Harmless(PrivateRule())
  {
    var hosts := PrivateRule().hostPatterns;
    assert |hosts| == 5;
    assert hosts[0][1] == 0x2E && hosts[1][1] == 0x76 && hosts[2][1] == 0x2E && hosts[3][1] == 0x2E && hosts[4][1] == 0x6C;
  }

  lemma OauthIsHarmless()
    ensures Harmless(OauthRule())
  {
  }

  lemma SessionIsHarmless()
    ensures Harmless(SessionRule())
  {
  }

  lemma StorageIsHarmless()
    ensures Harmless(StorageRule())
  {
  }

  lemma ResetIsHarmless()
    ensures Harmless(ResetRule())
  {
  }

  lemma MeetingIsHarmless()
    ensures Harmless(MeetingRule())
  {
  }

  lemma TrackerIsHarmless()
    ensures Harmless(TrackerRule())
  {
  }

  lemma LocalFilesIsHarmless()
    ensures Harmless(LocalFilesRule())
  {
  }

  lemma DefaultRulesAreHarmless()
    ensures forall r <- DefaultRules() :: Harmless(r)
  {
    OauthIsHarmless();
    SessionIsHarmless();
    StorageIsHarmless();
    ResetIsHarmless();
    MeetingIsHarmless();
    TrackerIsHarmless();
    LocalFilesIsHarmless();
    PrivateIsHarmless();
    hide Harmless, OauthRule, SessionRule, StorageRule, ResetRule, MeetingRule, TrackerRule, LocalFilesRule, PrivateRule;
  }

  /** http://h/ with one pair, wholly empty. */
  function EmptyPairUrl(): ParsedUrl {
    ParsedUrl(Ascii("http"), [], [0x68], [], [SLASH], [EMPTY_PAIR], [])
  }

  lemma HarmlessSettled(rule: Rule)
    requires Harmless(rule)
    ensures Settled(rule, EmptyPairUrl())
  {
    hide Glob.Accepts;
    var u := EmptyPairUrl();
    match rule.action
    case ExcludeTab =>
      forall i | 0 <= i < |rule.hostPatterns|
        ensures !Glob.Accepts(rule.hostPatterns[i], u.host)
      {
        NotOn(rule.hostPatterns[i], u.host, 1);
      }
    case DropUrl =>
    case TruncatePath =>
    case _ =>
      OnePair(rule, EMPTY_PAIR);
      assert forall i :: 0 <= i < |rule.parameters| ==> |Lower(rule.parameters[i])| > 0;
  }

  lemma EmptyPairUrlShaped(u: ParsedUrl)
    requires u == EmptyPairUrl().(query := [EMPTY_PAIR, EMPTY_PAIR])
    ensures Shaped(u) && PathPlain(u.path) && u.scheme != [] && ColonKept(u)
  {
    assert forall i :: 0 <= i < 4 ==> u.scheme[i] != COLON;
    assert Lower(u.scheme) == u.scheme && Lower(u.host) == u.host;
    hide FindMark;
    SchemeOfColon(u.scheme);
  }

  /** http://h/?& becomes http://h/? and that becomes http://h/ under the built-in rules. */
  lemma TrailingAmpersand(entropy: Bytes -> real) returns (url: Bytes)
    ensures WebUrl(url)
    ensures url == Print(EmptyPairUrl().(query := [EMPTY_PAIR, EMPTY_PAIR]))
    ensures var once := Sanitize(DefaultOptions(), DefaultRules(), entropy, url);
            !once.excluded && Sanitize(DefaultOptions(), DefaultRules(), entropy, once.url).url != once.url
  {
    var printed := EmptyPairUrl().(query := [EMPTY_PAIR, EMPTY_PAIR]);
    url := Print(printed);
    EmptyPairUrlShaped(printed);
    EmptyPairLast();
    hide *;
    EmptyPairUrlClean(entropy);
    ParseOfPrint(printed);
    CleanIsFinal(DefaultOptions(), DefaultRules(), entropy, EmptyPairUrl());
    EmptyPairUrlIsWeb(url);
    SanitizePrintsFinal(DefaultOptions(), DefaultRules(), entropy, url);
    TwiceByFinal(DefaultOptions(), DefaultRules(), entropy, url);
  }

  lemma EmptyPairLast()
    ensures EmptyPairUrl().query == [EMPTY_PAIR] == Trim([EMPTY_PAIR, EMPTY_PAIR])
    ensures EmptyPairUrl().scheme != FileScheme()
  {
    assert |EmptyPairUrl().scheme| == |FileScheme()| && EmptyPairUrl().scheme[0] != FileScheme()[0];
  }

  lemma EmptyPairUrlIsWeb(url: Bytes)
    requires Hierarchical(url) && Parse(url) == Ok(EmptyPairUrl())
    ensures WebUrl(url) && url != []
  {
    SchemeOf(url);
    hide FindMark, Parse;
  }

  lemma EmptyPairUrlClean(entropy: Bytes -> real)
    ensures Clean(DefaultOptions(), DefaultRules(), entropy, EmptyPairUrl())
  {
    hide DefaultRules, Harmless, Settled;
    DefaultRulesAreHarmless();
    forall r <- DefaultRules()
      ensures Settled(r, EmptyPairUrl())
    {
      HarmlessSettled(r);
    }
  }

  // ---------------------------------------------------------------- the built-in rules on any URL

  lemma ActionsOfRules()
    ensures OauthRule().action == SessionRule().action == StorageRule().action == RemoveParameter
    ensures MeetingRule().action == TrackerRule().action == RemoveParameter && ResetRule().action == TruncatePath
    ensures LocalFilesRule().action == DropUrl && LocalFilesRule().id == LocalFiles()
    ensures PrivateRule().action == ExcludeTab
  {
    hide Ascii, Words;
  }

  /** Only the reset-link rule can cut: the other one that could is left out of the fold. */
  lemma DefaultActions()
    ensures var rules := DefaultRules();
            && |rules| == 8 && rules[3] == ResetRule() && rules[3].action == TruncatePath
            && (forall r <- rules :: r.action != MaskParameter && (r.action == DropUrl ==> r.id == LocalFiles()))
            && (forall r <- rules :: r.action == TruncatePath ==> r == ResetRule())
            && (forall r <- rules :: r.action == ExcludeTab ==> r == PrivateRule())
  {
    ActionsOfRules();
    hide OauthRule, SessionRule, StorageRule, ResetRule, MeetingRule, TrackerRule, LocalFilesRule, PrivateRule;
  }

  lemma DefaultsMaskNothing(u: ParsedUrl, key: Bytes)
    ensures !Masked(DefaultRules(), u, key)
  {
    DefaultActions();
    hide DefaultRules, ResetRule, Applies, ContainsCi;
  }

  lemma DefaultsNameNothing(u: ParsedUrl)
    ensures !Removed(DefaultRules(), u, [])
  {
    DefaultRulesAreHarmless();
    hide DefaultRules, Applies;
    forall i | 0 <= i < |DefaultRules()|
      ensures !Takes(DefaultRules()[i], u, RemoveParameter, [])
    {
      assert DefaultRules()[i] in DefaultRules();
      HarmlessNamesNothing(DefaultRules()[i]);
    }
  }

  lemma HarmlessNamesNothing(rule: Rule)
    requires Harmless(rule)
    ensures !ContainsCi(rule.parameters, [])
  {
    assert forall i :: 0 <= i < |rule.parameters| ==> |Lower(rule.parameters[i])| > 0;
  }

  /** A built-in rule for the URL names the parameter, or its value looks like a secret. */
  predicate Goes(entropy: Bytes -> real, u: ParsedUrl, p: Pair) {
    Removed(DefaultRules(), u, p.key) || LooksLikeSecret(DefaultOptions(), entropy, p)
  }

  lemma DefaultSurvival(entropy: Bytes -> real, u: ParsedUrl)
    ensures forall p :: Shown(DefaultRules(), u, p) == p
    ensures forall p :: Survives(DefaultOptions(), DefaultRules(), entropy, u, p) <==> !Goes(entropy, u, p)
    ensures !Goes(entropy, u, EMPTY_PAIR)
  {
    DefaultsNameNothing(u);
    forall key
      ensures !Masked(DefaultRules(), u, key)
    {
      DefaultsMaskNothing(u, key);
    }
    hide Masked, Removed, DefaultRules, Redacted, ContainsCi, TokenShaped;
  }

  lemma DefaultCut(u: ParsedUrl)
    ensures Cut(DefaultRules(), u) <==> Applies(ResetRule(), u) && !Bare(u.path)
  {
    DefaultActions();
    hide DefaultRules, ResetRule, AnyGlob, Bare;
    if Applies(ResetRule(), u) && !Bare(u.path) {
      assert Cuts(DefaultRules()[3], u);
    }
  }

  /** The query holds a wholly empty pair after which every pair goes. */
  predicate OnlyGoneAfterEmpty(entropy: Bytes -> real, u: ParsedUrl, query: seq<Pair>) {
    exists i :: 0 <= i < |query| && query[i] == EMPTY_PAIR
      && forall j :: i < j < |query| ==> Goes(entropy, u, query[j])
  }

  /**
   * With the built-in rules and options, sanitizing an unexcluded result again changes it exactly when the
   * reset-link rule does not cut the URL and the query holds a wholly empty pair after which every pair goes.
   */
  lemma DefaultWebTwice(entropy: Bytes -> real, url: Bytes)
    requires WebUrl(url) && Parse(url).value.scheme != FileScheme()
    requires !Sanitize(DefaultOptions(), DefaultRules(), entropy, url).excluded
    ensures var u, once := Parse(url).value, Sanitize(DefaultOptions(), DefaultRules(), entropy, url);
            Sanitize(DefaultOptions(), DefaultRules(), entropy, once.url).url == once.url
            <==> (Applies(ResetRule(), u) && !Bare(u.path)) || !OnlyGoneAfterEmpty(entropy, u, u.query)
  {
    SchemeOf(url);
    hide *;
    var u := Parse(url).value;
    WebTwice(DefaultOptions(), DefaultRules(), entropy, url);
    DefaultCut(u);
    DefaultEmptyLast(entropy, u);
    DefaultKeepsQuery();
  }

  lemma DefaultKeepsQuery()
    ensures !DefaultOptions().stripAllQuery
  {
  }

  lemma DefaultEmptyLast(entropy: Bytes -> real, u: ParsedUrl)
    ensures EmptySurvivesLast(DefaultOptions(), DefaultRules(), entropy, u, u.query)
       <==> OnlyGoneAfterEmpty(entropy, u, u.query)
  {
    DefaultSurvival(entropy, u);
    DefaultsMaskNothing(u, []);
    hide DefaultRules, DefaultOptions, Goes, Survives, Masked;
  }

  /** No user info, no fragment, no parameter a built-in rule names for the host, no value like a secret. */
  predicate Secretless(entropy: Bytes -> real, u: ParsedUrl) {
    u.userinfo == [] && u.fragment == [] && forall p <- u.query :: !Goes(entropy, u, p)
  }

  /** What a URL without "://" reads as once "://" has been put behind its scheme. */
  function OpaqueAgain(u: ParsedUrl): ParsedUrl { ParseHierarchical(u.scheme, u.path) }

  /** The URL with the host it has once it was printed. */
  function Rehosted(u: ParsedUrl): ParsedUrl { u.(host := HostAgain(u).host) }

  /**
   * Where the guarantee of the built-in rules holds: the reset-link rule cuts the URL; or no parameter stays
   * that is named only for the host which appears when a colon is lost; or, as no rule but that one changes a
   * text without "://", the rest of such a text, read as authority, path and query the way its next reader
   * will, holds nothing that would have to go.
   */
  predicate Covered(entropy: Bytes -> real, url: Bytes)
    requires Parse(url).Ok?
  {
    var u := Parse(url).value;
    || Cut(DefaultRules(), u)
    || (if Hierarchical(url)
        then forall p <- u.query :: Removed(DefaultRules(), Rehosted(u), p.key) ==> Goes(entropy, u, p)
        else Secretless(entropy, OpaqueAgain(u)))
  }

  /**
   * For every URL with a scheme, the text that comes out reads as a URL, and it keeps no secret exactly when
   * the URL is covered: a cut by the reset-link rule, no parameter named only for the host that appears when
   * a colon is lost to an empty port, and for a text without "://" nothing to remove in the first place.
   */
  lemma DefaultsLeaveNoSecrets(entropy: Bytes -> real, url: Bytes)
    requires Parse(url).Ok? && Parse(url).value.scheme != [] && Parse(url).value.scheme != FileScheme()
    requires !Sanitize(DefaultOptions(), DefaultRules(), entropy, url).excluded
    ensures var w := Sanitize(DefaultOptions(), DefaultRules(), entropy, url).url;
            Parse(w).Ok? && (Secretless(entropy, Parse(w).value) <==> Covered(entropy, url))
    ensures Hierarchical(url) && ColonKept(Parse(url).value) ==> Covered(entropy, url)
  {
    NoUrlFromNothing();
    ShapedAsParsed(url);
    hide *;
    var o, rules, u := DefaultOptions(), DefaultRules(), Parse(url).value;
    SanitizePrintsFinal(o, rules, entropy, url);
    FinalOfInput(o, rules, entropy, u);
    var f := Final(o, rules, entropy, u).value;
    DefaultStrips(entropy, u);
    if Cut(rules, u) {
      CutIsPrintable(o, rules, entropy, url);
      ParseOfPrint(f);
      ReadAgainKeeps(f);
      NothingIsSecretless(entropy, ReadAgain(f));
      CutIsCovered(entropy, url);
    } else if Hierarchical(url) {
      FinalIsPrintable(o, rules, entropy, url);
      ParseOfPrint(f);
      SurvivorsReadAgain(entropy, u, f);
      WebIsCovered(entropy, url);
    } else {
      OpaqueIsPrinted(entropy, url, f);
      OpaqueIsCovered(entropy, url);
    }
    if Hierarchical(url) && ColonKept(u) {
      KeptColonIsCovered(entropy, url);
    }
  }

  lemma ShapedAsParsed(url: Bytes)
    requires Parse(url).Ok?
    ensures Shaped(Parse(url).value)
  {
    ParseIsShaped(url);
  }

  lemma DefaultStrips(entropy: Bytes -> real, u: ParsedUrl)
    requires Final(DefaultOptions(), DefaultRules(), entropy, u).Some?
    ensures var f := Final(DefaultOptions(), DefaultRules(), entropy, u).value; f.userinfo == [] && f.fragment == []
    ensures DefaultOptions().stripUserinfo && DefaultOptions().stripFragments && !DefaultOptions().stripAllQuery
  {
    hide DefaultRules, PairsFrom;
    StripGoes(DefaultOptions(), u);
    FinalIsLater(DefaultOptions(), DefaultRules(), entropy, u);
  }

  lemma NothingIsSecretless(entropy: Bytes -> real, u: ParsedUrl)
    requires u.userinfo == [] && u.fragment == [] && u.query == []
    ensures Secretless(entropy, u)
  {
  }

  lemma CutIsCovered(entropy: Bytes -> real, url: Bytes)
    requires Parse(url).Ok? && Cut(DefaultRules(), Parse(url).value)
    ensures Covered(entropy, url)
  {
  }

  lemma WebIsCovered(entropy: Bytes -> real, url: Bytes)
    requires Parse(url).Ok? && !Cut(DefaultRules(), Parse(url).value) && Hierarchical(url)
    ensures var u := Parse(url).value;
            Covered(entropy, url) <==>
              forall p <- u.query :: Removed(DefaultRules(), Rehosted(u), p.key) ==> Goes(entropy, u, p)
  {
    hide Cut, Removed, Goes, Parse;
  }

  lemma OpaqueIsCovered(entropy: Bytes -> real, url: Bytes)
    requires Parse(url).Ok? && !Cut(DefaultRules(), Parse(url).value) && !Hierarchical(url)
    ensures Covered(entropy, url) <==> Secretless(entropy, OpaqueAgain(Parse(url).value))
  {
    hide Cut, Removed, Goes, Parse;
  }

  lemma KeptColonIsCovered(entropy: Bytes -> real, url: Bytes)
    requires Parse(url).Ok? && Hierarchical(url) && ColonKept(Parse(url).value) && Shaped(Parse(url).value)
    ensures Covered(entropy, url)
  {
    var u := Parse(url).value;
    ReadAgainKeepsHost(u);
    assert Rehosted(u) == u;
    hide Cut, Removed, LooksLikeSecret, Parse;
  }

  lemma {:induction false} SurvivorsAre(entropy: Bytes -> real, u: ParsedUrl, query: seq<Pair>)
    ensures forall p :: p in Survivors(DefaultOptions(), DefaultRules(), entropy, u, query)
                        <==> p in query && !Goes(entropy, u, p)
  {
    DefaultSurvival(entropy, u);
    hide DefaultRules, DefaultOptions, Survives, Shown, Goes;
    if query != [] {
      SurvivorsAre(entropy, u, query[1..]);
      assert query == [query[0]] + query[1..];
    }
  }

  lemma TrimKeepsOthers(query: seq<Pair>)
    ensures forall p :: p in query <==> p in Trim(query) || (p == EMPTY_PAIR && p in query)
  {
    assert EndsEmpty(query) ==> query == Trim(query) + [EMPTY_PAIR];
  }

  /** What is left of a URL with "://" that no rule cuts, once printed and read again. */
  lemma SurvivorsReadAgain(entropy: Bytes -> real, u: ParsedUrl, f: ParsedUrl)
    requires f == u.(userinfo := [], fragment := [],
                     query := Survivors(DefaultOptions(), DefaultRules(), entropy, u, u.query))
    ensures Secretless(entropy, ReadAgain(f)) <==>
              forall p <- u.query :: Removed(DefaultRules(), Rehosted(u), p.key) ==> Goes(entropy, u, p)
  {
    hide *;
    var v := ReadAgain(f);
    SurvivorsAre(entropy, u, u.query);
    TrimKeepsOthers(f.query);
    DefaultsNameNothing(Rehosted(u));
    ReadAgainKeeps(f);
    SameColon(u, f);
    RehostedHost(u);
    SameRules(DefaultRules(), Rehosted(u), v);
    if forall p <- u.query :: Removed(DefaultRules(), Rehosted(u), p.key) ==> Goes(entropy, u, p) {
      forall p <- v.query
        ensures !Goes(entropy, v, p)
      {
        GoesByHost(entropy, u, v, p);
      }
    }
    if forall p <- v.query :: !Goes(entropy, v, p) {
      forall p <- u.query | Removed(DefaultRules(), Rehosted(u), p.key)
        ensures Goes(entropy, u, p)
      {
        if !Goes(entropy, u, p) {
          GoesByHost(entropy, u, v, p);
        }
      }
    }
    SecretlessIs(entropy, v);
  }

  lemma SecretlessIs(entropy: Bytes -> real, u: ParsedUrl)
    ensures Secretless(entropy, u) <==> u.userinfo == [] && u.fragment == [] && forall p <- u.query :: !Goes(entropy, u, p)
  {
    hide Goes;
  }

  lemma RehostedHost(u: ParsedUrl)
    ensures Rehosted(u).host == HostAgain(u).host && Rehosted(u).path == u.path
  {
    hide HostAgain;
  }

  /** Whether a pair that does not go under one host goes under another is up to the names. */
  lemma GoesByHost(entropy: Bytes -> real, u: ParsedUrl, v: ParsedUrl, p: Pair)
    requires !Goes(entropy, u, p)
    ensures Goes(entropy, v, p) <==> Removed(DefaultRules(), v, p.key)
    ensures p == EMPTY_PAIR ==> p.key == []
  {
    hide Removed, LooksLikeSecret;
  }

  lemma OpaqueParts(url: Bytes)
    requires Parse(url).Ok? && !Hierarchical(url)
    ensures var u := Parse(url).value; u == ParsedUrl(u.scheme, [], [], [], u.path, [], [])
  {
  }

  lemma PrintOpaque(u: ParsedUrl)
    requires u == ParsedUrl(u.scheme, [], [], [], u.path, [], []) && u.scheme != []
    ensures Print(u) == u.scheme + SCHEME_MARK + u.path
  {
    assert [] + u.path == u.path;
  }

  lemma ParseAfterMark(scheme: Bytes, rest: Bytes)
    requires SchemeShaped(scheme)
    ensures Parse(scheme + SCHEME_MARK + rest) == Ok(ParseHierarchical(scheme, rest))
  {
    MarkAfterScheme(scheme, rest);
    ShapedSchemeIsLower(scheme);
    hide FindMark, ParseHierarchical;
    var s := scheme + SCHEME_MARK + rest;
    assert s[..|scheme|] == scheme && s[|scheme| + 3..] == rest;
  }

  /** A URL without "://" that no rule cuts is printed as it is, with "://" behind its scheme. */
  lemma OpaqueIsPrinted(entropy: Bytes -> real, url: Bytes, f: ParsedUrl)
    requires Parse(url).Ok? && !Hierarchical(url) && Parse(url).value.scheme != [] && Shaped(Parse(url).value)
    requires var u := Parse(url).value;
             f == u.(userinfo := [], fragment := [],
                     query := Survivors(DefaultOptions(), DefaultRules(), entropy, u, u.query))
    ensures Print(f) == Parse(url).value.scheme + SCHEME_MARK + Parse(url).value.path
    ensures Parse(Print(f)) == Ok(OpaqueAgain(Parse(url).value))
  {
    var u := Parse(url).value;
    OpaqueParts(url);
    assert f == u;
    hide Parse, Print, Hierarchical, ParseHierarchical;
    PrintOpaque(u);
    ParseAfterMark(u.scheme, u.path);
  }

  // ---------------------------------------------------------------- an opaque URL that keeps its secret

  /** "cb?code=S", the path of app:cb?code=S. */
  const OPAQUE_PATH: Bytes := [0x63, 0x62, 0x3F, 0x63, 0x6F, 0x64, 0x65, 0x3D, 0x53]

  const OPAQUE_URL: Bytes := [0x61, 0x70, 0x70, 0x3A] + OPAQUE_PATH

  function OpaqueUrl(): ParsedUrl { ParsedUrl([0x61, 0x70, 0x70], [], [], [], OPAQUE_PATH, [], []) }

  lemma OpaqueUrlParses()
    ensures Parse(OPAQUE_URL) == Ok(OpaqueUrl()) && !Hierarchical(OPAQUE_URL)
  {
    var w := OPAQUE_URL;
    assert forall i :: 0 <= i < |w| ==> w[i] != SLASH;
    assert !(FindMark(w) < |w|);
    assert w[..3] == [0x61, 0x70, 0x70] == Lower([0x61, 0x70, 0x70]) && w[4..] == OPAQUE_PATH;
    assert SLASH !in w[..3] && COLON !in w[..3];
    hide FindMark, IndexOf, Lower;
    IndexIs(w, COLON, 3);
  }

  /** No built-in rule but those for parameters fits it: its path has no slash and its host is empty. */
  lemma OpaqueUrlPasses()
    ensures !Cut(DefaultRules(), OpaqueUrl())
    ensures forall i :: 0 <= i < |DefaultRules()| ==>
              !(Applies(DefaultRules()[i], OpaqueUrl()) && DefaultRules()[i].action == ExcludeTab)
  {
    var u := OpaqueUrl();
    ResetMissesOpaque();
    DefaultCut(u);
    PrivateMissesOpaque();
    DefaultActions();
    hide DefaultRules, Applies, PrivateRule;
  }

  lemma ResetPathsHaveSlash()
    ensures forall i :: 0 <= i < |ResetRule().pathPatterns| ==>
              |ResetRule().pathPatterns[i]| > 1 && ResetRule().pathPatterns[i][1] == SLASH
    ensures ResetRule().pathPatterns != []
  {
    var paths := ResetRule().pathPatterns;
    assert |paths| == 8;
    assert paths[0][1] == paths[1][1] == paths[2][1] == paths[3][1] == SLASH;
    assert paths[4][1] == paths[5][1] == paths[6][1] == paths[7][1] == SLASH;
  }

  lemma ResetMissesOpaque()
    ensures !Applies(ResetRule(), OpaqueUrl())
  {
    ResetPathsHaveSlash();
    hide ResetRule, Glob.Accepts;
    var paths := ResetRule().pathPatterns;
    forall i | 0 <= i < |paths|
      ensures !Glob.Accepts(paths[i], OPAQUE_PATH)
    {
      NotOn(paths[i], OPAQUE_PATH, 1);
    }
  }

  lemma PrivateMissesOpaque()
    ensures !Applies(PrivateRule(), OpaqueUrl())
  {
    PrivateIsHarmless();
    hide Glob.Accepts;
    var hosts := PrivateRule().hostPatterns;
    forall i | 0 <= i < |hosts|
      ensures !Glob.Accepts(hosts[i], [])
    {
      NotOn(hosts[i], [], 1);
    }
  }

  /** app://cb?code=S */
  function LeakedUrl(): ParsedUrl {
    ParsedUrl([0x61, 0x70, 0x70], [], [0x63, 0x62], [], [], [Pair([0x63, 0x6F, 0x64, 0x65], [0x53])], [])
  }

  lemma LeakedUrlPrints()
    ensures Print(LeakedUrl()) == OpaqueUrl().scheme + SCHEME_MARK + OPAQUE_PATH
    ensures LeakedUrl().query == [Pair(Ascii("code"), [0x53])] == Trim(LeakedUrl().query)
  {
    var u := LeakedUrl();
    assert Ascii("code") == [0x63, 0x6F, 0x64, 0x65];
    assert PrintQuery(u.query) == [0x3F, 0x63, 0x6F, 0x64, 0x65, 0x3D, 0x53];
    assert PrintAuthority(u) == [0x63, 0x62];
  }

  lemma TrimmedSame(u: ParsedUrl)
    requires Trim(u.query) == u.query
    ensures u.(query := Trim(u.query)) == u
  {
  }

  lemma LeakedUrlShaped()
    ensures Shaped(LeakedUrl()) && PathPlain(LeakedUrl().path) && LeakedUrl().scheme != [] && ColonKept(LeakedUrl())
  {
    var u := LeakedUrl();
    assert Lower(u.scheme) == u.scheme && Lower(u.host) == u.host;
    hide FindMark;
    SchemeOfColon(u.scheme);
  }

  lemma CodeIsNamed(u: ParsedUrl)
    ensures Removed(DefaultRules(), u, Ascii("code"))
  {
    var words := OauthRule().parameters;
    assert words[3] == Ascii("code");
    assert |OauthRule().id| == 5 && |LocalFiles()| == 11;
    hide Lower, Ascii, Words;
    assert ContainsCi(words, Ascii("code"));
    assert Takes(DefaultRules()[0], u, RemoveParameter, Ascii("code"));
  }

  lemma NotBlocked(host: Bytes)
    ensures !HostBlocked(DefaultOptions(), host)
    ensures DefaultOptions().stripUserinfo && DefaultOptions().stripFragments && !DefaultOptions().stripAllQuery
  {
  }

  lemma OpaqueUrlFields()
    ensures var u := OpaqueUrl(); u == ParsedUrl(u.scheme, [], [], [], OPAQUE_PATH, [], [])
    ensures OpaqueUrl().scheme != [] && OpaqueUrl().scheme != FileScheme() && OPAQUE_URL != []
  {
    assert |OpaqueUrl().scheme| == 3 && |FileScheme()| == 4;
  }

  /** app:cb?code=S comes out as app://cb?code=S, and that carries a parameter the oauth rule names. */
  lemma OpaqueKeepsSecrets(entropy: Bytes -> real)
    ensures var r := Sanitize(DefaultOptions(), DefaultRules(), entropy, OPAQUE_URL);
            && !r.excluded && r.url == OpaqueUrl().scheme + SCHEME_MARK + OPAQUE_PATH
            && Parse(r.url).Ok? && Pair(Ascii("code"), [0x53]) in Parse(r.url).value.query
            && Removed(DefaultRules(), Parse(r.url).value, Ascii("code"))
  {
    OpaqueUrlParses();
    OpaqueUrlFields();
    ShapedAsParsed(OPAQUE_URL);
    LeakedUrlPrints();
    LeakedUrlShaped();
    hide *;
    ParseOfPrint(LeakedUrl());
    OpaqueUrlPasses();
    NotBlocked(OpaqueUrl().host);
    SurvivorsArePrinted(DefaultOptions(), DefaultRules(), entropy, OPAQUE_URL);
    var u := OpaqueUrl();
    OpaqueIsPrinted(entropy, OPAQUE_URL, u.(query := Survivors(DefaultOptions(), DefaultRules(), entropy, u, u.query)));
    CodeIsNamed(LeakedUrl());
    TrimmedSame(LeakedUrl());
  }

  // ---------------------------------------------------------------- why exclusion must look at the host only

  /** Exclude the path /, and truncate every path. */
  function UnstableRules(): seq<Rule> {
    [Rule([1], ExcludeTab, [], [], [[SLASH]], true), Rule([2], TruncatePath, [], [], [], true)]
  }

  function PathUrl(path: Bytes): ParsedUrl { ParsedUrl([0x68], [], [0x68], [], path, [], []) }

  lemma PathUrlParses(path: Bytes)
    requires PathPlain(path)
    ensures WebUrl(Print(PathUrl(path))) && Parse(Print(PathUrl(path))) == Ok(PathUrl(path))
    ensures Parse(Print(PathUrl(path))).value.scheme != FileScheme() && Print(PathUrl(path)) != []
  {
    var u := PathUrl(path);
    assert Lower(u.scheme) == u.scheme && Lower(u.host) == u.host;
    assert |FileScheme()| == 4;
    hide FindMark, Parse, Print;
    SchemeOfColon(u.scheme);
    NoUrlFromNothing();
    ParseOfPrint(u);
    TrimNothing();
    SchemeOf(Print(u));
  }

  lemma UnstableFold(path: Bytes)
    requires path == [SLASH] || path == [SLASH, 0x78]
    ensures Fold(UnstableRules(), PathUrl(path)) == if path == [SLASH] then None else Some(PathUrl([SLASH]))
  {
    var rules, u := UnstableRules(), PathUrl(path);
    SlashFits(path);
    assert |LocalFiles()| == 11;
    hide Glob.Accepts;
    assert SomeGlob([[SLASH]], path) == Glob.Accepts([[SLASH]][0], path);
    assert Applies(rules[0], u) == (path == [SLASH]);
    assert rules[1..] == [rules[1]] && [rules[1]][1..] == [];
    if path != [SLASH] {
      assert Apply(rules[1], u) == Keep(PathUrl([SLASH]), true);
      assert Fold([], PathUrl([SLASH])) == Some(PathUrl([SLASH]));
      assert Fold([rules[1]], u) == Some(PathUrl([SLASH]));
    }
  }

  lemma SlashFits(path: Bytes)
    requires path == [SLASH] || path == [SLASH, 0x78]
    ensures Glob.Accepts([SLASH], path) == (path == [SLASH])
  {
    Glob.AcceptsIsMatches([SLASH], path);
    assert path != [SLASH] ==> path[1..] == [0x78] && !Glob.Matches([SLASH][1..], path[1..]);
    assert Glob.Matches([SLASH], [SLASH]);
  }

  /** A rule that excludes by path can exclude what an earlier sanitizing let through. */
  lemma PathExclusionUnsettles(entropy: Bytes -> real)
    ensures var url := Print(PathUrl([SLASH, 0x78]));
            var once := Sanitize(DefaultOptions(), UnstableRules(), entropy, url);
            && !Stable(UnstableRules()) && WebUrl(url) && !once.excluded
            && Sanitize(DefaultOptions(), UnstableRules(), entropy, once.url).excluded
  {
    var rules := UnstableRules();
    assert rules[0] in rules && !Stable(rules);
    UnstableFold([SLASH]);
    UnstableFold([SLASH, 0x78]);
    hide *;
    PathUrlParses([SLASH]);
    PathUrlParses([SLASH, 0x78]);
    PathUrlFinal(entropy, [SLASH]);
    PathUrlFinal(entropy, [SLASH, 0x78]);
    SanitizePrintsFinal(DefaultOptions(), rules, entropy, Print(PathUrl([SLASH])));
    SanitizePrintsFinal(DefaultOptions(), rules, entropy, Print(PathUrl([SLASH, 0x78])));
  }

  lemma PathUrlFinal(entropy: Bytes -> real, path: Bytes)
    requires PathPlain(path)
    ensures var f := Fold(UnstableRules(), PathUrl(path));
            Final(DefaultOptions(), UnstableRules(), entropy, PathUrl(path))
            == if f.Some? then Some(f.value.(query := Unsuspected(DefaultOptions(), entropy, f.value.query))) else None
  {
    hide Fold, Unsuspected;
    StripGoes(DefaultOptions(), PathUrl(path));
    NotBlocked(PathUrl(path).host);
  }

  // ---------------------------------------------------------------- the methods

  lemma {:induction false} FilterAppend(rule: Rule, a: seq<Pair>, b: seq<Pair>)
    ensures FilterQuery(rule, a + b) == FilterQuery(rule, a) + FilterQuery(rule, b)
  {
    if a == [] {
      assert a + b == b;
    } else {
      hide FilterPair;
      assert (a + b)[0] == a[0] && (a + b)[1..] == a[1..] + b;
      FilterAppend(rule, a[1..], b);
    }
  }

  lemma {:induction false} UnsuspectedAppend(o: Options, entropy: Bytes -> real, a: seq<Pair>, p: Pair)
    ensures Unsuspected(o, entropy, a + [p])
            == Unsuspected(o, entropy, a) + (if LooksLikeSecret(o, entropy, p) then [] else [p])
  {
    hide LooksLikeSecret;
    if a == [] {
      assert a + [p] == [p];
      assert [p][1..] == [];
    } else {
      assert (a + [p])[0] == a[0] && (a + [p])[1..] == a[1..] + [p];
      UnsuspectedAppend(o, entropy, a[1..], p);
    }
  }

  lemma {:induction false} UntouchedQuery(rule: Rule, query: seq<Pair>)
    requires !Names(rule, query)
    ensures FilterQuery(rule, query) == query
  {
    if query != [] {
      assert !ContainsCi(rule.parameters, query[0].key);
      assert forall i :: 0 <= i < |query| - 1 ==> query[1..][i] == query[i + 1];
      UntouchedQuery(rule, query[1..]);
      assert query == [query[0]] + query[1..];
    }
  }

  class Sanitizer {
    var options: Options
    var rules: seq<Rule>
    const entropy: Bytes -> real

    constructor (options: Options, entropy: Bytes -> real)
      ensures this.options == options && this.entropy == entropy && rules == DefaultRules()
    {
      this.options := options;
      this.entropy := entropy;
      rules := DefaultRules();
    }

    method AddRule(rule: Rule)
      modifies `rules
      ensures rules == old(rules) + [rule]
    {
      rules := rules + [rule];
    }

    /** The parameter loop of one rule. */
    method FilterParameters(rule: Rule, query: seq<Pair>) returns (kept: seq<Pair>, applied: bool)
      requires rule.action == RemoveParameter || rule.action == MaskParameter
      ensures applied == Names(rule, query)
      ensures (if applied then kept else query) == FilterQuery(rule, query)
    {
      hide ContainsCi, Redacted;
      kept, applied := [], false;
      for i := 0 to |query|
        invariant applied == Names(rule, query[..i]) && kept == FilterQuery(rule, query[..i])
      {
        var p := query[i];
        assert query[..i + 1] == query[..i] + [p];
        FilterAppend(rule, query[..i], [p]);
        OnePair(rule, p);
        assert Names(rule, query[..i + 1]) == (applied || ContainsCi(rule.parameters, p.key)) by {
          NamesAppend(rule, query[..i], p);
        }
        if !ContainsCi(rule.parameters, p.key) {
          kept := kept + [p];
        } else {
          if rule.action == MaskParameter {
            kept := kept + [Pair(p.key, Redacted())];
          }
          applied := true;
        }
      }
      assert query[..|query|] == query;
      if !applied {
        UntouchedQuery(rule, query);
      }
    }

    /** The catch-all for parameters no rule names. */
    method DropSecrets(query: seq<Pair>, before: seq<Bytes>) returns (kept: seq<Pair>, dropped: nat, applied: seq<Bytes>)
      ensures kept == Unsuspected(options, entropy, query) && dropped == |query| - |kept|
      ensures applied == before + Repeat(Ascii("entropy"), dropped)
    {
      hide LooksLikeSecret, Ascii;
      kept, dropped, applied := [], 0, before;
      for i := 0 to |query|
        invariant kept == Unsuspected(options, entropy, query[..i]) && dropped == i - |kept|
        invariant applied == before + Repeat(Ascii("entropy"), dropped)
      {
        assert query[..i + 1] == query[..i] + [query[i]];
        UnsuspectedAppend(options, entropy, query[..i], query[i]);
        if LooksLikeSecret(options, entropy, query[i]) {
          dropped := dropped + 1;
          applied := applied + [Ascii("entropy")];
        } else {
          kept := kept + [query[i]];
        }
      }
      assert query[..|query|] == query;
    }

    /** The rule loop. */
    method RunRules(u: ParsedUrl, modified: bool, applied: seq<Bytes>) returns (p: Progress)
      ensures p == ApplyAll(rules, u, modified, applied)
    {
      hide Applies, FilterQuery, Names;
      var parsed, m, ids := u, modified, applied;
      assert rules[0..] == rules;
      for i := 0 to |rules|
        invariant ApplyAll(rules, u, modified, applied) == ApplyAll(rules[i..], parsed, m, ids)
      {
        var rule := rules[i];
        assert rules[i..][0] == rule && rules[i..][1..] == rules[i + 1..];
        ghost var effect := Apply(rule, parsed);
        if Applies(rule, parsed) {
          var hit := false;
          match rule.action {
            case ExcludeTab =>
              return Stopped(ids + [rule.id]);
            case DropUrl =>
              parsed := parsed.(path := [], query := [], fragment := []);
              hit := true;
            case TruncatePath =>
              if parsed.path != [] && parsed.path != [SLASH] {
                parsed := parsed.(path := [SLASH], query := []);
                hit := true;
              }
            case _ =>
              var kept;
              kept, hit := FilterParameters(rule, parsed.query);
              if hit {
                parsed := parsed.(query := kept);
              }
          }
          assert effect == Keep(parsed, hit);
          if hit {
            m := true;
            ids := ids + [rule.id];
          }
        }
      }
      return Going(parsed, m, ids);
    }

    /** The three option-driven strips. */
    method StripUrl(u: ParsedUrl) returns (p: Progress)
      ensures p == Strip(options, u) && p.Going?
    {
      hide Ascii;
      var parsed, modified, applied: seq<Bytes> := u, false, [];
      if options.stripUserinfo && parsed.userinfo != [] {
        parsed, modified, applied := parsed.(userinfo := []), true, applied + [Ascii("userinfo")];
      }
      if options.stripFragments && parsed.fragment != [] {
        parsed, modified, applied := parsed.(fragment := []), true, applied + [Ascii("fragment")];
      }
      if options.stripAllQuery && parsed.query != [] {
        parsed, modified, applied := parsed.(query := []), true, applied + [Ascii("strip-all-query")];
      }
      p := Going(parsed, modified, applied);
    }

    method SanitizeUrl(url: Bytes) returns (r: SanitizeResult)
      ensures r == Sanitize(options, rules, entropy, url)
    {
      hide Parse, Print, HostBlocked, ApplyAll, Ascii, Strip, Unsuspected;
      if url == [] {
        return SanitizeResult(url, false, false, []);
      }
      var attempt := ParseUrl(url);
      if attempt.Err? {
        return SanitizeResult(url, QUESTION in url, QUESTION in url, []);
      }
      var parsed := attempt.value;
      if parsed.scheme == FileScheme() {
        return SanitizeResult(RedactedFile(), true, false, [LocalFiles()]);
      }
      if HostBlocked(options, parsed.host) {
        return SanitizeResult(url, true, true, [Ascii("domain-policy")]);
      }
      var start := StripUrl(parsed);
      var progress := RunRules(start.url, start.modified, start.applied);
      match progress
      case Stopped(ids) =>
        return SanitizeResult(url, true, true, ids);
      case Going(v, m, ids) =>
        var kept, dropped, all := DropSecrets(v.query, ids);
        var text := ToString(v.(query := kept));
        return SanitizeResult(text, m || dropped > 0, false, all);
    }
  }

  lemma OnePair(rule: Rule, p: Pair)
    ensures FilterQuery(rule, [p]) == FilterPair(rule, p)
  {
    hide FilterPair;
    assert [p][1..] == [];
  }

  lemma NamesAppend(rule: Rule, query: seq<Pair>, p: Pair)
    ensures Names(rule, query + [p]) == (Names(rule, query) || ContainsCi(rule.parameters, p.key))
  {
    hide ContainsCi;
    var all := query + [p];
    assert all[|query|] == p;
    assert forall i :: 0 <= i < |query| ==> all[i] == query[i];
  }
}
