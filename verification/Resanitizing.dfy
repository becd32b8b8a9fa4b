/**
 * What sanitizing prints, told from the URL without the fold, and what sanitizing the printed text again
 * does, for any URL with a scheme and any rules (src/privacy/sanitizer.cpp:187-370).
 */
module Resanitizing {
  import opened Base
  import opened Url
  import opened Sanitizer

  // ---------------------------------------------------------------- the printed record, told from the URL

  /** Where the rules leave a path: the tab is excluded, or the path that is left, and was the URL dropped? */
  datatype Way = Barred | Open(path: Bytes, dropped: bool)

  /** A URL that has nothing but this host and path. */
  function At(host: Bytes, path: Bytes): ParsedUrl { ParsedUrl([], [], host, [], path, [], []) }

  function Dropping(w: Way): Way { if w.Open? then w.(dropped := true) else w }

  function Through(rules: seq<Rule>, host: Bytes, path: Bytes): Way {
    if rules == [] then Open(path, false)
    else if !Applies(rules[0], At(host, path)) then Through(rules[1..], host, path)
    else
      match rules[0].action
      case ExcludeTab => Barred
      case DropUrl => Dropping(Through(rules[1..], host, []))
      case TruncatePath => Through(rules[1..], host, if Bare(path) then path else [SLASH])
      case _ => Through(rules[1..], host, path)
  }

  lemma {:induction false} FoldGoesThrough(rules: seq<Rule>, u: ParsedUrl)
    ensures var w := Through(rules, u.host, u.path);
            match Fold(rules, u)
            case None => w.Barred?
            case Some(v) => w.Open? && w.path == v.path && v.fragment == (if w.dropped then [] else u.fragment)
  {
    if rules != [] {
      SameApplies(u, At(u.host, u.path));
      if Apply(rules[0], u).Keep? {
        FoldGoesThrough(rules[1..], Apply(rules[0], u).url);
        ApplyKeepsHost(rules[0], u);
      }
      hide Applies, FilterQuery, Names;
    }
  }

  lemma ApplyKeepsHost(rule: Rule, u: ParsedUrl)
    requires Apply(rule, u).Keep?
    ensures Apply(rule, u).url.host == u.host
  {
    hide FilterQuery, AnyGlob, Names;
  }

  /**
   * The record that is printed. Exclusion, path and fragment depend on host and path alone; each parameter
   * stands or falls by itself, and none stands where a rule cuts.
   */
  function Told(o: Options, rules: seq<Rule>, entropy: Bytes -> real, u: ParsedUrl): Option<ParsedUrl> {
    if HostBlocked(o, u.host) then None
    else
      match Through(rules, u.host, u.path)
      case Barred => None
      case Open(path, dropped) =>
        Some(u.(userinfo := if o.stripUserinfo then [] else u.userinfo,
                path := path,
                fragment := if o.stripFragments || dropped then [] else u.fragment,
                query := if o.stripAllQuery || Cut(rules, u) then [] else Survivors(o, rules, entropy, u, u.query)))
  }

  lemma FinalIsTold(o: Options, rules: seq<Rule>, entropy: Bytes -> real, u: ParsedUrl)
    ensures Final(o, rules, entropy, u) == Told(o, rules, entropy, u)
  {
    StripGoes(o, u);
    FoldGoesThrough(rules, Strip(o, u).url);
    if Final(o, rules, entropy, u).Some? {
      FinalOfInput(o, rules, entropy, u);
      FinalIsLater(o, rules, entropy, u);
    }
    hide Strip, HostBlocked, Fold, Cut, Survivors, Through, Unsuspected, PairsFrom;
  }

  /** For any URL that parses, other than a local file, and any rules and options. */
  lemma SanitizedIsTold(o: Options, rules: seq<Rule>, entropy: Bytes -> real, url: Bytes)
    requires Parse(url).Ok? && Parse(url).value.scheme != FileScheme()
    ensures var r, t := Sanitize(o, rules, entropy, url), Told(o, rules, entropy, Parse(url).value);
            if t.None? then r.excluded && r.url == url else !r.excluded && r.url == Print(t.value)
  {
    NoUrlFromNothing();
    hide *;
    FinalIsTold(o, rules, entropy, Parse(url).value);
    SanitizePrintsFinal(o, rules, entropy, url);
  }

  // ---------------------------------------------------------------- the printed text, read again

  /** What the text printed for `t` reads as. */
  function Reading(rules: seq<Rule>, url: Bytes, t: ParsedUrl): ParsedUrl
    requires Parse(url).Ok?
  {
    if Hierarchical(url) || Cut(rules, Parse(url).value) then ReadAgain(t) else OpaqueAgain(Parse(url).value)
  }

  lemma SchemesStay(rules: seq<Rule>, url: Bytes, t: ParsedUrl)
    requires Parse(url).Ok? && t.scheme == Parse(url).value.scheme
    ensures Reading(rules, url, t).scheme == Parse(url).value.scheme
  {
    ReadAgainKeeps(t);
    hide Parse, Cut, HostAgain, ParseAuthority, ParseTail, Hierarchical, Trim;
  }

  lemma ToldKeepsScheme(o: Options, rules: seq<Rule>, entropy: Bytes -> real, u: ParsedUrl)
    requires Told(o, rules, entropy, u).Some?
    ensures var t := Told(o, rules, entropy, u).value; t.scheme == u.scheme && t.host == u.host && t.port == u.port
  {
    hide HostBlocked, Through, Cut, Survivors;
  }

  lemma CutTold(o: Options, rules: seq<Rule>, entropy: Bytes -> real, u: ParsedUrl)
    requires Final(o, rules, entropy, u).Some? && Cut(rules, u)
    ensures var f := Final(o, rules, entropy, u).value; f.query == [] && Bare(f.path)
  {
    hide Final, Cut, Survivors;
    FinalOfInput(o, rules, entropy, u);
  }

  /** A URL without "://" that no rule cuts comes out as it is. */
  lemma OpaqueTold(o: Options, rules: seq<Rule>, entropy: Bytes -> real, url: Bytes)
    requires Parse(url).Ok? && !Hierarchical(url) && !Cut(rules, Parse(url).value)
    requires Final(o, rules, entropy, Parse(url).value).Some?
    ensures var u := Parse(url).value;
            Final(o, rules, entropy, u).value == u == ParsedUrl(u.scheme, [], [], [], u.path, [], [])
  {
    OpaqueParts(url);
    hide Parse, Final, Cut, Hierarchical, Survives, Shown;
    FinalOfInput(o, rules, entropy, Parse(url).value);
  }

  lemma OpaqueReads(scheme: Bytes, path: Bytes)
    requires SchemeShaped(scheme) && scheme != []
    ensures var u := ParsedUrl(scheme, [], [], [], path, [], []);
            && Print(u) == scheme + SCHEME_MARK + path
            && Parse(Print(u)) == Ok(OpaqueAgain(u)) && Hierarchical(Print(u))
  {
    var u := ParsedUrl(scheme, [], [], [], path, [], []);
    PrintOpaque(u);
    ParseAfterMark(scheme, path);
    SchemeGivesMark(u);
    hide Print, Parse, Hierarchical, ParseHierarchical;
  }

  lemma OnceReads(o: Options, rules: seq<Rule>, entropy: Bytes -> real, url: Bytes)
    requires Parse(url).Ok? && Parse(url).value.scheme != []
    requires Told(o, rules, entropy, Parse(url).value).Some?
    ensures var t := Told(o, rules, entropy, Parse(url).value).value;
            Parse(Print(t)) == Ok(Reading(rules, url, t)) && Hierarchical(Print(t))
  {
    ShapedAsParsed(url);
    ShapedScheme(Parse(url).value);
    ReadingIs(o, rules, entropy, url);
    hide *;
    var u := Parse(url).value;
    FinalIsTold(o, rules, entropy, u);
    var t := Told(o, rules, entropy, u).value;
    if Hierarchical(url) {
      FinalIsPrintable(o, rules, entropy, url);
      ParseOfPrint(t);
    } else if Cut(rules, u) {
      CutTold(o, rules, entropy, u);
      CutIsPrintable(o, rules, entropy, url);
      ParseOfPrint(t);
    } else {
      OpaqueTold(o, rules, entropy, url);
      OpaqueReads(u.scheme, u.path);
    }
  }

  lemma ShapedScheme(u: ParsedUrl)
    requires Shaped(u)
    ensures SchemeShaped(u.scheme)
  {
  }

  lemma ReadingIs(o: Options, rules: seq<Rule>, entropy: Bytes -> real, url: Bytes)
    requires Parse(url).Ok?
    ensures forall t ::
              Reading(rules, url, t)
              == if Hierarchical(url) || Cut(rules, Parse(url).value) then ReadAgain(t) else OpaqueAgain(Parse(url).value)
  {
    hide Parse, Cut, Hierarchical, ReadAgain, OpaqueAgain;
  }

  // ---------------------------------------------------------------- only a clean URL comes out as it went in

  function Unmasked(query: seq<Pair>): nat {
    if query == [] then 0 else (if query[0].value == Redacted() then 0 else 1) + Unmasked(query[1..])
  }

  function PathRank(path: Bytes): nat { if path == [] then 0 else if path == [SLASH] then 1 else 2 }

  /** What sanitizing can take away from a URL; every step that changes it takes some. */
  function Matter(u: ParsedUrl): nat {
    (if u.userinfo == [] then 0 else 1) + (if u.fragment == [] then 0 else 1) + PathRank(u.path)
    + |u.query| + Unmasked(u.query)
  }

  lemma {:induction false} FilterShrinks(rule: Rule, query: seq<Pair>)
    ensures var f := FilterQuery(rule, query);
            && |f| + Unmasked(f) <= |query| + Unmasked(query)
            && (|f| + Unmasked(f) == |query| + Unmasked(query) ==> f == query)
  {
    if query != [] {
      hide ContainsCi, Redacted;
      FilterShrinks(rule, query[1..]);
      var rest, first := FilterQuery(rule, query[1..]), FilterPair(rule, query[0]);
      if first != [] {
        assert (first + rest)[1..] == rest;
      } else {
        assert first + rest == rest;
      }
      assert query == [query[0]] + query[1..];
    }
  }

  lemma ApplyShrinks(rule: Rule, u: ParsedUrl)
    requires Apply(rule, u).Keep?
    ensures var v := Apply(rule, u).url; Matter(v) <= Matter(u) && (Matter(v) == Matter(u) ==> v == u)
  {
    hide FilterQuery, Applies, Names, Redacted;
    FilterShrinks(rule, u.query);
  }

  lemma {:induction false} FoldShrinks(rules: seq<Rule>, u: ParsedUrl)
    requires Fold(rules, u).Some?
    ensures var v := Fold(rules, u).value;
            && Matter(v) <= Matter(u)
            && (Matter(v) == Matter(u) ==> v == u && forall r <- rules :: Settled(r, u))
  {
    hide Apply, Matter;
    if rules != [] {
      ApplyShrinks(rules[0], u);
      FoldShrinks(rules[1..], Apply(rules[0], u).url);
      assert forall r <- rules :: r == rules[0] || r in rules[1..];
    }
  }

  lemma {:induction false} UnsuspectedShrinks(o: Options, entropy: Bytes -> real, query: seq<Pair>)
    ensures var k := Unsuspected(o, entropy, query);
            && |k| + Unmasked(k) <= |query| + Unmasked(query)
            && (|k| + Unmasked(k) == |query| + Unmasked(query) ==> forall p <- query :: !LooksLikeSecret(o, entropy, p))
  {
    if query != [] {
      hide LooksLikeSecret, Redacted;
      var k := Unsuspected(o, entropy, query[1..]);
      UnsuspectedShrinks(o, entropy, query[1..]);
      assert ([query[0]] + k)[1..] == k && [] + k == k;
    }
  }

  lemma StripShrinks(o: Options, u: ParsedUrl)
    ensures var v := Strip(o, u).url; Matter(v) <= Matter(u) && (Matter(v) == Matter(u) ==> v == u)
  {
    StripGoes(o, u);
    hide Strip;
  }

  lemma FinalShrinks(o: Options, rules: seq<Rule>, entropy: Bytes -> real, u: ParsedUrl)
    requires Final(o, rules, entropy, u).Some?
    ensures var v := Final(o, rules, entropy, u).value;
            Matter(v) <= Matter(u) && (Matter(v) == Matter(u) ==> Clean(o, rules, entropy, u))
  {
    var s := Strip(o, u).url;
    var v := Fold(rules, s).value;
    StripShrinks(o, u);
    FoldShrinks(rules, s);
    UnsuspectedShrinks(o, entropy, v.query);
    StripGoes(o, u);
    hide Fold, Settled, Unsuspected, LooksLikeSecret, HostBlocked, Strip, Unmasked, PathRank;
  }

  /** Sanitizing prints the record it was given exactly when there is nothing left to do. */
  lemma FinalIsSameWhenClean(o: Options, rules: seq<Rule>, entropy: Bytes -> real, u: ParsedUrl)
    ensures Final(o, rules, entropy, u) == Some(u) <==> Clean(o, rules, entropy, u)
  {
    hide Final, Clean, Matter;
    if Final(o, rules, entropy, u) == Some(u) {
      FinalShrinks(o, rules, entropy, u);
    }
    if Clean(o, rules, entropy, u) {
      CleanIsFinal(o, rules, entropy, u);
    }
  }

  // ---------------------------------------------------------------- printing what was read

  /** A host with a colon that no bracket protects is read as a shorter host and a port. */
  lemma LostColon(host: Bytes)
    requires COLON in host && CLOSING_BRACKET !in host && Lower(host) == host
    ensures var a := ParseHost(host); host == a.host + [COLON] + a.port
  {
    hide LastIndexOf, Lower;
    var colon := LastIndexOf(host, COLON);
    LowerPrefix(host, colon.value);
  }

  /** The host text with its port, once it was read: shorter by a colon before an empty port, or the same. */
  lemma HostTextAgain(u: ParsedUrl)
    requires Shaped(u)
    ensures var a := HostAgain(u);
            if ColonKept(u) || a.port != [] then a.host + PrintPort(a.port) == u.host + PrintPort(u.port)
            else |a.host + PrintPort(a.port)| < |u.host + PrintPort(u.port)|
  {
    if ColonKept(u) {
      ReadAgainKeepsHost(u);
      hide HostAgain, Shaped;
    } else {
      ShapedHost(u);
      hide ParseHost, Shaped, Lower;
      assert u.host + PrintPort(u.port) == u.host;
      LostColon(u.host);
      var a := HostAgain(u);
      Assoc(a.host, [COLON], a.port);
    }
  }

  lemma ShapedHost(u: ParsedUrl)
    requires Shaped(u)
    ensures Lower(u.host) == u.host
  {
  }

  lemma LowerPrefix(s: Bytes, n: nat)
    requires n <= |s| && Lower(s) == s
    ensures Lower(s[..n]) == s[..n]
  {
    forall i | 0 <= i < n
      ensures Lower(s[..n])[i] == s[i]
    {
      assert Lower(s)[i] == s[i];
    }
  }

  /** Printing what the printed text reads as gives the text again, where no wholly empty pair and no colon is lost. */
  lemma PrintAgain(u: ParsedUrl)
    requires Shaped(u)
    ensures Print(ReadAgain(u)) == Print(u) <==> !EndsEmpty(u.query) && (ColonKept(u) || HostAgain(u).port != [])
  {
    HostTextAgain(u);
    TrimShortens(u);
    OtherHost(u.(query := Trim(u.query)), HostAgain(u).host, HostAgain(u).port);
    hide Shaped, HostAgain, ColonKept, PrintPort, Print, EndsEmpty, Trim;
    assert ReadAgain(u) == u.(query := Trim(u.query)).(host := HostAgain(u).host, port := HostAgain(u).port);
  }

  lemma OtherHost(u: ParsedUrl, host: Bytes, port: Bytes)
    ensures var v, before, after := u.(host := host, port := port), u.host + PrintPort(u.port), host + PrintPort(port);
            (after == before ==> Print(v) == Print(u)) && (|after| < |before| ==> |Print(v)| < |Print(u)|)
  {
    hide PrintPort, PrintTail;
    assert PrintTail(u.(host := host, port := port)) == PrintTail(u) by {
      SameTail(u, u.(host := host, port := port));
    }
  }

  lemma SameTail(u: ParsedUrl, v: ParsedUrl)
    requires v.path == u.path && v.query == u.query && v.fragment == u.fragment
    ensures PrintTail(v) == PrintTail(u)
  {
  }

  /** Printing what the printed text reads as gives that text. */
  predicate Reprints(rules: seq<Rule>, url: Bytes, t: ParsedUrl)
    requires Parse(url).Ok?
  {
    var u := Parse(url).value;
    if Hierarchical(url) || Cut(rules, u) then !EndsEmpty(t.query) && (ColonKept(u) || HostAgain(u).port != [])
    else Print(OpaqueAgain(u)) == u.scheme + SCHEME_MARK + u.path
  }

  lemma ReprintsIs(rules: seq<Rule>, url: Bytes, t: ParsedUrl)
    requires Parse(url).Ok?
    ensures var u := Parse(url).value;
            Reprints(rules, url, t) <==>
              if Hierarchical(url) || Cut(rules, u) then !EndsEmpty(t.query) && (ColonKept(u) || HostAgain(u).port != [])
              else Print(OpaqueAgain(u)) == u.scheme + SCHEME_MARK + u.path
  {
    hide Parse, Cut, Hierarchical, ColonKept, HostAgain, OpaqueAgain, Print;
  }

  lemma ReprintsOnce(o: Options, rules: seq<Rule>, entropy: Bytes -> real, url: Bytes)
    requires Parse(url).Ok? && Parse(url).value.scheme != []
    requires Told(o, rules, entropy, Parse(url).value).Some?
    ensures var t := Told(o, rules, entropy, Parse(url).value).value;
            Reprints(rules, url, t) <==> Print(Reading(rules, url, t)) == Print(t)
  {
    ShapedAsParsed(url);
    ShapedScheme(Parse(url).value);
    ReadingIs(o, rules, entropy, url);
    hide *;
    var u := Parse(url).value;
    FinalIsTold(o, rules, entropy, u);
    ToldKeepsScheme(o, rules, entropy, u);
    var t := Told(o, rules, entropy, u).value;
    ReprintsIs(rules, url, t);
    SameColon(u, t);
    if Hierarchical(url) {
      FinalIsPrintable(o, rules, entropy, url);
      PrintAgain(t);
    } else if Cut(rules, u) {
      CutTold(o, rules, entropy, u);
      CutIsPrintable(o, rules, entropy, url);
      PrintAgain(t);
    } else {
      OpaqueTold(o, rules, entropy, url);
      OpaqueReads(u.scheme, u.path);
    }
  }

  lemma TrimLosesMatter(u: ParsedUrl, host: Bytes, port: Bytes)
    ensures var v := u.(host := host, port := port, query := Trim(u.query));
            Matter(v) >= Matter(u) ==> v == u.(host := host, port := port)
  {
    if EndsEmpty(u.query) {
      assert u.query == Trim(u.query) + [EMPTY_PAIR];
      UnmaskedAppend(Trim(u.query), EMPTY_PAIR);
    }
  }

  lemma {:induction false} UnmaskedAppend(query: seq<Pair>, p: Pair)
    ensures Unmasked(query + [p]) >= Unmasked(query)
  {
    if query != [] {
      assert (query + [p])[1..] == query[1..] + [p];
      UnmaskedAppend(query[1..], p);
    }
  }

  /** A text that comes out as it went in was read as the record that is printed. */
  lemma SameTextSameRecord(o: Options, rules: seq<Rule>, entropy: Bytes -> real, text: Bytes)
    requires Hierarchical(text) && Parse(text).Ok? && Parse(text).value.scheme != []
    requires Final(o, rules, entropy, Parse(text).value).Some?
    requires Print(Final(o, rules, entropy, Parse(text).value).value) == text
    ensures Final(o, rules, entropy, Parse(text).value) == Some(Parse(text).value)
  {
    hide *;
    var g := Parse(text).value;
    var k := Final(o, rules, entropy, g).value;
    FinalIsPrintable(o, rules, entropy, text);
    ParseOfPrint(k);
    FinalShrinks(o, rules, entropy, g);
    ReadAgainIs(k);
    TrimLosesMatter(k, g.host, g.port);
    assert k.(host := g.host, port := g.port) == k;
  }

  lemma ReadAgainIs(u: ParsedUrl)
    ensures ReadAgain(u) == u.(host := ReadAgain(u).host, port := ReadAgain(u).port, query := Trim(u.query))
  {
    hide HostAgain;
  }

  lemma ToldOrBarred(o: Options, rules: seq<Rule>, entropy: Bytes -> real, u: ParsedUrl)
    ensures Told(o, rules, entropy, u).None? <==> HostBlocked(o, u.host) || Through(rules, u.host, u.path).Barred?
  {
    hide HostBlocked, Through, Cut, Survivors;
  }

  /**
   * Sanitizing a result again, for any URL with a scheme and any rules: it is excluded exactly when its host
   * and path are barred, and it stays as it is exactly when it is excluded or when nothing is left to do for
   * what it reads as and that prints as it.
   */
  lemma TwiceInGeneral(o: Options, rules: seq<Rule>, entropy: Bytes -> real, url: Bytes)
    requires Parse(url).Ok? && Parse(url).value.scheme != [] && Parse(url).value.scheme != FileScheme()
    requires Told(o, rules, entropy, Parse(url).value).Some?
    ensures var once, t := Sanitize(o, rules, entropy, url), Told(o, rules, entropy, Parse(url).value).value;
            var twice, g := Sanitize(o, rules, entropy, once.url), Reading(rules, url, t);
            && Parse(once.url) == Ok(g) && once.url == Print(t)
            && (twice.excluded <==> HostBlocked(o, g.host) || Through(rules, g.host, g.path).Barred?)
            && (twice.url == once.url <==> twice.excluded || (Clean(o, rules, entropy, g) && Reprints(rules, url, t)))
  {
    NoUrlFromNothing();
    hide *;
    var u := Parse(url).value;
    SanitizedIsTold(o, rules, entropy, url);
    OnceReads(o, rules, entropy, url);
    var t := Told(o, rules, entropy, u).value;
    var g, text := Reading(rules, url, t), Print(t);
    ToldKeepsScheme(o, rules, entropy, u);
    SchemesStay(rules, url, t);
    ReprintsOnce(o, rules, entropy, url);
    SanitizePrintsFinal(o, rules, entropy, text);
    FinalIsTold(o, rules, entropy, g);
    ToldOrBarred(o, rules, entropy, g);
    FinalIsSameWhenClean(o, rules, entropy, g);
    if Final(o, rules, entropy, g).Some? && Print(Final(o, rules, entropy, g).value) == text {
      SameTextSameRecord(o, rules, entropy, text);
    }
  }

  lemma NotExcludedIsTold(o: Options, rules: seq<Rule>, entropy: Bytes -> real, url: Bytes)
    requires Parse(url).Ok? && Parse(url).value.scheme != FileScheme() && !Sanitize(o, rules, entropy, url).excluded
    ensures Told(o, rules, entropy, Parse(url).value).Some?
  {
    hide *;
    SanitizedIsTold(o, rules, entropy, url);
  }

  /**
   * Sanitizing an unexcluded result again, for any URL with a scheme and any rules. The result reads as
   * `g`. It is excluded now exactly when the host and path of `g` are barred, and it stays as it is exactly
   * when it is excluded or when `g` leaves nothing to do and prints as the result.
   *
   * For scheme://... URLs that keep their colons, and rules that exclude and drop by host alone or do not
   * cut the URL, `g` leaves nothing to do; then the result changes exactly when the query is neither
   * stripped nor cut and the last pair of it that survives is wholly empty.
   */
  lemma SanitizingTwice(o: Options, rules: seq<Rule>, entropy: Bytes -> real, url: Bytes)
    requires Parse(url).Ok? && Parse(url).value.scheme != [] && Parse(url).value.scheme != FileScheme()
    requires !Sanitize(o, rules, entropy, url).excluded
    ensures Told(o, rules, entropy, Parse(url).value).Some?
    ensures var once, t := Sanitize(o, rules, entropy, url), Told(o, rules, entropy, Parse(url).value).value;
            var twice, g := Sanitize(o, rules, entropy, once.url), Reading(rules, url, t);
            && Parse(once.url) == Ok(g)
            && (twice.excluded <==> HostBlocked(o, g.host) || Through(rules, g.host, g.path).Barred?)
            && (twice.url == once.url <==> twice.excluded || (Clean(o, rules, entropy, g) && Reprints(rules, url, t)))
    ensures WebUrl(url) && Tame(rules, Parse(url).value) ==>
              var u, once := Parse(url).value, Sanitize(o, rules, entropy, url);
              var twice := Sanitize(o, rules, entropy, once.url);
              && Clean(o, rules, entropy, Parse(once.url).value) && !twice.excluded
              && (twice.url == once.url <==>
                    o.stripAllQuery || Cut(rules, u) || !EmptySurvivesLast(o, rules, entropy, u, u.query))
              && (EMPTY_PAIR !in u.query ==> twice.url == once.url)
  {
    hide *;
    NotExcludedIsTold(o, rules, entropy, url);
    TwiceInGeneral(o, rules, entropy, url);
    if WebUrl(url) && Tame(rules, Parse(url).value) {
      WebTwice(o, rules, entropy, url);
      SanitizedIsClean(o, rules, entropy, url);
      if EMPTY_PAIR !in Parse(url).value.query {
        WebTwiceWithoutEmptyPairs(o, rules, entropy, url);
      }
    }
  }

  // ---------------------------------------------------------------- the built-in rules

  lemma HostOnly(rule: Rule, host: Bytes, p: Bytes, q: Bytes)
    requires rule.pathPatterns == []
    ensures Applies(rule, At(host, p)) == Applies(rule, At(host, q))
  {
    NoPatterns(p);
    NoPatterns(q);
    hide SomeGlob;
  }

  predicate Excludes(rule: Rule, host: Bytes, path: Bytes) { rule.action == ExcludeTab && Applies(rule, At(host, path)) }

  /** Rules that exclude by host alone bar a path exactly when one of them fits. */
  lemma {:induction false} StableBars(rules: seq<Rule>, host: Bytes, path: Bytes, p: Bytes)
    requires Stable(rules)
    ensures Through(rules, host, path).Barred? <==> exists i :: 0 <= i < |rules| && Excludes(rules[i], host, p)
  {
    hide Applies;
    if rules != [] {
      assert rules[0] in rules && Stable(rules[1..]);
      var next := if !Applies(rules[0], At(host, path)) then path
                  else if rules[0].action == DropUrl then []
                  else if rules[0].action == TruncatePath && !Bare(path) then [SLASH] else path;
      StableBars(rules[1..], host, next, p);
      if rules[0].action == ExcludeTab {
        HostOnly(rules[0], host, path, p);
      }
      assert forall i :: 0 < i < |rules| ==> rules[1..][i - 1] == rules[i];
      hide Excludes, Bare, Stable;
      FirstExcludes(rules, host, p);
    }
  }

  lemma FirstExcludes(rules: seq<Rule>, host: Bytes, p: Bytes)
    requires rules != []
    ensures (exists i :: 0 <= i < |rules| && Excludes(rules[i], host, p))
       <==> Excludes(rules[0], host, p) || exists i :: 0 <= i < |rules[1..]| && Excludes(rules[1..][i], host, p)
  {
    hide Excludes;
    assert forall i :: 0 < i < |rules| ==> rules[1..][i - 1] == rules[i];
  }

  lemma DefaultsBar(u: ParsedUrl)
    ensures Through(DefaultRules(), u.host, u.path).Barred? <==> Applies(PrivateRule(), u)
    ensures !HostBlocked(DefaultOptions(), u.host)
  {
    hide *;
    NotBlocked(u.host);
    StableBars(DefaultRules(), u.host, u.path, u.path);
    DefaultExcludes(u);
  }

  lemma DefaultExcludes(u: ParsedUrl)
    ensures (exists i :: 0 <= i < |DefaultRules()| && Excludes(DefaultRules()[i], u.host, u.path)) <==> Applies(PrivateRule(), u)
  {
    SameApplies(u, At(u.host, u.path));
    DefaultActions();
    PrivateIsLast();
    hide DefaultRules, PrivateRule, ResetRule, Applies, At;
    if Applies(PrivateRule(), u) {
      assert Excludes(DefaultRules()[7], u.host, u.path);
    }
  }

  lemma PrivateIsLast()
    ensures |DefaultRules()| == 8 && DefaultRules()[7] == PrivateRule() && PrivateRule().action == ExcludeTab
  {
    ActionsOfRules();
    hide OauthRule, SessionRule, StorageRule, ResetRule, MeetingRule, TrackerRule, LocalFilesRule, PrivateRule;
  }

  lemma RemoveSettled(rule: Rule, u: ParsedUrl)
    requires rule.action == RemoveParameter
    ensures Settled(rule, u) <==> forall p <- u.query :: !Takes(rule, u, RemoveParameter, p.key)
  {
    hide FilterQuery, AnyGlob, ContainsCi;
    FilteredIsFixed(rule, u.query);
  }

  /** Nothing is left to do for the built-in rules. */
  lemma DefaultsSettled(u: ParsedUrl)
    ensures (forall r <- DefaultRules() :: Settled(r, u)) <==>
              && (forall p <- u.query :: !Removed(DefaultRules(), u, p.key))
              && !Cut(DefaultRules(), u) && !Applies(PrivateRule(), u)
  {
    DefaultActions();
    PrivateIsLast();
    var rules := DefaultRules();
    hide DefaultRules, PrivateRule, ResetRule, Settled, Takes;
    forall i | 0 <= i < |rules|
      ensures Settled(rules[i], u) <==>
                && (forall p <- u.query :: !Takes(rules[i], u, RemoveParameter, p.key))
                && !Cuts(rules[i], u) && !(rules[i].action == ExcludeTab && Applies(rules[i], u))
    {
      assert rules[i] in rules;
      SettledAt(rules[i], u);
    }
    hide Cuts, Applies;
    if forall r <- rules :: Settled(r, u) {
      assert forall i :: 0 <= i < |rules| ==> Settled(rules[i], u);
    }
  }

  lemma SettledAt(rule: Rule, u: ParsedUrl)
    requires rule.action != MaskParameter && (rule.action == DropUrl ==> rule.id == LocalFiles())
    ensures Settled(rule, u) <==>
              && (forall p <- u.query :: !Takes(rule, u, RemoveParameter, p.key))
              && !Cuts(rule, u) && !(rule.action == ExcludeTab && Applies(rule, u))
  {
    if rule.action == RemoveParameter {
      RemoveSettled(rule, u);
    }
    hide FilterQuery, AnyGlob, ContainsCi, Names, LocalFiles;
  }

  lemma DefaultsClean(entropy: Bytes -> real, u: ParsedUrl)
    ensures Clean(DefaultOptions(), DefaultRules(), entropy, u)
       <==> Secretless(entropy, u) && !Cut(DefaultRules(), u) && !Applies(PrivateRule(), u)
  {
    DefaultsSettled(u);
    NotBlocked(u.host);
    hide DefaultRules, PrivateRule, Settled, Removed, Cut, Applies, LooksLikeSecret, HostBlocked;
  }

  /**
   * With the built-in rules and options, for any URL with a scheme: the result stays as it is exactly when
   * the rule for private sites fits what it reads as, or when the URL is covered, the reset-link rule does
   * not cut what it reads as, and that prints as the result.
   *
   * For scheme://... URLs that keep their colons: exactly when the reset-link rule cuts the URL or its query
   * holds no wholly empty pair after which every pair goes.
   */
  lemma DefaultsTwice(entropy: Bytes -> real, url: Bytes)
    requires Parse(url).Ok? && Parse(url).value.scheme != [] && Parse(url).value.scheme != FileScheme()
    requires !Sanitize(DefaultOptions(), DefaultRules(), entropy, url).excluded
    ensures Told(DefaultOptions(), DefaultRules(), entropy, Parse(url).value).Some?
    ensures var o, rules := DefaultOptions(), DefaultRules();
            var once, t := Sanitize(o, rules, entropy, url), Told(o, rules, entropy, Parse(url).value).value;
            var twice, g := Sanitize(o, rules, entropy, once.url), Reading(rules, url, t);
            && (twice.excluded <==> Applies(PrivateRule(), g))
            && (twice.url == once.url <==>
                  Applies(PrivateRule(), g) || (Covered(entropy, url) && !Cut(rules, g) && Reprints(rules, url, t)))
    ensures WebUrl(url) ==>
              var u, once := Parse(url).value, Sanitize(DefaultOptions(), DefaultRules(), entropy, url);
              Sanitize(DefaultOptions(), DefaultRules(), entropy, once.url).url == once.url
              <==> (Applies(ResetRule(), u) && !Bare(u.path)) || !OnlyGoneAfterEmpty(entropy, u, u.query)
  {
    hide *;
    var o, rules := DefaultOptions(), DefaultRules();
    SanitizingTwice(o, rules, entropy, url);
    var g := Reading(rules, url, Told(o, rules, entropy, Parse(url).value).value);
    DefaultsBar(g);
    DefaultsClean(entropy, g);
    DefaultsLeaveNoSecrets(entropy, url);
    if WebUrl(url) {
      DefaultWebTwice(entropy, url);
    }
  }
}
