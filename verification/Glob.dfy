/** The iterative glob matcher (glob_match, src/privacy/sanitizer.cpp:133-162) and the meaning of its patterns. */
module Glob {
  import opened Base

  const STAR: Byte := 0x2A
  const QUESTION: Byte := 0x3F

  /** A pattern byte that takes exactly one byte of text. */
  predicate One(c: Byte, b: Byte) { c == QUESTION || LowerByte(c) == LowerByte(b) }

  /** What a pattern means: `*` any run of bytes, `?` any byte, other bytes themselves in either case. */
  predicate Matches(pattern: Bytes, text: Bytes)
    decreases |pattern| + |text|
  {
    if pattern == [] then text == []
    else if pattern[0] == STAR then Matches(pattern[1..], text) || (text != [] && Matches(pattern, text[1..]))
    else text != [] && One(pattern[0], text[0]) && Matches(pattern[1..], text[1..])
  }

  predicate OnlyStars(pattern: Bytes) { forall i :: 0 <= i < |pattern| ==> pattern[i] == STAR }

  /** The main loop from the state (p, t, star, mark); a text byte equal to `*` is taken before the star is. */
  predicate Run(pattern: Bytes, text: Bytes, p: nat, t: nat, star: Option<nat>, mark: nat)
    requires p <= |pattern| && mark <= t <= |text|
    requires star.Some? ==> star.value < p
    decreases |text| - mark, |pattern| - p
  {
    if t == |text| then OnlyStars(pattern[p..])
    else if p < |pattern| && One(pattern[p], text[t]) then Run(pattern, text, p + 1, t + 1, star, mark)
    else if p < |pattern| && pattern[p] == STAR then Run(pattern, text, p + 1, t, Some(p), t)
    else if star.Some? then Run(pattern, text, star.value + 1, mark + 1, star, mark + 1)
    else false
  }

  predicate Accepts(pattern: Bytes, text: Bytes) { Run(pattern, text, 0, 0, None, 0) }

  // ---------------------------------------------------------------- facts about the meaning

  lemma {:induction false} MatchesNothing(pattern: Bytes)
    ensures Matches(pattern, []) == OnlyStars(pattern)
  {
    if pattern != [] {
      MatchesNothing(pattern[1..]);
      assert pattern == [pattern[0]] + pattern[1..];
    }
  }

  /** A pattern that starts with a star matches whatever ends in a match. */
  lemma {:induction false} StarAbsorbs(pattern: Bytes, text: Bytes, k: nat)
    requires pattern != [] && pattern[0] == STAR && k <= |text| && Matches(pattern, text[k..])
    ensures Matches(pattern, text)
    decreases k
  {
    if k == 0 {
      assert text[0..] == text;
    } else {
      assert text[1..][k - 1..] == text[k..];
      StarAbsorbs(pattern, text[1..], k - 1);
    }
  }

  /** Segments without stars match byte by byte. */
  predicate Literal(seg: Bytes, text: Bytes) {
    |seg| == |text| && forall i :: 0 <= i < |seg| ==> seg[i] != STAR && One(seg[i], text[i])
  }

  lemma {:induction false} LiteralFront(seg: Bytes, rest: Bytes, text: Bytes)
    requires |seg| <= |text| && Literal(seg, text[..|seg|])
    ensures Matches(seg + rest, text) == Matches(rest, text[|seg|..])
  {
    if seg == [] {
      assert seg + rest == rest && text[0..] == text;
    } else {
      assert text[1..][..|seg| - 1] == text[..|seg|][1..];
      assert text[1..][|seg| - 1..] == text[|seg|..];
      assert (seg + rest)[1..] == seg[1..] + rest;
      assert forall i :: 0 <= i < |seg[1..]| ==> seg[1..][i] == seg[i + 1] && text[..|seg|][1..][i] == text[..|seg|][i + 1];
      LiteralFront(seg[1..], rest, text[1..]);
    }
  }

  lemma {:induction false} FrontOfMatch(seg: Bytes, rest: Bytes, text: Bytes)
    requires STAR !in seg && Matches(seg + rest, text)
    ensures |seg| <= |text| && Matches(rest, text[|seg|..])
  {
    if seg == [] {
      assert seg + rest == rest && text[0..] == text;
    } else {
      assert seg[0] in seg;
      assert (seg + rest)[1..] == seg[1..] + rest;
      FrontOfMatch(seg[1..], rest, text[1..]);
      assert text[1..][|seg| - 1..] == text[|seg|..];
    }
  }

  lemma {:induction false} StarTries(pattern: Bytes, text: Bytes) returns (k: nat)
    requires pattern != [] && pattern[0] == STAR && Matches(pattern, text)
    ensures k <= |text| && Matches(pattern[1..], text[k..])
    decreases |text|
  {
    if Matches(pattern[1..], text) {
      k := 0;
      assert text[0..] == text;
    } else {
      k := StarTries(pattern, text[1..]);
      assert text[1..][k..] == text[k + 1..];
      k := k + 1;
    }
  }

  /** The first place where the segment between two stars matches is as good as any later one. */
  lemma EarliestIsBest(seg: Bytes, rest: Bytes, text: Bytes)
    requires rest != [] && rest[0] == STAR && |seg| <= |text| && Literal(seg, text[..|seg|])
    ensures Matches([STAR] + (seg + rest), text) == Matches(rest, text[|seg|..])
  {
    var pattern := [STAR] + (seg + rest);
    assert pattern[1..] == seg + rest;
    LiteralFront(seg, rest, text);
    if Matches(pattern, text) {
      var k := StarTries(pattern, text);
      FrontOfMatch(seg, rest, text[k..]);
      assert text[|seg|..][k..] == text[k..][|seg|..];
      StarAbsorbs(rest, text[|seg|..], k);
    }
  }

  // ---------------------------------------------------------------- the loop computes the meaning

  /** What is still to decide in a state. */
  predicate Goal(pattern: Bytes, text: Bytes, p: nat, t: nat, star: Option<nat>, mark: nat)
    requires p <= |pattern| && mark <= t <= |text|
    requires star.Some? ==> star.value < p
  {
    match star
    case None => Matches(pattern[p..], text[t..])
    case Some(s) => Matches(pattern[s..], text[mark..])
  }

  /** Since the last star the bytes have matched one by one. */
  predicate Tracks(pattern: Bytes, text: Bytes, p: nat, t: nat, star: Option<nat>, mark: nat)
    requires p <= |pattern| && mark <= t <= |text|
    requires star.Some? ==> star.value < p
  {
    star.Some? ==>
      && pattern[star.value] == STAR && Literal(pattern[star.value + 1..p], text[mark..t])
  }

  lemma AfterStar(pattern: Bytes, text: Bytes, p: nat, t: nat, s: nat, mark: nat)
    requires p <= |pattern| && mark <= t <= |text| && s < p
    requires Tracks(pattern, text, p, t, Some(s), mark)
    ensures Matches(pattern[s + 1..], text[mark..]) == Matches(pattern[p..], text[t..])
    ensures pattern[s..] == [STAR] + (pattern[s + 1..p] + pattern[p..])
  {
    var seg := pattern[s + 1..p];
    assert pattern[s + 1..] == seg + pattern[p..];
    assert text[mark..][..|seg|] == text[mark..t];
    assert text[mark..][|seg|..] == text[t..];
    LiteralFront(seg, pattern[p..], text[mark..]);
  }

  lemma StepAhead(pattern: Bytes, text: Bytes, p: nat, t: nat, star: Option<nat>, mark: nat)
    requires p < |pattern| && mark <= t < |text| && (star.Some? ==> star.value < p)
    requires Tracks(pattern, text, p, t, star, mark) && One(pattern[p], text[t]) && pattern[p] != STAR
    ensures Tracks(pattern, text, p + 1, t + 1, star, mark)
    ensures Goal(pattern, text, p + 1, t + 1, star, mark) == Goal(pattern, text, p, t, star, mark)
  {
    if star.Some? {
      assert pattern[star.value + 1..p + 1] == pattern[star.value + 1..p] + [pattern[p]];
      assert text[mark..t + 1] == text[mark..t] + [text[t]];
    } else {
      assert pattern[p..][1..] == pattern[p + 1..] && text[t..][1..] == text[t + 1..];
    }
  }

  lemma StepStar(pattern: Bytes, text: Bytes, p: nat, t: nat, star: Option<nat>, mark: nat)
    requires p < |pattern| && mark <= t < |text| && (star.Some? ==> star.value < p)
    requires Tracks(pattern, text, p, t, star, mark) && pattern[p] == STAR
    ensures Tracks(pattern, text, p + 1, t, Some(p), t)
    ensures Goal(pattern, text, p + 1, t, Some(p), t) == Goal(pattern, text, p, t, star, mark)
  {
    if star.Some? {
      hide Matches;
      var seg := pattern[star.value + 1..p];
      AfterStar(pattern, text, p, t, star.value, mark);
      assert text[mark..][..|seg|] == text[mark..t];
      assert text[mark..][|seg|..] == text[t..];
      EarliestIsBest(seg, pattern[p..], text[mark..]);
    }
  }

  lemma StepBack(pattern: Bytes, text: Bytes, p: nat, t: nat, s: nat, mark: nat)
    requires p <= |pattern| && mark <= t < |text| && s < p
    requires Tracks(pattern, text, p, t, Some(s), mark)
    requires p < |pattern| ==> pattern[p] != STAR && !One(pattern[p], text[t])
    ensures Tracks(pattern, text, s + 1, mark + 1, Some(s), mark + 1)
    ensures Goal(pattern, text, s + 1, mark + 1, Some(s), mark + 1) == Goal(pattern, text, p, t, Some(s), mark)
  {
    AfterStar(pattern, text, p, t, s, mark);
    assert pattern[s..][1..] == pattern[s + 1..];
    assert text[mark..][1..] == text[mark + 1..];
    assert !Matches(pattern[p..], text[t..]);
  }

  lemma StopAtEnd(pattern: Bytes, text: Bytes, p: nat, star: Option<nat>, mark: nat)
    requires p <= |pattern| && mark <= |text| && (star.Some? ==> star.value < p)
    requires Tracks(pattern, text, p, |text|, star, mark)
    ensures Goal(pattern, text, p, |text|, star, mark) == OnlyStars(pattern[p..])
  {
    MatchesNothing(pattern[p..]);
    assert text[|text|..] == [];
    if star.Some? {
      var s := star.value;
      AfterStar(pattern, text, p, |text|, s, mark);
      assert pattern[s..][1..] == pattern[s + 1..];
      if Matches(pattern[s..], text[mark..]) {
        var k := StarTries(pattern[s..], text[mark..]);
        var seg := pattern[s + 1..p];
        assert pattern[s..][1..] == seg + pattern[p..];
        FrontOfMatch(seg, pattern[p..], text[mark..][k..]);
        assert k == 0;
        assert text[mark..][0..] == text[mark..];
      }
    }
  }

  /** From any state in step with the last star, the loop decides the goal of that state. */
  lemma {:induction false} RunDecides(pattern: Bytes, text: Bytes, p: nat, t: nat, star: Option<nat>, mark: nat)
    requires p <= |pattern| && mark <= t <= |text| && (star.Some? ==> star.value < p)
    requires STAR !in text || STAR !in pattern
    requires Tracks(pattern, text, p, t, star, mark)
    ensures Run(pattern, text, p, t, star, mark) == Goal(pattern, text, p, t, star, mark)
    decreases |text| - mark, |pattern| - p
  {
    hide Goal, Tracks, OnlyStars;
    if t == |text| {
      StopAtEnd(pattern, text, p, star, mark);
    } else if p < |pattern| && One(pattern[p], text[t]) {
      assert pattern[p] in pattern && text[t] in text;
      StepAhead(pattern, text, p, t, star, mark);
      RunDecides(pattern, text, p + 1, t + 1, star, mark);
    } else if p < |pattern| && pattern[p] == STAR {
      StepStar(pattern, text, p, t, star, mark);
      RunDecides(pattern, text, p + 1, t, Some(p), t);
    } else if star.Some? {
      StepBack(pattern, text, p, t, star.value, mark);
      RunDecides(pattern, text, star.value + 1, mark + 1, star, mark + 1);
    } else {
      NoWayOn(pattern, text, p, t, mark);
    }
  }

  lemma NoWayOn(pattern: Bytes, text: Bytes, p: nat, t: nat, mark: nat)
    requires p <= |pattern| && mark <= t < |text|
    requires p < |pattern| ==> pattern[p] != STAR && !One(pattern[p], text[t])
    ensures !Goal(pattern, text, p, t, None, mark)
  {
  }

  /** The matcher means what its patterns mean unless both sides hold a star. */
  lemma AcceptsIsMatches(pattern: Bytes, text: Bytes)
    requires STAR !in text || STAR !in pattern
    ensures Accepts(pattern, text) == Matches(pattern, text)
  {
    RunDecides(pattern, text, 0, 0, None, 0);
    assert pattern[0..] == pattern && text[0..] == text;
  }

  // ---------------------------------------------------------------- a star in the text

  lemma {:induction false} RunsThrough(u: Bytes, tail: Bytes, rest: Bytes, k: nat)
    requires k <= |u|
    ensures Run(u + tail, u + rest, k, k, None, 0) == Run(u + tail, u + rest, |u|, |u|, None, 0)
    decreases |u| - k
  {
    if k < |u| {
      RunsThrough(u, tail, rest, k + 1);
    }
  }

  lemma {:induction false} MatchesItself(u: Bytes, tail: Bytes, rest: Bytes)
    requires STAR !in u && Matches(tail, rest)
    ensures Matches(u + tail, u + rest)
  {
    LiteralFront(u, tail, u + rest);
    assert (u + rest)[..|u|] == u && (u + rest)[|u|..] == rest;
  }

  lemma {:induction false} StarTakesAll(text: Bytes)
    ensures Matches([STAR], text)
  {
    if text == [] {
      assert Matches([STAR][1..], text);
    } else {
      StarTakesAll(text[1..]);
    }
  }

  /** A text with a star in it has a pattern that the matcher gets wrong. */
  lemma StarInTextFools(u: Bytes, v: Bytes) returns (pattern: Bytes)
    requires STAR !in u
    ensures Matches(pattern, u + [STAR] + v) && !Accepts(pattern, u + [STAR] + v)
  {
    var rest := [STAR] + v;
    assert u + [STAR] + v == u + rest;
    if v != [] {
      pattern := u + [STAR];
      StarTakesAll(rest);
      MatchesItself(u, [STAR], rest);
      RunsThrough(u, [STAR], rest, 0);
    } else {
      var tail := [STAR, QUESTION];
      pattern := u + tail;
      assert Matches(tail, rest) by {
        assert tail[1..] == [QUESTION];
        assert Matches([QUESTION], rest);
      }
      MatchesItself(u, tail, rest);
      RunsThrough(u, tail, rest, 0);
      assert pattern[|u| + 1..][0] == QUESTION;
    }
  }

  /** glob_match has the meaning of its patterns on exactly the texts without a star. */
  lemma RightExactlyWithoutStar(text: Bytes)
    ensures (forall pattern :: Accepts(pattern, text) == Matches(pattern, text)) <==> STAR !in text
  {
    if STAR !in text {
      forall pattern
        ensures Accepts(pattern, text) == Matches(pattern, text)
      {
        AcceptsIsMatches(pattern, text);
      }
    } else {
      var i := FirstStar(text);
      assert text == text[..i] + [STAR] + text[i + 1..];
      var pattern := StarInTextFools(text[..i], text[i + 1..]);
    }
  }

  lemma {:induction false} FirstStar(text: Bytes) returns (i: nat)
    requires STAR in text
    ensures i < |text| && text[i] == STAR && STAR !in text[..i]
  {
    if text[0] == STAR {
      i := 0;
    } else {
      assert text == [text[0]] + text[1..];
      i := FirstStar(text[1..]);
      assert text[..i + 1] == [text[0]] + text[1..][..i];
      i := i + 1;
    }
  }

  // ---------------------------------------------------------------- the method

  lemma StepsGrow(width: nat, mark: nat, next: nat)
    requires mark <= next
    ensures mark * width <= next * width
    ensures mark < next ==> mark * width + width <= next * width
  {
    if mark < next {
      assert (next - mark - 1) * width >= 0;
    }
  }

  method GlobMatch(pattern: Bytes, text: Bytes) returns (r: bool, ghost steps: nat)
    ensures r == Accepts(pattern, text)
    ensures STAR !in text || STAR !in pattern ==> r == Matches(pattern, text)
    ensures steps <= (|text| + 1) * (|pattern| + 1)
  {
    hide Matches, OnlyStars;
    AcceptsWhenStarless(pattern, text);
    var p: nat, t: nat, mark: nat := 0, 0, 0;
    var star: Option<nat> := None;
    steps := 0;
    ghost var width := |pattern| + 1;
    while t < |text|
      invariant p <= |pattern| && mark <= t <= |text| && (star.Some? ==> star.value < p)
      invariant Accepts(pattern, text) == Run(pattern, text, p, t, star, mark)
      invariant steps <= mark * width + p
      decreases |text| - mark, |pattern| - p
    {
      if p < |pattern| && One(pattern[p], text[t]) {
        p, t := p + 1, t + 1;
      } else if p < |pattern| && pattern[p] == STAR {
        StepsGrow(width, mark, t);
        star, p := Some(p), p + 1;
        mark := t;
      } else if star.Some? {
        StepsGrow(width, mark, mark + 1);
        p := star.value + 1;
        mark := mark + 1;
        t := mark;
      } else {
        StepsGrow(width, mark, |text|);
        StepsGrow(width, |text|, |text| + 1);
        return false, steps + 1;
      }
      steps := steps + 1;
    }
    StepsGrow(width, mark, |text|);
    StepsGrow(width, |text|, |text| + 1);
    r := SkipStars(pattern, p);
  }

  lemma AcceptsWhenStarless(pattern: Bytes, text: Bytes)
    ensures STAR !in text || STAR !in pattern ==> Accepts(pattern, text) == Matches(pattern, text)
  {
    if STAR !in text || STAR !in pattern {
      AcceptsIsMatches(pattern, text);
    }
  }

  /** The closing loop. */
  method SkipStars(pattern: Bytes, start: nat) returns (r: bool)
    requires start <= |pattern|
    ensures r == OnlyStars(pattern[start..])
  {
    var p: nat := start;
    while p < |pattern| && pattern[p] == STAR
      invariant start <= p <= |pattern| && forall i :: start <= i < p ==> pattern[i] == STAR
    {
      p := p + 1;
    }
    r := p == |pattern|;
    assert !r ==> pattern[start..][p - start] != STAR;
  }
}
