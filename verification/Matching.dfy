/** Greedy window assignment (src/core/matching.cpp:230-324). */
module Matching {
  import opened Base

  /** What score() blends, similarities in place of the strings and frames they compare. */
  datatype Signals = Signals(
    sameApp: bool, bothNamed: bool, appSimilarity: real, pathSimilarity: real, classSimilarity: real,
    titleSimilarity: real, proximity: real, sameWorkspace: bool, sameTitle: bool)

  datatype Weights = Weights(app: real, path: real, windowClass: real, title: real, geometry: real, workspace: real)

  function Clamp(x: real): real { if x < 0.0 then 0.0 else if x > 1.0 then 1.0 else x }

  function AtLeast(x: real, floor: real): real { if x < floor then floor else x }

  /** score: never outside [0,1], at least 0.6 for the same application, 1 for its same-titled window. */
  function Score(s: Signals, w: Weights): (total: real)
    ensures 0.0 <= total <= 1.0
    ensures s.sameApp ==> total >= 0.6
    ensures s.sameApp && s.sameTitle ==> total == 1.0
    ensures !s.sameApp && s.bothNamed && s.appSimilarity < 0.8 ==> total == 0.0
  {
    if !s.sameApp && s.bothNamed && s.appSimilarity < 0.8 then 0.0
    else if s.sameApp && s.sameTitle then 1.0
    else
      var blend := w.app * (if s.sameApp then 1.0 else s.appSimilarity) + w.path * s.pathSimilarity
                   + w.windowClass * s.classSimilarity + w.title * s.titleSimilarity + w.geometry * s.proximity
                   + w.workspace * (if s.sameWorkspace then 1.0 else 0.0);
      Clamp(if s.sameApp then AtLeast(blend, 0.60) else blend)
  }

  // ---------------------------------------------------------------- candidates

  datatype Candidate = Candidate(i: nat, j: nat, value: real)

  /** The comparator given to std::sort. */
  predicate Before(a: Candidate, b: Candidate) {
    if a.value != b.value then a.value > b.value
    else if a.i != b.i then a.i < b.i
    else a.j < b.j
  }

  predicate SortedBest(cs: seq<Candidate>) { forall k, l :: 0 <= k < l < |cs| ==> cs[k].value >= cs[l].value }

  function InsertSorted(c: Candidate, cs: seq<Candidate>): seq<Candidate> {
    if cs == [] || Before(c, cs[0]) then [c] + cs else [cs[0]] + InsertSorted(c, cs[1..])
  }

  /** std::sort with that comparator. */
  function Sort(cs: seq<Candidate>): seq<Candidate> {
    if cs == [] then [] else InsertSorted(cs[0], Sort(cs[1..]))
  }

  lemma {:induction false} InsertKeeps(c: Candidate, cs: seq<Candidate>)
    requires SortedBest(cs)
    ensures SortedBest(InsertSorted(c, cs))
    ensures forall x :: x in InsertSorted(c, cs) <==> x == c || x in cs
    decreases |cs|
  {
    if cs != [] && !Before(c, cs[0]) {
      var rest := InsertSorted(c, cs[1..]);
      InsertKeeps(c, cs[1..]);
      forall l | 0 <= l < |rest|
        ensures cs[0].value >= rest[l].value
      {
        assert rest[l] in rest;
        if rest[l] != c {
          var p :| 0 <= p < |cs[1..]| && cs[1..][p] == rest[l];
        }
      }
      assert cs == [cs[0]] + cs[1..];
    }
  }

  lemma {:induction false} SortKeeps(cs: seq<Candidate>)
    ensures SortedBest(Sort(cs)) && forall x :: x in Sort(cs) <==> x in cs
    decreases |cs|
  {
    if cs != [] {
      SortKeeps(cs[1..]);
      InsertKeeps(cs[0], Sort(cs[1..]));
      assert cs == [cs[0]] + cs[1..];
    }
  }

  // ---------------------------------------------------------------- the result

  datatype MatchResult = MatchResult(
    matches: seq<Candidate>, unmatchedSnapshot: seq<nat>, unmatchedLive: seq<nat>)

  predicate OneToOne(ms: seq<Candidate>) {
    forall k, l :: 0 <= k < l < |ms| ==> ms[k].i != ms[l].i && ms[k].j != ms[l].j
  }

  predicate TouchesRow(ms: seq<Candidate>, i: nat) { exists k :: 0 <= k < |ms| && ms[k].i == i }

  predicate TouchesColumn(ms: seq<Candidate>, j: nat) { exists k :: 0 <= k < |ms| && ms[k].j == j }

  /** Some match shares a side with the pair and scores at least as high. */
  predicate Dominated(ms: seq<Candidate>, c: Candidate) {
    exists k :: 0 <= k < |ms| && (ms[k].i == c.i || ms[k].j == c.j) && ms[k].value >= c.value
  }

  predicate Ascending(s: seq<nat>) { forall k, l :: 0 <= k < l < |s| ==> s[k] < s[l] }

  /** The pairs of two lists whose score reaches the threshold. */
  ghost predicate Eligible<W>(snapshot: seq<W>, live: seq<W>, score: (W, W) -> real, threshold: real, c: Candidate) {
    c.i < |snapshot| && c.j < |live| && c.value == score(snapshot[c.i], live[c.j]) >= threshold
  }

  ghost predicate GoodMatching<W>(
    snapshot: seq<W>, live: seq<W>, score: (W, W) -> real, threshold: real, r: MatchResult)
  {
    && OneToOne(r.matches)
    && (forall k :: 0 <= k < |r.matches| ==> Eligible(snapshot, live, score, threshold, r.matches[k]))
    && (forall i: nat :: i in r.unmatchedSnapshot <==> i < |snapshot| && !TouchesRow(r.matches, i))
    && (forall j: nat :: j in r.unmatchedLive <==> j < |live| && !TouchesColumn(r.matches, j))
    && Ascending(r.unmatchedSnapshot) && Ascending(r.unmatchedLive)
    && (forall c :: Eligible(snapshot, live, score, threshold, c) ==> Dominated(r.matches, c))
  }

  // ---------------------------------------------------------------- match_windows

  method CollectCandidates<W>(snapshot: seq<W>, live: seq<W>, score: (W, W) -> real, threshold: real)
    returns (cs: seq<Candidate>)
    ensures forall c :: c in cs <==> Eligible(snapshot, live, score, threshold, c)
  {
    cs := [];
    for i := 0 to |snapshot|
      invariant forall c :: c in cs <==> Eligible(snapshot, live, score, threshold, c) && c.i < i
    {
      for j := 0 to |live|
        invariant forall c :: c in cs <==>
                    Eligible(snapshot, live, score, threshold, c) && (c.i < i || (c.i == i && c.j < j))
      {
        var value := score(snapshot[i], live[j]);
        if value >= threshold {
          cs := cs + [Candidate(i, j, value)];
        }
      }
    }
  }

  /** The taken flags say which rows and columns the matches touch. */
  predicate FlagsFit(ms: seq<Candidate>, rows: seq<bool>, columns: seq<bool>) {
    && (forall i :: 0 <= i < |rows| ==> rows[i] == TouchesRow(ms, i))
    && (forall j :: 0 <= j < |columns| ==> columns[j] == TouchesColumn(ms, j))
  }

  /** Where the greedy loop stands after the candidates `seen`. */
  ghost predicate Greedy(seen: seq<Candidate>, ms: seq<Candidate>, rows: seq<bool>, columns: seq<bool>) {
    && FlagsFit(ms, rows, columns) && OneToOne(ms)
    && (forall l :: 0 <= l < |ms| ==> ms[l] in seen)
    && (forall l :: 0 <= l < |seen| ==> Dominated(ms, seen[l]))
  }

  method TakeGreedily(cs: seq<Candidate>, n: nat, m: nat)
    returns (ms: seq<Candidate>, rows: seq<bool>, columns: seq<bool>)
    requires SortedBest(cs) && forall k :: 0 <= k < |cs| ==> cs[k].i < n && cs[k].j < m
    ensures |rows| == n && |columns| == m && Greedy(cs, ms, rows, columns)
  {
    ms := [];
    rows, columns := seq(n, _ => false), seq(m, _ => false);
    for k := 0 to |cs|
      invariant |rows| == n && |columns| == m && Greedy(cs[..k], ms, rows, columns)
    {
      hide Greedy;
      var c := cs[k];
      GreedyTurn(cs, k, ms, rows, columns);
      if rows[c.i] || columns[c.j] {
        continue;
      }
      rows := rows[c.i := true];
      columns := columns[c.j := true];
      ms := ms + [c];
    }
    assert cs[..|cs|] == cs;
  }

  /** A candidate whose row or column is taken lost it to an earlier, no worse one. */
  lemma Pass(cs: seq<Candidate>, k: nat, ms: seq<Candidate>, rows: seq<bool>, columns: seq<bool>)
    requires SortedBest(cs) && k < |cs| && Greedy(cs[..k], ms, rows, columns)
    requires cs[k].i < |rows| && cs[k].j < |columns| && (rows[cs[k].i] || columns[cs[k].j])
    ensures Greedy(cs[..k] + [cs[k]], ms, rows, columns)
  {
    hide Dominated, OneToOne;
    BestSoFar(cs, k, ms);
    TakenDominates(ms, cs[k], rows, columns);
    SeenGrows(cs[..k], cs[k], ms);
  }

  /** One turn of the loop, whichever way it goes. */
  lemma GreedyTurn(cs: seq<Candidate>, k: nat, ms: seq<Candidate>, rows: seq<bool>, columns: seq<bool>)
    requires SortedBest(cs) && k < |cs| && Greedy(cs[..k], ms, rows, columns)
    requires cs[k].i < |rows| && cs[k].j < |columns|
    ensures if rows[cs[k].i] || columns[cs[k].j] then Greedy(cs[..k + 1], ms, rows, columns)
            else Greedy(cs[..k + 1], ms + [cs[k]], rows[cs[k].i := true], columns[cs[k].j := true])
  {
    hide Greedy, SortedBest;
    assert cs[..k + 1] == cs[..k] + [cs[k]];
    if rows[cs[k].i] || columns[cs[k].j] {
      Pass(cs, k, ms, rows, columns);
    } else {
      Take(cs, k, ms, rows, columns);
    }
  }

  lemma SeenGrows(seen: seq<Candidate>, c: Candidate, ms: seq<Candidate>)
    requires forall l :: 0 <= l < |seen| ==> Dominated(ms, seen[l])
    requires Dominated(ms, c)
    ensures forall l :: 0 <= l < |seen + [c]| ==> Dominated(ms, (seen + [c])[l])
  {
    hide Dominated;
  }

  lemma Take(cs: seq<Candidate>, k: nat, ms: seq<Candidate>, rows: seq<bool>, columns: seq<bool>)
    requires k < |cs| && Greedy(cs[..k], ms, rows, columns)
    requires cs[k].i < |rows| && cs[k].j < |columns| && !rows[cs[k].i] && !columns[cs[k].j]
    ensures Greedy(cs[..k] + [cs[k]], ms + [cs[k]], rows[cs[k].i := true], columns[cs[k].j := true])
  {
    hide Dominated, FlagsFit, OneToOne, TouchesRow;
    TakeKeeps(ms, cs[k], rows, columns, cs[..k]);
    SeenGrows(cs[..k], cs[k], ms + [cs[k]]);
  }

  lemma BestSoFar(cs: seq<Candidate>, k: nat, ms: seq<Candidate>)
    requires SortedBest(cs) && k < |cs| && forall l :: 0 <= l < |ms| ==> ms[l] in cs[..k]
    ensures forall l :: 0 <= l < |ms| ==> ms[l].value >= cs[k].value
  {
    forall l | 0 <= l < |ms|
      ensures ms[l].value >= cs[k].value
    {
      var p :| 0 <= p < k && cs[p] == ms[l];
    }
  }

  lemma TakenDominates(ms: seq<Candidate>, c: Candidate, rows: seq<bool>, columns: seq<bool>)
    requires FlagsFit(ms, rows, columns) && c.i < |rows| && c.j < |columns| && (rows[c.i] || columns[c.j])
    requires forall l :: 0 <= l < |ms| ==> ms[l].value >= c.value
    ensures Dominated(ms, c)
  {
    if rows[c.i] {
      assert TouchesRow(ms, c.i);
    } else {
      assert TouchesColumn(ms, c.j);
    }
  }

  /** Adding a pair of free indices. */
  lemma TakeKeeps(ms: seq<Candidate>, c: Candidate, rows: seq<bool>, columns: seq<bool>, before: seq<Candidate>)
    requires FlagsFit(ms, rows, columns) && OneToOne(ms)
    requires c.i < |rows| && c.j < |columns| && !rows[c.i] && !columns[c.j]
    requires forall l :: 0 <= l < |before| ==> Dominated(ms, before[l])
    ensures var grown := ms + [c];
            && FlagsFit(grown, rows[c.i := true], columns[c.j := true]) && OneToOne(grown)
            && Dominated(grown, c) && forall l :: 0 <= l < |before| ==> Dominated(grown, before[l])
  {
    var grown := ms + [c];
    assert grown[|ms|] == c;
    forall i | 0 <= i < |rows|
      ensures rows[c.i := true][i] == TouchesRow(grown, i)
    {
      if TouchesRow(ms, i) {
        var k :| 0 <= k < |ms| && ms[k].i == i;
        assert grown[k].i == i;
      }
    }
    forall j | 0 <= j < |columns|
      ensures columns[c.j := true][j] == TouchesColumn(grown, j)
    {
      if TouchesColumn(ms, j) {
        var k :| 0 <= k < |ms| && ms[k].j == j;
        assert grown[k].j == j;
      }
    }
    forall l | 0 <= l < |before|
      ensures Dominated(grown, before[l])
    {
      assert Dominated(ms, before[l]);
      var k :| 0 <= k < |ms| && (ms[k].i == before[l].i || ms[k].j == before[l].j) && ms[k].value >= before[l].value;
      assert grown[k] == ms[k];
    }
  }

  method Untaken(flags: seq<bool>) returns (free: seq<nat>)
    ensures Ascending(free) && forall i :: i in free <==> 0 <= i < |flags| && !flags[i]
  {
    free := [];
    for i := 0 to |flags|
      invariant Ascending(free) && forall k :: k in free <==> 0 <= k < i && !flags[k]
    {
      assert forall l :: 0 <= l < |free| ==> free[l] in free;
      if !flags[i] {
        free := free + [i];
      }
    }
  }

  /**
   * match_windows: one-to-one on eligible pairs, the unmatched lists hold exactly the other indices,
   * and no eligible pair would improve both of its sides.
   */
  method MatchWindows<W>(snapshot: seq<W>, live: seq<W>, score: (W, W) -> real, threshold: real)
    returns (r: MatchResult)
    ensures GoodMatching(snapshot, live, score, threshold, r)
  {
    hide Eligible, Dominated, OneToOne, FlagsFit;
    var candidates := CollectCandidates(snapshot, live, score, threshold);
    var sorted := Sort(candidates);
    SortKeeps(candidates);
    SortedAreEligible(snapshot, live, score, threshold, sorted);
    var ms, rows, columns := TakeGreedily(sorted, |snapshot|, |live|);
    var unmatchedSnapshot := Untaken(rows);
    var unmatchedLive := Untaken(columns);
    r := MatchResult(ms, unmatchedSnapshot, unmatchedLive);
    GreedyIsGood(snapshot, live, score, threshold, sorted, rows, columns, r);
  }

  lemma SortedAreEligible<W>(
    snapshot: seq<W>, live: seq<W>, score: (W, W) -> real, threshold: real, cs: seq<Candidate>)
    requires forall c :: c in cs <==> Eligible(snapshot, live, score, threshold, c)
    ensures forall k :: 0 <= k < |cs| ==> cs[k].i < |snapshot| && cs[k].j < |live|
  {
    forall k | 0 <= k < |cs|
      ensures cs[k].i < |snapshot| && cs[k].j < |live|
    {
      assert cs[k] in cs;
    }
  }

  lemma GreedyIsGood<W>(
    snapshot: seq<W>, live: seq<W>, score: (W, W) -> real, threshold: real,
    cs: seq<Candidate>, rows: seq<bool>, columns: seq<bool>, r: MatchResult)
    requires forall c :: c in cs <==> Eligible(snapshot, live, score, threshold, c)
    requires Greedy(cs, r.matches, rows, columns) && |rows| == |snapshot| && |columns| == |live|
    requires Ascending(r.unmatchedSnapshot) && forall i :: i in r.unmatchedSnapshot <==> 0 <= i < |rows| && !rows[i]
    requires Ascending(r.unmatchedLive) && forall j :: j in r.unmatchedLive <==> 0 <= j < |columns| && !columns[j]
    ensures GoodMatching(snapshot, live, score, threshold, r)
  {
    hide Eligible, Dominated, OneToOne;
    forall c | Eligible(snapshot, live, score, threshold, c)
      ensures Dominated(r.matches, c)
    {
      var k :| 0 <= k < |cs| && cs[k] == c;
    }
  }

  // ---------------------------------------------------------------- how good it is

  function Total(ms: seq<Candidate>): real {
    if ms == [] then 0.0 else Total(ms[..|ms| - 1]) + ms[|ms| - 1].value
  }

  /** What the matches in row `i` add up to, and in column `j`. */
  function RowValue(ms: seq<Candidate>, i: nat): real {
    if ms == [] then 0.0
    else RowValue(ms[..|ms| - 1], i) + if ms[|ms| - 1].i == i then ms[|ms| - 1].value else 0.0
  }

  function ColumnValue(ms: seq<Candidate>, j: nat): real {
    if ms == [] then 0.0
    else ColumnValue(ms[..|ms| - 1], j) + if ms[|ms| - 1].j == j then ms[|ms| - 1].value else 0.0
  }

  function RowsOf(assignment: seq<Candidate>, ms: seq<Candidate>): real {
    if assignment == [] then 0.0
    else RowsOf(assignment[..|assignment| - 1], ms) + RowValue(ms, assignment[|assignment| - 1].i)
  }

  function ColumnsOf(assignment: seq<Candidate>, ms: seq<Candidate>): real {
    if assignment == [] then 0.0
    else ColumnsOf(assignment[..|assignment| - 1], ms) + ColumnValue(ms, assignment[|assignment| - 1].j)
  }

  predicate NonNegative(ms: seq<Candidate>) { forall k :: 0 <= k < |ms| ==> ms[k].value >= 0.0 }

  lemma {:induction false} ValuesNonNegative(ms: seq<Candidate>, i: nat)
    requires NonNegative(ms)
    ensures RowValue(ms, i) >= 0.0 && ColumnValue(ms, i) >= 0.0
    decreases |ms|
  {
    if ms != [] {
      ValuesNonNegative(ms[..|ms| - 1], i);
    }
  }

  lemma {:induction false} MatchCounts(ms: seq<Candidate>, k: nat)
    requires NonNegative(ms) && k < |ms|
    ensures ms[k].value <= RowValue(ms, ms[k].i) && ms[k].value <= ColumnValue(ms, ms[k].j)
    decreases |ms|
  {
    ValuesNonNegative(ms[..|ms| - 1], ms[k].i);
    ValuesNonNegative(ms[..|ms| - 1], ms[k].j);
    if k < |ms| - 1 {
      MatchCounts(ms[..|ms| - 1], k);
    }
  }

  /** Each pair of the other assignment is paid for by its row and its column. */
  lemma {:induction false} AssignmentBound(assignment: seq<Candidate>, ms: seq<Candidate>)
    requires NonNegative(ms) && forall k :: 0 <= k < |assignment| ==> Dominated(ms, assignment[k])
    ensures Total(assignment) <= RowsOf(assignment, ms) + ColumnsOf(assignment, ms)
    decreases |assignment|
  {
    if assignment != [] {
      var c := assignment[|assignment| - 1];
      assert Dominated(ms, c);
      var k :| 0 <= k < |ms| && (ms[k].i == c.i || ms[k].j == c.j) && ms[k].value >= c.value;
      MatchCounts(ms, k);
      ValuesNonNegative(ms, c.i);
      ValuesNonNegative(ms, c.j);
      AssignmentBound(assignment[..|assignment| - 1], ms);
    }
  }

  /** One more match pays at most once into the rows of a one-to-one assignment. */
  lemma {:induction false} RowsGrow(assignment: seq<Candidate>, ms: seq<Candidate>, g: Candidate)
    requires OneToOne(assignment) && g.value >= 0.0
    ensures RowsOf(assignment, ms + [g]) <= RowsOf(assignment, ms) + if TouchesRow(assignment, g.i) then g.value else 0.0
    ensures ColumnsOf(assignment, ms + [g]) <= ColumnsOf(assignment, ms) + if TouchesColumn(assignment, g.j) then g.value else 0.0
    decreases |assignment|
  {
    if assignment != [] {
      var front, c := assignment[..|assignment| - 1], assignment[|assignment| - 1];
      RowsGrow(front, ms, g);
      assert (ms + [g])[..|ms|] == ms;
      LastIsFresh(assignment, g);
    }
  }

  lemma LastIsFresh(assignment: seq<Candidate>, g: Candidate)
    requires OneToOne(assignment) && assignment != []
    ensures var front, c := assignment[..|assignment| - 1], assignment[|assignment| - 1];
            && (c.i == g.i ==> TouchesRow(assignment, g.i) && !TouchesRow(front, g.i))
            && (c.j == g.j ==> TouchesColumn(assignment, g.j) && !TouchesColumn(front, g.j))
            && (TouchesRow(front, g.i) ==> TouchesRow(assignment, g.i))
            && (TouchesColumn(front, g.j) ==> TouchesColumn(assignment, g.j))
  {
    var front := assignment[..|assignment| - 1];
    assert forall k :: 0 <= k < |front| ==> front[k] == assignment[k];
  }

  lemma {:induction false} RowsAtMostTotal(assignment: seq<Candidate>, ms: seq<Candidate>)
    requires OneToOne(assignment) && NonNegative(ms)
    ensures RowsOf(assignment, ms) <= Total(ms) && ColumnsOf(assignment, ms) <= Total(ms)
    decreases |ms|
  {
    if ms == [] {
      NothingPaid(assignment);
    } else {
      var front, g := ms[..|ms| - 1], ms[|ms| - 1];
      RowsAtMostTotal(assignment, front);
      RowsGrow(assignment, front, g);
      assert ms == front + [g];
    }
  }

  lemma {:induction false} NothingPaid(assignment: seq<Candidate>)
    ensures RowsOf(assignment, []) == 0.0 && ColumnsOf(assignment, []) == 0.0
    decreases |assignment|
  {
    if assignment != [] {
      NothingPaid(assignment[..|assignment| - 1]);
    }
  }

  /**
   * With the non-negative scores that score() gives, the greedy total is at least half that of any
   * one-to-one assignment of eligible pairs.
   */
  lemma HalfOptimal<W>(
    snapshot: seq<W>, live: seq<W>, score: (W, W) -> real, threshold: real, r: MatchResult, assignment: seq<Candidate>)
    requires GoodMatching(snapshot, live, score, threshold, r)
    requires OneToOne(assignment)
    requires forall k :: 0 <= k < |assignment| ==> Eligible(snapshot, live, score, threshold, assignment[k])
    requires forall x: W, y: W :: x in snapshot && y in live ==> score(x, y) >= 0.0
    ensures Total(assignment) <= 2.0 * Total(r.matches)
  {
    forall k | 0 <= k < |r.matches|
      ensures r.matches[k].value >= 0.0
    {
      assert Eligible(snapshot, live, score, threshold, r.matches[k]);
    }
    AssignmentBound(assignment, r.matches);
    RowsAtMostTotal(assignment, r.matches);
  }

  /** The two index sets are split exactly: matched or unmatched, never both. */
  lemma Partition<W>(snapshot: seq<W>, live: seq<W>, score: (W, W) -> real, threshold: real, r: MatchResult)
    requires GoodMatching(snapshot, live, score, threshold, r)
    ensures |r.matches| + |r.unmatchedSnapshot| == |snapshot|
    ensures |r.matches| + |r.unmatchedLive| == |live|
  {
    var rows := seq(|r.matches|, k requires 0 <= k < |r.matches| => r.matches[k].i);
    var columns := seq(|r.matches|, k requires 0 <= k < |r.matches| => r.matches[k].j);
    forall i | 0 <= i < |snapshot|
      ensures i in rows + r.unmatchedSnapshot
    {
      if TouchesRow(r.matches, i) {
        var k :| 0 <= k < |r.matches| && r.matches[k].i == i;
        assert rows[k] == i;
      }
    }
    forall j | 0 <= j < |live|
      ensures j in columns + r.unmatchedLive
    {
      if TouchesColumn(r.matches, j) {
        var k :| 0 <= k < |r.matches| && r.matches[k].j == j;
        assert columns[k] == j;
      }
    }
    forall k | 0 <= k < |r.matches|
      ensures rows[k] < |snapshot| && columns[k] < |live|
      ensures rows[k] !in r.unmatchedSnapshot && columns[k] !in r.unmatchedLive
    {
      assert Eligible(snapshot, live, score, threshold, r.matches[k]);
      assert TouchesRow(r.matches, rows[k]) && TouchesColumn(r.matches, columns[k]);
    }
    DistinctCover(rows + r.unmatchedSnapshot, |snapshot|);
    DistinctCover(columns + r.unmatchedLive, |live|);
  }

  /** A list without repetition that covers 0..n and nothing else has n elements. */
  lemma {:induction false} DistinctCover(s: seq<nat>, n: nat)
    requires forall k, l :: 0 <= k < l < |s| ==> s[k] != s[l]
    requires forall i: nat :: i in s <==> i < n
    ensures |s| == n
    decreases n
  {
    if s == [] {
      assert forall i: nat :: i < n ==> i in s;
      assert !(0 in s);
    } else {
      assert s[0] in s;
      assert n - 1 in s;
      var k :| 0 <= k < |s| && s[k] == n - 1;
      var rest := s[..k] + s[k + 1..];
      assert s == s[..k] + [s[k]] + s[k + 1..];
      forall i: nat
        ensures i in rest <==> i < n - 1
      {
        assert i in s <==> i in rest || i == n - 1;
        assert i == n - 1 ==> i !in rest;
      }
      DistinctCover(rest, n - 1);
    }
  }
}
