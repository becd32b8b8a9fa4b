/** string_similarity: optimal string alignment over three rolling rows (src/core/matching.cpp:176-209). */
module Similarity {
  import opened Base

  /** a[i-2..i] is b[j-2..j] with its two bytes swapped. */
  predicate Swapped(a: Bytes, b: Bytes, i: nat, j: nat)
    requires i <= |a| && j <= |b|
  {
    i > 1 && j > 1 && a[i - 1] == b[j - 2] && a[i - 2] == b[j - 1]
  }

  function Cost(a: Bytes, b: Bytes, i: nat, j: nat): nat
    requires 0 < i <= |a| && 0 < j <= |b|
  {
    if a[i - 1] == b[j - 1] then 0 else 1
  }

  /** The optimal string alignment distance of a[..i] and b[..j]. */
  function Distance(a: Bytes, b: Bytes, i: nat, j: nat): nat
    requires i <= |a| && j <= |b|
    decreases i + j
  {
    if i == 0 then j
    else if j == 0 then i
    else
      Least(Distance(a, b, i, j - 1), Distance(a, b, i - 1, j), Distance(a, b, i - 1, j - 1), Cost(a, b, i, j),
            if Swapped(a, b, i, j) then Some(Distance(a, b, i - 2, j - 2)) else None)
  }

  /** The cheapest way to the cell: from the left, from above, diagonally, or by a swap. */
  function Least(left: nat, above: nat, diagonal: nat, cost: nat, swap: Option<nat>): nat {
    var value := Min(Min(left + 1, above + 1), diagonal + cost);
    match swap
    case Some(s) => Min(value, s + 1)
    case None => value
  }

  /** One unfolding, for proofs that keep Distance folded otherwise. */
  lemma Unfold(a: Bytes, b: Bytes, i: nat, j: nat)
    requires i <= |a| && j <= |b|
    ensures i == 0 ==> Distance(a, b, i, j) == j
    ensures j == 0 ==> Distance(a, b, i, j) == i
    ensures i > 0 && j > 0 ==>
              Distance(a, b, i, j)
              == Least(Distance(a, b, i, j - 1), Distance(a, b, i - 1, j), Distance(a, b, i - 1, j - 1),
                       Cost(a, b, i, j), if Swapped(a, b, i, j) then Some(Distance(a, b, i - 2, j - 2)) else None)
  {
  }

  // ---------------------------------------------------------------- what the distance measures

  /** One column of an alignment; a swap covers two bytes that nothing else touches. */
  datatype Edit = Keep(b: Byte) | Replace(before: Byte, after: Byte) | Insert(b: Byte) | Delete(b: Byte) | Swap(x: Byte, y: Byte)

  function Source(e: Edit): Bytes {
    match e
    case Keep(b) => [b]
    case Replace(x, _) => [x]
    case Insert(_) => []
    case Delete(b) => [b]
    case Swap(x, y) => [x, y]
  }

  function Target(e: Edit): Bytes {
    match e
    case Keep(b) => [b]
    case Replace(_, y) => [y]
    case Insert(b) => [b]
    case Delete(_) => []
    case Swap(x, y) => [y, x]
  }

  function Price(e: Edit): nat { if e.Keep? then 0 else 1 }

  function SourceOf(es: seq<Edit>): Bytes { if es == [] then [] else SourceOf(es[..|es| - 1]) + Source(es[|es| - 1]) }

  function TargetOf(es: seq<Edit>): Bytes { if es == [] then [] else TargetOf(es[..|es| - 1]) + Target(es[|es| - 1]) }

  function PriceOf(es: seq<Edit>): nat { if es == [] then 0 else PriceOf(es[..|es| - 1]) + Price(es[|es| - 1]) }

  predicate Aligns(es: seq<Edit>, a: Bytes, b: Bytes) { SourceOf(es) == a && TargetOf(es) == b }

  lemma Extend(es: seq<Edit>, e: Edit, a: Bytes, b: Bytes)
    requires Aligns(es, a, b)
    ensures Aligns(es + [e], a + Source(e), b + Target(e)) && PriceOf(es + [e]) == PriceOf(es) + Price(e)
  {
    assert (es + [e])[..|es|] == es;
  }

  lemma SplitPrefix(a: Bytes, m: nat, i: nat)
    requires m <= i <= |a|
    ensures a[..i] == a[..m] + a[m..i]
  {
  }

  /** The last column of a cheapest alignment. */
  function LastOf(a: Bytes, b: Bytes, i: nat, j: nat): Edit
    requires i <= |a| && j <= |b| && i + j > 0
  {
    if i == 0 || (j > 0 && Distance(a, b, i, j) == Distance(a, b, i, j - 1) + 1) then Insert(b[j - 1])
    else if j == 0 || Distance(a, b, i, j) == Distance(a, b, i - 1, j) + 1 then Delete(a[i - 1])
    else if Distance(a, b, i, j) == Distance(a, b, i - 1, j - 1) + Cost(a, b, i, j) then
      if a[i - 1] == b[j - 1] then Keep(a[i - 1]) else Replace(a[i - 1], b[j - 1])
    else if i > 1 then Swap(a[i - 2], a[i - 1])
    else Keep(a[i - 1])
  }

  /** It covers the last bytes of both strings. */
  lemma LastCovers(a: Bytes, b: Bytes, i: nat, j: nat)
    requires i <= |a| && j <= |b| && i + j > 0
    ensures var e := LastOf(a, b, i, j);
            && |Source(e)| <= i && |Target(e)| <= j && |Source(e)| + |Target(e)| > 0
            && Source(e) == a[i - |Source(e)|..i] && Target(e) == b[j - |Target(e)|..j]
  {
    hide Distance;
    Unfold(a, b, i, j);
  }

  /** What it costs is the difference to the distance of what it leaves. */
  lemma LastPays(a: Bytes, b: Bytes, i: nat, j: nat)
    requires i <= |a| && j <= |b| && i + j > 0
    requires var e := LastOf(a, b, i, j); |Source(e)| <= i && |Target(e)| <= j
    ensures var e := LastOf(a, b, i, j);
            Distance(a, b, i, j) == Distance(a, b, i - |Source(e)|, j - |Target(e)|) + Price(e)
  {
    hide Distance;
    Unfold(a, b, i, j);
    match LastOf(a, b, i, j)
    case Insert(x) => Unfold(a, b, i, j - 1);
    case Delete(x) => Unfold(a, b, i - 1, j);
    case _ =>
  }

  /** Some alignment costs exactly the distance. */
  lemma {:induction false} DistanceAttained(a: Bytes, b: Bytes, i: nat, j: nat) returns (es: seq<Edit>)
    requires i <= |a| && j <= |b|
    ensures Aligns(es, a[..i], b[..j]) && PriceOf(es) == Distance(a, b, i, j)
    decreases i + j
  {
    if i + j == 0 {
      es := [];
    } else {
      hide Distance, LastOf, SourceOf, TargetOf, PriceOf;
      var e := LastOf(a, b, i, j);
      LastCovers(a, b, i, j);
      LastPays(a, b, i, j);
      var m, n := i - |Source(e)|, j - |Target(e)|;
      es := DistanceAttained(a, b, m, n);
      SplitPrefix(a, m, i);
      SplitPrefix(b, n, j);
      Extend(es, e, a[..m], b[..n]);
      es := es + [e];
    }
  }

  /** No alignment costs less than the distance. */
  lemma {:induction false} DistanceIsLeast(a: Bytes, b: Bytes, i: nat, j: nat, es: seq<Edit>)
    requires i <= |a| && j <= |b| && Aligns(es, a[..i], b[..j])
    ensures Distance(a, b, i, j) <= PriceOf(es)
    decreases |es|
  {
    if es != [] {
      hide Distance;
      var e, rest := es[|es| - 1], es[..|es| - 1];
      var m, n := |SourceOf(rest)|, |TargetOf(rest)|;
      CutPrefix(a, i, SourceOf(rest), Source(e));
      CutPrefix(b, j, TargetOf(rest), Target(e));
      DistanceIsLeast(a, b, m, n, rest);
      LastEdit(a, b, i, j, e);
    }
  }

  lemma CutPrefix(a: Bytes, i: nat, front: Bytes, back: Bytes)
    requires i <= |a| && a[..i] == front + back
    ensures |front| + |back| == i && front == a[..|front|] && back == a[|front|..i]
  {
    assert a[..i][..|front|] == a[..|front|];
    assert a[..i][|front|..] == a[|front|..i];
  }

  lemma LastEdit(a: Bytes, b: Bytes, i: nat, j: nat, e: Edit)
    requires i <= |a| && j <= |b| && |Source(e)| <= i && |Target(e)| <= j
    requires Source(e) == a[i - |Source(e)|..i] && Target(e) == b[j - |Target(e)|..j]
    ensures Distance(a, b, i, j) <= Distance(a, b, i - |Source(e)|, j - |Target(e)|) + Price(e)
  {
    hide Distance;
    Unfold(a, b, i, j);
    match e
    case Keep(x) => assert a[i - 1] == Source(e)[0] && b[j - 1] == Target(e)[0];
    case Swap(x, y) =>
      assert a[i - 2] == Source(e)[0] && a[i - 1] == Source(e)[1];
      assert b[j - 2] == Target(e)[0] && b[j - 1] == Target(e)[1];
    case Insert(x) => Unfold(a, b, i, j - 1);
    case Delete(x) => Unfold(a, b, i - 1, j);
    case Replace(x, y) =>
  }

  // ---------------------------------------------------------------- consequences

  lemma {:induction false} DistanceSymmetric(a: Bytes, b: Bytes, i: nat, j: nat)
    requires i <= |a| && j <= |b|
    ensures Distance(a, b, i, j) == Distance(b, a, j, i)
    decreases i + j
  {
    hide Distance;
    Unfold(a, b, i, j);
    Unfold(b, a, j, i);
    if i > 0 && j > 0 {
      DistanceSymmetric(a, b, i, j - 1);
      DistanceSymmetric(a, b, i - 1, j);
      DistanceSymmetric(a, b, i - 1, j - 1);
      if Swapped(a, b, i, j) {
        DistanceSymmetric(a, b, i - 2, j - 2);
      }
    }
  }

  lemma {:induction false} DistanceBounded(a: Bytes, b: Bytes, i: nat, j: nat)
    requires i <= |a| && j <= |b|
    ensures Distance(a, b, i, j) <= Max(i, j)
    decreases i + j
  {
    hide Distance;
    Unfold(a, b, i, j);
    if i > 0 && j > 0 {
      DistanceBounded(a, b, i - 1, j - 1);
    }
  }

  lemma {:induction false} DistanceZero(a: Bytes, b: Bytes, i: nat, j: nat)
    requires i <= |a| && j <= |b|
    ensures Distance(a, b, i, j) == 0 <==> a[..i] == b[..j]
    decreases i + j
  {
    hide Distance;
    Unfold(a, b, i, j);
    if i > 0 && j > 0 {
      DistanceZero(a, b, i - 1, j - 1);
      assert a[..i] == a[..i - 1] + [a[i - 1]] && b[..j] == b[..j - 1] + [b[j - 1]];
      if a[..i] == b[..j] {
        assert a[..i][i - 1] == b[..j][j - 1];
        assert a[..i][..i - 1] == b[..j][..j - 1];
      }
    }
  }

  // ---------------------------------------------------------------- string_similarity

  function StringSimilarity(a: Bytes, b: Bytes): real {
    if a == b then 1.0
    else if a == [] || b == [] then 0.0
    else 1.0 - Distance(a, b, |a|, |b|) as real / Max(|a|, |b|) as real
  }

  /** In [0,1], symmetric, and 1 for equal strings only. */
  lemma SimilarityLaws(a: Bytes, b: Bytes)
    ensures 0.0 <= StringSimilarity(a, b) <= 1.0
    ensures StringSimilarity(a, b) == StringSimilarity(b, a)
    ensures StringSimilarity(a, b) == 1.0 <==> a == b
  {
    var d, longest := Distance(a, b, |a|, |b|), Max(|a|, |b|);
    DistanceSymmetric(a, b, |a|, |b|);
    DistanceBounded(a, b, |a|, |b|);
    DistanceZero(a, b, |a|, |b|);
    assert a[..|a|] == a && b[..|b|] == b;
    if a != b && a != [] && b != [] {
      QuotientBounds(d, longest);
    }
  }

  lemma QuotientBounds(d: nat, n: nat)
    requires 0 < d <= n
    ensures 0.0 < d as real / n as real <= 1.0
  {
  }

  /** Row `i` of the distance table up to column `j`. */
  predicate IsRow(a: Bytes, b: Bytes, i: nat, j: nat, row: seq<nat>) {
    && |row| == |b| + 1 && i <= |a| && j <= |b| + 1
    && forall k :: 0 <= k < j ==> row[k] == Distance(a, b, i, k)
  }

  /** The inner loop's value is the distance of its cell. */
  lemma CellFits(a: Bytes, b: Bytes, i: nat, j: nat, previous: seq<nat>, current: seq<nat>, before: seq<nat>, value: nat)
    requires 0 < i <= |a| && 0 < j <= |b|
    requires IsRow(a, b, i - 1, |b| + 1, previous) && IsRow(a, b, i, j, current)
    requires |before| == |b| + 1 && (i > 1 ==> IsRow(a, b, i - 2, |b| + 1, before))
    requires value == Least(current[j - 1], previous[j], previous[j - 1], Cost(a, b, i, j),
                            if Swapped(a, b, i, j) then Some(before[j - 2]) else None)
    ensures value == Distance(a, b, i, j)
  {
    hide Distance, Least;
    Unfold(a, b, i, j);
  }

  /** The inner loop: row `i` from the two rows before it. */
  method FillRow(a: Bytes, b: Bytes, i: nat, previous: seq<nat>, beforePrevious: seq<nat>, stale: seq<nat>)
    returns (current: seq<nat>)
    requires 0 < i <= |a| && |stale| == |b| + 1 && |beforePrevious| == |b| + 1
    requires IsRow(a, b, i - 1, |b| + 1, previous)
    requires i > 1 ==> IsRow(a, b, i - 2, |b| + 1, beforePrevious)
    ensures IsRow(a, b, i, |b| + 1, current)
  {
    hide Distance;
    Unfold(a, b, i, 0);
    current := stale[0 := i];
    for j := 1 to |b| + 1
      invariant IsRow(a, b, i, j, current)
    {
      var cost: nat := if a[i - 1] == b[j - 1] then 0 else 1;
      var value := Min(Min(current[j - 1] + 1, previous[j] + 1), previous[j - 1] + cost);
      if i > 1 && j > 1 && a[i - 1] == b[j - 2] && a[i - 2] == b[j - 1] {
        value := Min(value, beforePrevious[j - 2] + 1);
      }
      CellFits(a, b, i, j, previous, current, beforePrevious, value);
      current := current[j := value];
    }
  }

  method ComputeSimilarity(a: Bytes, b: Bytes) returns (similarity: real)
    ensures similarity == StringSimilarity(a, b)
  {
    if a == b {
      return 1.0;
    }
    if a == [] || b == [] {
      return 0.0;
    }
    hide Distance;
    var n, m := |a|, |b|;
    var zeros: seq<nat> := seq(m + 1, _ => 0);
    var previous: seq<nat>, current: seq<nat>, beforePrevious: seq<nat> := zeros, zeros, zeros;
    for j := 0 to m + 1
      invariant IsRow(a, b, 0, j, previous)
    {
      Unfold(a, b, 0, j);
      previous := previous[j := j];
    }
    for i := 1 to n + 1
      invariant IsRow(a, b, i - 1, m + 1, previous)
      invariant i > 1 ==> IsRow(a, b, i - 2, m + 1, beforePrevious)
      invariant |current| == m + 1 && |beforePrevious| == m + 1
    {
      current := FillRow(a, b, i, previous, beforePrevious, current);
      beforePrevious := previous;
      previous := current;
    }
    var longest := Max(n, m);
    return 1.0 - previous[m] as real / longest as real;
  }
}
