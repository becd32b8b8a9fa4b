/** Monitor remapping over exact numbers (src/core/geometry.cpp). */
module Geometry {
  import opened Base

  datatype Rect = Rect(x: int, y: int, width: int, height: int) {
    function Right(): int { x + width }
    function Bottom(): int { y + height }
    function Area(): int { width * height }
    predicate Empty() { width <= 0 || height <= 0 }
  }

  datatype Monitor = Monitor(
    id: Bytes, bounds: Rect, workArea: Rect, dpi: nat, primary: bool, edid: Option<Bytes>)

  datatype RelativeRect = RelativeRect(x: real, y: real, width: real, height: real)

  datatype Remapped = Remapped(frame: Rect, monitorId: Bytes, changed: bool, clamped: bool, rescaled: bool)

  const NO_RECT := Rect(0, 0, 0, 0)

  /** std::clamp */
  function Clamp(v: int, low: int, high: int): (r: int)
    requires low <= high
    ensures low <= r <= high && (low <= v <= high ==> r == v)
  {
    if v < low then low else if high < v then high else v
  }

  function ClampReal(v: real, low: real, high: real): (r: real)
    requires low <= high
    ensures low <= r <= high && (low <= v <= high ==> r == v)
  {
    if v < low then low else if high < v then high else v
  }

  /** std::lround: to the nearest integer, halves away from zero. */
  function Round(v: real): (n: int)
    ensures -0.5 <= n as real - v <= 0.5
    ensures v >= 0.0 ==> n >= 0
  {
    if v >= 0.0 then (v + 0.5).Floor else -((0.5 - v).Floor)
  }

  lemma RoundNear(v: real, n: int)
    requires -0.5 < v - n as real < 0.5
    ensures Round(v) == n
  {
    var m := Round(v);
    assert -1.0 < (m - n) as real < 1.0;
  }

  function UsableArea(m: Monitor): Rect { if m.workArea.Empty() then m.bounds else m.workArea }

  /** `inner` lies in `outer`. */
  predicate Inside(inner: Rect, outer: Rect) {
    && outer.x <= inner.x && inner.Right() <= outer.Right()
    && outer.y <= inner.y && inner.Bottom() <= outer.Bottom()
  }

  // ---------------------------------------------------------------- rectangles

  function Intersection(a: Rect, b: Rect): Rect {
    var left, top := Max(a.x, b.x), Max(a.y, b.y);
    var right, bottom := Min(a.Right(), b.Right()), Min(a.Bottom(), b.Bottom());
    if right <= left || bottom <= top then NO_RECT else Rect(left, top, right - left, bottom - top)
  }

  function UnionOf(a: Rect, b: Rect): Rect {
    if a.Empty() then b
    else if b.Empty() then a
    else
      var left, top := Min(a.x, b.x), Min(a.y, b.y);
      Rect(left, top, Max(a.Right(), b.Right()) - left, Max(a.Bottom(), b.Bottom()) - top)
  }

  predicate Contains(r: Rect, px: int, py: int) { r.x <= px < r.Right() && r.y <= py < r.Bottom() }

  /** The intersection holds exactly the common points; it is empty when there are none. */
  lemma IntersectionPoints(a: Rect, b: Rect, px: int, py: int)
    ensures Contains(Intersection(a, b), px, py) <==> Contains(a, px, py) && Contains(b, px, py)
    ensures Intersection(a, b).Area() >= 0
  {
    var i := Intersection(a, b);
    if i != NO_RECT {
      assert i.width * i.height >= 0;
    }
  }

  /** The smallest rectangle around the monitors. */
  method VirtualBounds(monitors: seq<Monitor>) returns (bounds: Rect)
    ensures forall m <- monitors | !m.bounds.Empty() :: Inside(m.bounds, bounds)
    ensures forall r: Rect | (forall m <- monitors | !m.bounds.Empty() :: Inside(m.bounds, r)) ::
              bounds.Empty() || Inside(bounds, r)
  {
    bounds := NO_RECT;
    for i := 0 to |monitors|
      invariant forall m <- monitors[..i] | !m.bounds.Empty() :: !bounds.Empty() && Inside(m.bounds, bounds)
      invariant forall r: Rect | (forall m <- monitors[..i] | !m.bounds.Empty() :: Inside(m.bounds, r)) ::
                  bounds.Empty() || Inside(bounds, r)
    {
      ghost var before := bounds;
      assert monitors[..i + 1] == monitors[..i] + [monitors[i]];
      bounds := UnionOf(bounds, monitors[i].bounds);
      forall r: Rect | (forall m <- monitors[..i + 1] | !m.bounds.Empty() :: Inside(m.bounds, r))
        ensures bounds.Empty() || Inside(bounds, r)
      {
        assert forall m <- monitors[..i] :: m in monitors[..i + 1];
        assert monitors[i] in monitors[..i + 1];
        assert before.Empty() || Inside(before, r);
      }
    }
    assert monitors[..|monitors|] == monitors;
  }

  // ---------------------------------------------------------------- choosing a monitor

  /** The first place of the least key. */
  predicate FirstLeast(keys: seq<int>, i: int) {
    0 <= i < |keys| && (forall j :: 0 <= j < i ==> keys[i] < keys[j]) && (forall j :: 0 <= j < |keys| ==> keys[i] <= keys[j])
  }

  function LeastIndex(keys: seq<int>): (i: nat)
    requires keys != []
    ensures FirstLeast(keys, i)
  {
    if |keys| == 1 then 0
    else
      var i := LeastIndex(keys[..|keys| - 1]);
      if keys[|keys| - 1] < keys[i] then |keys| - 1 else i
  }

  lemma LeastIsUnique(keys: seq<int>, i: int)
    requires FirstLeast(keys, i)
    ensures keys != [] && LeastIndex(keys) == i
  {
  }

  function Square(n: int): int { n * n }

  /** Four times the squared distance of the centres: the root and the halves do not change the order. */
  function CentreDistance(a: Rect, b: Rect): (d: int)
    ensures d >= 0
  {
    SquareAtLeast(2 * a.x + a.width - (2 * b.x + b.width));
    SquareAtLeast(2 * a.y + a.height - (2 * b.y + b.height));
    Square(2 * a.x + a.width - (2 * b.x + b.width)) + Square(2 * a.y + a.height - (2 * b.y + b.height))
  }

  lemma SquareAtLeast(n: int)
    ensures Square(n) >= 0
  {
  }

  function Overlap(frame: Rect, m: Monitor): (a: int)
    ensures a >= 0
  {
    IntersectionPoints(frame, m.bounds, 0, 0);
    Intersection(frame, m.bounds).Area()
  }

  function Overlaps(frame: Rect, monitors: seq<Monitor>): (keys: seq<int>)
    ensures |keys| == |monitors|
  {
    seq(|monitors|, i requires 0 <= i < |monitors| => -Overlap(frame, monitors[i]))
  }

  function Distances(frame: Rect, monitors: seq<Monitor>): (keys: seq<int>)
    ensures |keys| == |monitors|
  {
    seq(|monitors|, i requires 0 <= i < |monitors| => CentreDistance(frame, monitors[i].bounds))
  }

  /** The monitor with the largest overlap, or the nearest one when none overlaps; the first of equals. */
  function OwningMonitor(frame: Rect, monitors: seq<Monitor>): (r: Option<nat>)
    ensures r.Some? ==> r.value < |monitors|
    ensures r.None? <==> monitors == []
  {
    if monitors == [] then None
    else if exists i :: 0 <= i < |monitors| && Overlap(frame, monitors[i]) > 0
    then Some(LeastIndex(Overlaps(frame, monitors)))
    else Some(LeastIndex(Distances(frame, monitors)))
  }

  /** The single pass of owning_monitor. */
  method FindOwningMonitor(frame: Rect, monitors: seq<Monitor>) returns (best: Option<nat>)
    ensures best == OwningMonitor(frame, monitors)
  {
    hide Overlap, CentreDistance;
    best := None;
    var bestArea := 0;
    var bestDistance := 0;
    for i := 0 to |monitors|
      invariant best.None? <==> i == 0
      invariant best.Some? ==> best.value < i
      invariant bestArea >= 0
      invariant bestArea == 0 ==>
                  && (forall j :: 0 <= j < i ==> Overlap(frame, monitors[j]) == 0)
                  && (best.Some? ==> FirstLeast(Distances(frame, monitors)[..i], best.value)
                                     && bestDistance == Distances(frame, monitors)[best.value])
      invariant bestArea > 0 ==>
                  best.Some? && FirstLeast(Overlaps(frame, monitors)[..i], best.value)
                  && bestArea == Overlap(frame, monitors[best.value])
    {
      var area := Overlap(frame, monitors[i]);
      if area > bestArea {
        bestArea := area;
        best := Some(i);
        bestDistance := CentreDistance(frame, monitors[i].bounds);
      } else if bestArea == 0 {
        var distance := CentreDistance(frame, monitors[i].bounds);
        if best.None? || distance < bestDistance {
          bestDistance := distance;
          best := Some(i);
        }
      }
    }
    if best.Some? {
      if bestArea > 0 {
        assert Overlaps(frame, monitors)[..|monitors|] == Overlaps(frame, monitors);
        LeastIsUnique(Overlaps(frame, monitors), best.value);
      } else {
        assert Distances(frame, monitors)[..|monitors|] == Distances(frame, monitors);
        LeastIsUnique(Distances(frame, monitors), best.value);
      }
    }
  }

  predicate SameSize(a: Monitor, b: Monitor) {
    a.bounds.width == b.bounds.width && a.bounds.height == b.bounds.height
  }

  /** How far down the list of preferences a monitor stands; lower is better. */
  function Tier(source: Monitor, m: Monitor): int {
    if m.id == source.id then 0
    else if source.edid.Some? && m.edid == source.edid then 1
    else if SameSize(m, source) && m.primary == source.primary then 2
    else if SameSize(m, source) then 3
    else if m.primary then 4
    else 5
  }

  function Tiers(source: Monitor, target: seq<Monitor>): (keys: seq<int>)
    ensures |keys| == |target|
  {
    seq(|target|, i requires 0 <= i < |target| => Tier(source, target[i]))
  }

  /** best_match: the first monitor of the best tier. */
  function BestMatch(source: Monitor, target: seq<Monitor>): (r: Option<nat>)
    ensures r.Some? ==> r.value < |target|
    ensures r.None? <==> target == []
  {
    if target == [] then None else Some(LeastIndex(Tiers(source, target)))
  }

  lemma BestMatchIs(source: Monitor, target: seq<Monitor>, i: nat)
    requires i < |target|
    requires forall j :: 0 <= j < i ==> Tier(source, target[i]) < Tier(source, target[j])
    requires forall j :: 0 <= j < |target| ==> Tier(source, target[i]) <= Tier(source, target[j])
    ensures BestMatch(source, target) == Some(i)
  {
    hide Tier;
    LeastIsUnique(Tiers(source, target), i);
  }

  /** primary_monitor: the first primary, else the first. */
  method PrimaryMonitor(monitors: seq<Monitor>) returns (r: Option<nat>)
    ensures r == Primary(monitors)
  {
    for i := 0 to |monitors|
      invariant forall j :: 0 <= j < i ==> !monitors[j].primary
    {
      if monitors[i].primary {
        PrimaryIs(monitors, i);
        return Some(i);
      }
    }
    NoPrimary(monitors);
    return if monitors == [] then None else Some(0);
  }

  function Primary(monitors: seq<Monitor>): (r: Option<nat>)
    ensures r.None? <==> monitors == []
    ensures r.Some? ==> r.value < |monitors|
  {
    if monitors == [] then None
    else if monitors[0].primary then Some(0)
    else
      match Primary(monitors[1..])
      case Some(i) => if monitors[i + 1].primary then Some(i + 1) else Some(0)
      case None => Some(0)
  }

  lemma {:induction false} PrimaryIs(monitors: seq<Monitor>, i: nat)
    requires i < |monitors| && monitors[i].primary && forall j :: 0 <= j < i ==> !monitors[j].primary
    ensures Primary(monitors) == Some(i)
  {
    if i > 0 {
      assert forall j :: 0 <= j < i - 1 ==> monitors[1..][j] == monitors[j + 1];
      PrimaryIs(monitors[1..], i - 1);
    }
  }

  lemma NoPrimary(monitors: seq<Monitor>)
    requires forall j :: 0 <= j < |monitors| ==> !monitors[j].primary
    ensures Primary(monitors) == if monitors == [] then None else Some(0)
  {
  }

  /** The five searches of best_match, one after the other. */
  method FindBestMatch(source: Monitor, target: seq<Monitor>) returns (r: Option<nat>)
    ensures r == BestMatch(source, target)
  {
    hide BestMatch, Primary;
    if target == [] {
      NoMatch(source);
      return None;
    }
    for i := 0 to |target|
      invariant forall j :: 0 <= j < i ==> Tier(source, target[j]) > 0
    {
      if target[i].id == source.id {
        BestMatchIs(source, target, i);
        return Some(i);
      }
    }
    if source.edid.Some? {
      for i := 0 to |target|
        invariant forall j :: 0 <= j < i ==> Tier(source, target[j]) > 1
      {
        if target[i].edid == source.edid {
          BestMatchIs(source, target, i);
          return Some(i);
        }
      }
    }
    for i := 0 to |target|
      invariant forall j :: 0 <= j < i ==> Tier(source, target[j]) > 2
    {
      if SameSize(target[i], source) && target[i].primary == source.primary {
        BestMatchIs(source, target, i);
        return Some(i);
      }
    }
    for i := 0 to |target|
      invariant forall j :: 0 <= j < i ==> Tier(source, target[j]) > 3
    {
      if SameSize(target[i], source) {
        BestMatchIs(source, target, i);
        return Some(i);
      }
    }
    r := PrimaryMonitor(target);
    PrimaryFacts(target);
    BestMatchIs(source, target, r.value);
  }

  lemma NoMatch(source: Monitor)
    ensures BestMatch(source, []) == None
  {
  }

  lemma {:induction false} PrimaryFacts(monitors: seq<Monitor>)
    requires monitors != []
    ensures Primary(monitors).Some?
    ensures var i := Primary(monitors).value;
            && (forall j :: 0 <= j < i ==> !monitors[j].primary)
            && (monitors[i].primary || (i == 0 && forall j :: 0 <= j < |monitors| ==> !monitors[j].primary))
  {
    if !monitors[0].primary && |monitors| > 1 {
      PrimaryFacts(monitors[1..]);
      assert forall j :: 1 <= j < |monitors| ==> monitors[j] == monitors[1..][j - 1];
    }
  }

  // ---------------------------------------------------------------- relative coordinates

  function Ratio(n: int, extent: int): real
    requires extent != 0
  {
    n as real / extent as real
  }

  function Scaled(r: real, extent: int): int { Round(r * extent as real) }

  function ToRelative(frame: Rect, m: Monitor): RelativeRect {
    var area := UsableArea(m);
    if area.Empty() then RelativeRect(0.0, 0.0, 1.0, 1.0)
    else
      RelativeRect(
        ClampReal(Ratio(frame.x - area.x, area.width), -0.5, 1.5),
        ClampReal(Ratio(frame.y - area.y, area.height), -0.5, 1.5),
        ClampReal(Ratio(frame.width, area.width), 0.01, 1.5),
        ClampReal(Ratio(frame.height, area.height), 0.01, 1.5))
  }

  function FromRelative(r: RelativeRect, m: Monitor): Rect {
    var area := UsableArea(m);
    Rect(
      area.x + Scaled(r.x, area.width),
      area.y + Scaled(r.y, area.height),
      Max(1, Scaled(r.width, area.width)),
      Max(1, Scaled(r.height, area.height)))
  }

  function Transfer(frame: Rect, a: Monitor, b: Monitor): Rect { FromRelative(ToRelative(frame, a), b) }

  /** One coordinate there and back: n of a, carried to b and rounded. */
  function Carry(n: int, a: int, b: int): int
    requires a > 0
  {
    Scaled(Ratio(n, a), b)
  }

  // Products are kept behind this name, so that each fact about one is used only where it is called for.

  function Times(x: real, y: real): real { x * y }

  lemma TimesDifference(x: real, y: real, z: real)
    ensures Times(x - y, z) == Times(x, z) - Times(y, z)
  {
  }

  lemma TimesConstant(y: real)
    ensures Times(0.0, y) == 0.0 && Times(1.0, y) == y && Times(0.01, y) == 0.01 * y
  {
  }

  lemma TimesOrder(x: real, y: real, z: real)
    requires z > 0.0
    ensures x < y <==> Times(x, z) < Times(y, z)
  {
    Positive(y - x, z);
    Positive(x - y, z);
    TimesDifference(y, x, z);
  }

  lemma Positive(x: real, y: real)
    requires y > 0.0
    ensures x > 0.0 ==> Times(x, y) > 0.0
  {
  }

  lemma NotNegative(x: real, y: real)
    requires x >= 0.0 && y >= 0.0
    ensures Times(x, y) >= 0.0
  {
  }

  /** A product grows with its second factor, away from zero. */
  lemma TimesGrows(x: real, y: real, z: real)
    requires 0.0 <= y <= z
    ensures x >= 0.0 ==> Times(x, y) <= Times(x, z)
    ensures x <= 0.0 ==> Times(x, z) <= Times(x, y)
    ensures x != 0.0 && y < z ==> Times(x, y) != Times(x, z)
  {
    if x > 0.0 {
      NotNegative(x, z - y);
      if y < z {
        Positive(x, z - y);
      }
    } else if x < 0.0 {
      NotNegative(-x, z - y);
      if y < z {
        Positive(-x, z - y);
      }
    }
  }

  /** What is at most half a unit of the larger extent is less than half a unit of the smaller. */
  lemma ErrorShrinks(d: real, a: real, b: real)
    requires 0.0 < a < b && -0.5 <= Times(d, b) <= 0.5
    ensures -0.5 < Times(d, a) < 0.5
  {
    hide Times;
    TimesGrows(d, a, b);
    NothingTimes(d, a);
    NothingTimes(d, b);
  }

  lemma NothingTimes(x: real, y: real)
    requires y > 0.0
    ensures x == 0.0 ==> Times(x, y) == 0.0
    ensures x > 0.0 ==> Times(x, y) > 0.0
    ensures x < 0.0 ==> Times(x, y) < 0.0
  {
    hide Times;
    TimesConstant(y);
    TimesOrder(0.0, x, y);
    TimesOrder(x, 0.0, y);
  }

  lemma RatioTimes(n: int, a: int)
    requires 0 < a
    ensures Times(Ratio(n, a), a as real) == n as real
  {
  }

  lemma ScaledIs(r: real, extent: int)
    ensures Scaled(r, extent) == Round(Times(r, extent as real))
  {
    assert Times(r, extent as real) == r * extent as real;
  }

  /** The unrounded way back is less than half a unit off. */
  lemma CarryError(n: int, a: int, b: int)
    requires 0 < a <= b
    ensures -0.5 < Times(Ratio(Carry(n, a, b), b), a as real) - n as real < 0.5
  {
    hide Times, Ratio, Scaled, Round;
    var g := Carry(n, a, b);
    var p, q := Ratio(g, b), Ratio(n, a);
    RatioTimes(n, a);
    RatioTimes(g, b);
    ScaledIs(q, b);
    if a == b {
      RoundNear(n as real, n);
    } else {
      TimesDifference(p, q, a as real);
      TimesDifference(p, q, b as real);
      ErrorShrinks(p - q, a as real, b as real);
    }
  }

  /** Rounding on a monitor at least as large loses nothing. */
  lemma CarryBack(n: int, a: int, b: int)
    requires 0 < a <= b
    ensures Carry(Carry(n, a, b), b, a) == n
  {
    hide Times, Ratio, Scaled, Round;
    var p := Ratio(Carry(n, a, b), b);
    CarryError(n, a, b);
    RoundNear(Times(p, a as real), n);
    ScaledIs(p, a);
  }

  /** `frame` lies in the usable area of `a` and takes at least a hundredth of it each way. */
  predicate Fits(frame: Rect, a: Monitor) {
    var area := UsableArea(a);
    && !area.Empty() && Inside(frame, area) && frame.width > 0 && frame.height > 0
    && frame.width * 100 >= area.width && frame.height * 100 >= area.height
  }

  lemma UnitRatio(n: int, a: int)
    requires 0 <= n <= a && 0 < a
    ensures 0.0 <= Ratio(n, a) <= 1.0
    ensures n * 100 >= a ==> Ratio(n, a) >= 0.01
  {
    hide Times, Ratio;
    var q := Ratio(n, a);
    RatioTimes(n, a);
    TimesConstant(a as real);
    TimesOrder(q, 0.0, a as real);
    TimesOrder(1.0, q, a as real);
    TimesOrder(q, 0.01, a as real);
  }

  lemma RoundRange(v: real, b: int)
    requires 0.0 <= v <= b as real
    ensures 0 <= Round(v) <= b
  {
    assert Round(v) as real <= b as real + 0.5;
  }

  /** A carried offset stays within the larger extent. */
  lemma CarryRange(n: int, a: int, b: int)
    requires 0 <= n <= a && 0 < a <= b
    ensures 0 <= Carry(n, a, b) <= b
    ensures n >= 1 ==> Carry(n, a, b) >= 1
  {
    hide Times, Ratio, Scaled, Round;
    var q := Ratio(n, a);
    UnitRatio(n, a);
    RatioTimes(n, a);
    TimesGrows(q, a as real, b as real);
    NotAbove(q, b as real);
    ScaledIs(q, b);
    RoundRange(Times(q, b as real), b);
    RoundFloor(Times(q, b as real));
  }

  lemma NotAbove(q: real, b: real)
    requires 0.0 <= q <= 1.0 && b > 0.0
    ensures 0.0 <= Times(q, b) <= b
  {
    hide Times;
    TimesConstant(b);
    TimesOrder(1.0, q, b);
    NotNegative(q, b);
  }

  lemma RoundFloor(v: real)
    ensures v >= 1.0 ==> Round(v) >= 1
  {
    assert Round(v) as real >= v - 0.5;
  }

  /** The lower clamp of a relative size does no harm on the way back. */
  lemma SizeBack(n: int, a: int, b: int)
    requires 1 <= n <= a <= b && n * 100 >= a
    ensures Scaled(ClampReal(Ratio(Carry(n, a, b), b), 0.01, 1.5), a) == n
  {
    hide Times, Ratio, Scaled, Carry;
    var g := Carry(n, a, b);
    CarryRange(n, a, b);
    UnitRatio(g, b);
    CarryBack(n, a, b);
    CarryIs(g, b, a);
    if Ratio(g, b) < 0.01 {
      ClampedBack(n, a, b, g);
    }
  }

  lemma CarryIs(n: int, a: int, b: int)
    requires a > 0
    ensures Carry(n, a, b) == Scaled(Ratio(n, a), b)
  {
    hide Scaled, Ratio;
  }

  lemma ClampedBack(n: int, a: int, b: int, g: int)
    requires 1 <= n <= a <= b && n * 100 >= a && g == Carry(n, a, b)
    requires Ratio(g, b) < 0.01
    ensures Scaled(0.01, a) == n
  {
    hide Times, Ratio, Scaled, Round;
    TimesOrder(Ratio(g, b), 0.01, a as real);
    TimesConstant(a as real);
    CarryError(n, a, b);
    RoundNear(Times(0.01, a as real), n);
    ScaledIs(0.01, a);
  }

  lemma TransferIs(frame: Rect, a: Monitor, b: Monitor)
    requires Fits(frame, a) && !UsableArea(b).Empty()
    requires UsableArea(a).width <= UsableArea(b).width && UsableArea(a).height <= UsableArea(b).height
    ensures var p, q := UsableArea(a), UsableArea(b);
            Transfer(frame, a, b) == Rect(
              q.x + Carry(frame.x - p.x, p.width, q.width), q.y + Carry(frame.y - p.y, p.height, q.height),
              Carry(frame.width, p.width, q.width), Carry(frame.height, p.height, q.height))
  {
    var p, q := UsableArea(a), UsableArea(b);
    hide Ratio, Scaled, ClampReal, Carry;
    OffsetIs(frame.x - p.x, p.width, q.width);
    OffsetIs(frame.y - p.y, p.height, q.height);
    SizeIs(frame.width, p.width, q.width);
    SizeIs(frame.height, p.height, q.height);
  }

  lemma OffsetIs(n: int, a: int, b: int)
    requires 0 <= n <= a && 0 < a
    ensures Scaled(ClampReal(Ratio(n, a), -0.5, 1.5), b) == Carry(n, a, b)
  {
    hide Ratio, Scaled;
    UnitRatio(n, a);
  }

  lemma SizeIs(n: int, a: int, b: int)
    requires 1 <= n <= a <= b && n * 100 >= a
    ensures Max(1, Scaled(ClampReal(Ratio(n, a), 0.01, 1.5), b)) == Carry(n, a, b)
  {
    hide Ratio, Scaled;
    UnitRatio(n, a);
    CarryRange(n, a, b);
  }

  /** From a monitor to one at least as large and back: the exact frame, despite rounding. */
  lemma ThereAndBack(frame: Rect, a: Monitor, b: Monitor)
    requires Fits(frame, a) && !UsableArea(b).Empty()
    requires UsableArea(a).width <= UsableArea(b).width && UsableArea(a).height <= UsableArea(b).height
    ensures Transfer(Transfer(frame, a, b), b, a) == frame
  {
    var p, q := UsableArea(a), UsableArea(b);
    hide Ratio, Scaled, ClampReal, Carry;
    TransferIs(frame, a, b);
    OffsetBack(frame.x - p.x, p.width, q.width);
    OffsetBack(frame.y - p.y, p.height, q.height);
    SizeBack(frame.width, p.width, q.width);
    SizeBack(frame.height, p.height, q.height);
  }

  lemma OffsetBack(n: int, a: int, b: int)
    requires 0 <= n <= a && 0 < a <= b
    ensures Scaled(ClampReal(Ratio(Carry(n, a, b), b), -0.5, 1.5), a) == n
  {
    hide Ratio, Scaled, Carry;
    CarryRange(n, a, b);
    UnitRatio(Carry(n, a, b), b);
    CarryBack(n, a, b);
    CarryIs(Carry(n, a, b), b, a);
  }

  // ---------------------------------------------------------------- clamping and remapping

  function ClampInto(frame: Rect, area: Rect): Rect {
    if area.Empty() then frame
    else
      var width, height := Max(Min(frame.width, area.width), 1), Max(Min(frame.height, area.height), 1);
      Rect(Clamp(frame.x, area.x, area.Right() - width), Clamp(frame.y, area.y, area.Bottom() - height), width, height)
  }

  function Distance(a: int, b: int): nat { if a < b then b - a else a - b }

  /** Fully inside, as near as any frame of its size, shrunk only as far as needed, and stable. */
  lemma ClampFits(frame: Rect, area: Rect)
    requires !area.Empty()
    ensures var c := ClampInto(frame, area);
            && Inside(c, area) && !c.Empty()
            && (Inside(frame, area) && !frame.Empty() ==> c == frame)
            && ClampInto(c, area) == c
            && (frame.width >= 1 ==> c.width == Min(frame.width, area.width))
            && (frame.height >= 1 ==> c.height == Min(frame.height, area.height))
            && forall r: Rect | Inside(r, area) && r.width == c.width && r.height == c.height ::
                 Distance(frame.x, c.x) <= Distance(frame.x, r.x) && Distance(frame.y, c.y) <= Distance(frame.y, r.y)
  {
  }

  function ScaleForDpi(frame: Rect, source: nat, target: nat): Rect {
    if source == 0 || target == 0 || source == target then frame
    else
      var factor := target as real / source as real;
      Rect(Round(frame.x as real * factor), Round(frame.y as real * factor),
           Max(1, Round(frame.width as real * factor)), Max(1, Round(frame.height as real * factor)))
  }

  /** The display is the one the frame was captured on, in every respect that matters. */
  predicate SameDisplay(source: Monitor, target: Monitor) {
    && target.id == source.id && SameSize(source, target)
    && source.workArea == target.workArea && source.dpi == target.dpi
  }

  /** Where the frame goes on `target` before the final clamp. */
  function Remap(frame: Rect, source: Monitor, target: Monitor): Rect {
    if source.dpi != target.dpi && SameSize(source, target) then ScaleForDpi(frame, source.dpi, target.dpi)
    else Transfer(frame, source, target)
  }

  function FindId(id: Bytes, monitors: seq<Monitor>): (r: Option<nat>)
    ensures r.Some? ==> r.value < |monitors| && monitors[r.value].id == id
    ensures r.None? ==> forall m <- monitors :: m.id != id
  {
    if monitors == [] then None
    else if monitors[0].id == id then Some(0)
    else
      match FindId(id, monitors[1..])
      case Some(i) => Some(i + 1)
      case None => None
  }

  /** The captured monitor of a frame: by id, else by ownership. */
  function Source(frame: Rect, id: Bytes, captured: seq<Monitor>): (r: Option<nat>)
    ensures r.Some? ==> r.value < |captured|
    ensures r.None? <==> captured == []
  {
    match FindId(id, captured)
    case Some(i) => Some(i)
    case None => OwningMonitor(frame, captured)
  }

  /** The current monitor that remap_frame names. */
  function Target(frame: Rect, id: Bytes, captured: seq<Monitor>, current: seq<Monitor>): (k: nat)
    requires current != []
    ensures k < |current|
  {
    match Source(frame, id, captured)
    case None => Primary(current).value
    case Some(i) => BestMatch(captured[i], current).value
  }

  method RemapFrame(frame: Rect, id: Bytes, captured: seq<Monitor>, current: seq<Monitor>) returns (r: Remapped)
    ensures current == [] ==> r == Remapped(frame, id, false, false, false)
    ensures current != [] ==>
              var target, source := current[Target(frame, id, captured, current)], Source(frame, id, captured);
              && r.monitorId == target.id
              && r.changed == (source.None? || captured[source.value].id != target.id)
              && r.frame == (if source.None? then ClampInto(frame, UsableArea(target))
                             else if SameDisplay(captured[source.value], target) then frame
                             else ClampInto(Remap(frame, captured[source.value], target), UsableArea(target)))
    ensures current != [] && !UsableArea(current[Target(frame, id, captured, current)]).Empty() ==>
              var target, source := current[Target(frame, id, captured, current)], Source(frame, id, captured);
              || Inside(r.frame, UsableArea(target))
              || (r.frame == frame && source.Some? && SameDisplay(captured[source.value], target))
  {
    hide Tier, Overlap, CentreDistance, Transfer, ScaleForDpi, ClampInto;
    r := Remapped(frame, id, false, false, false);
    if current == [] {
      return;
    }
    var source := None;
    for i := 0 to |captured|
      invariant source == None && forall j :: 0 <= j < i ==> captured[j].id != id
    {
      if captured[i].id == id {
        source := Some(i);
        FirstId(id, captured, i);
        break;
      }
    }
    if source.None? {
      source := FindOwningMonitor(frame, captured);
    }
    assert source == Source(frame, id, captured);
    if source.None? {
      var primary := PrimaryMonitor(current);
      var area := UsableArea(current[primary.value]);
      var placed := ClampInto(frame, area);
      r := Remapped(placed, current[primary.value].id, true, placed != frame, false);
      ClampsInside(frame, area);
      return;
    }
    var from := captured[source.value];
    var best := FindBestMatch(from, current);
    var target := current[best.value];
    r := r.(monitorId := target.id, changed := target.id != from.id);
    if !r.changed && SameSize(from, target) && from.workArea == target.workArea && from.dpi == target.dpi {
      return;
    }
    var remapped := Transfer(frame, from, target);
    if from.dpi != target.dpi && SameSize(from, target) {
      remapped := ScaleForDpi(frame, from.dpi, target.dpi);
      r := r.(rescaled := true);
    }
    var placed := ClampInto(remapped, UsableArea(target));
    r := r.(clamped := placed != remapped, frame := placed);
    ClampsInside(remapped, UsableArea(target));
  }

  lemma ClampsInside(frame: Rect, area: Rect)
    ensures !area.Empty() ==> Inside(ClampInto(frame, area), area)
  {
  }

  lemma {:induction false} FirstId(id: Bytes, monitors: seq<Monitor>, i: nat)
    requires i < |monitors| && monitors[i].id == id && forall j :: 0 <= j < i ==> monitors[j].id != id
    ensures FindId(id, monitors) == Some(i)
  {
    if i > 0 {
      assert forall j :: 0 <= j < i - 1 ==> monitors[1..][j] == monitors[j + 1];
      FirstId(id, monitors[1..], i - 1);
    }
  }
}
