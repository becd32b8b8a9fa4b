/** Two-pass assignment of captured tabs to browser windows (src/browser/bridge.cpp:127-183). */
module Tabs {
  import opened Base
  import opened Geometry

  datatype Kind = NoBrowser | Browser(code: nat)

  datatype OsWindow = OsWindow(kind: Kind, frame: Rect, focused: bool, tabs: seq<Bytes>, profile: Option<Bytes>)

  datatype Captured = Captured(kind: Kind, frame: Rect, focused: bool, tabs: seq<Bytes>, profile: Bytes)

  /** The window after a captured one has been attached to it. */
  function Give(w: OsWindow, c: Captured): OsWindow {
    w.(tabs := c.tabs, profile := if c.profile != [] then Some(c.profile) else w.profile)
  }

  predicate Free(capture: seq<Captured>, consumed: seq<bool>, kind: Kind, c: nat) {
    c < |capture| == |consumed| && !consumed[c] && capture[c].kind == kind
  }

  function PairScore(proximity: (Rect, Rect) -> real, w: OsWindow, c: Captured): real {
    0.75 * proximity(w.frame, c.frame) + 0.25 * (if c.focused && w.focused then 1.0 else 0.0)
  }

  // ---------------------------------------------------------------- the choice of each pass

  /** The running best of pass 1 over the first `n` captured windows. */
  datatype Best = Best(at: Option<nat>, score: real)

  function BestFree(proximity: (Rect, Rect) -> real, capture: seq<Captured>, consumed: seq<bool>, w: OsWindow, n: nat): (b: Best)
    requires n <= |capture| == |consumed|
    ensures b.score >= 0.55 && (b.at.None? ==> b.score == 0.55)
    ensures b.at.Some? ==>
              && b.at.value < n && Free(capture, consumed, w.kind, b.at.value)
              && b.score == PairScore(proximity, w, capture[b.at.value]) > 0.55
              && (forall c: nat | c < b.at.value && Free(capture, consumed, w.kind, c) ::
                    PairScore(proximity, w, capture[c]) < b.score)
    ensures forall c: nat | c < n && Free(capture, consumed, w.kind, c) :: PairScore(proximity, w, capture[c]) <= b.score
  {
    if n == 0 then Best(None, 0.55)
    else
      var b := BestFree(proximity, capture, consumed, w, n - 1);
      var score := PairScore(proximity, w, capture[n - 1]);
      if Free(capture, consumed, w.kind, n - 1) && score > b.score then Best(Some(n - 1), score) else b
  }

  /** The first free captured window at or after `n`. */
  function FirstFree(capture: seq<Captured>, consumed: seq<bool>, kind: Kind, n: nat): (r: Option<nat>)
    requires n <= |capture| == |consumed|
    ensures r.Some? ==> r.value >= n && Free(capture, consumed, kind, r.value)
                        && forall c: nat | n <= c < r.value :: !Free(capture, consumed, kind, c)
    ensures r.None? ==> forall c: nat | n <= c :: !Free(capture, consumed, kind, c)
    decreases |capture| - n
  {
    if n == |capture| then None
    else if Free(capture, consumed, kind, n) then Some(n)
    else FirstFree(capture, consumed, kind, n + 1)
  }

  // ---------------------------------------------------------------- the two passes

  /** The windows, what is consumed, and which captured window went to which window. */
  datatype Progress = Progress(windows: seq<OsWindow>, consumed: seq<bool>, picks: seq<Option<nat>>, attached: nat)

  predicate Shaped(capture: seq<Captured>, x: Progress) {
    |x.consumed| == |capture| && |x.picks| == |x.windows|
    && forall i :: 0 <= i < |x.picks| && x.picks[i].Some? ==> x.picks[i].value < |capture|
  }

  function Attach(capture: seq<Captured>, x: Progress, i: nat, c: nat): (y: Progress)
    requires Shaped(capture, x) && i < |x.windows| && c < |capture|
    ensures Shaped(capture, y) && |y.windows| == |x.windows|
  {
    Progress(x.windows[i := Give(x.windows[i], capture[c])], x.consumed[c := true], x.picks[i := Some(c)], x.attached + 1)
  }

  function PassOne(proximity: (Rect, Rect) -> real, capture: seq<Captured>, x: Progress, n: nat): (y: Progress)
    requires Shaped(capture, x) && n <= |x.windows|
    ensures Shaped(capture, y) && |y.windows| == |x.windows|
  {
    if n == 0 then x
    else
      var y := PassOne(proximity, capture, x, n - 1);
      var w := y.windows[n - 1];
      if w.kind == NoBrowser then y
      else
        match BestFree(proximity, capture, y.consumed, w, |capture|).at
        case None => y
        case Some(c) => Attach(capture, y, n - 1, c)
  }

  function PassTwo(capture: seq<Captured>, x: Progress, n: nat): (y: Progress)
    requires Shaped(capture, x) && n <= |x.windows|
    ensures Shaped(capture, y) && |y.windows| == |x.windows|
  {
    if n == 0 then x
    else
      var y := PassTwo(capture, x, n - 1);
      var w := y.windows[n - 1];
      if w.kind == NoBrowser || w.tabs != [] then y
      else
        match FirstFree(capture, y.consumed, w.kind, 0)
        case None => y
        case Some(c) => Attach(capture, y, n - 1, c)
  }

  function Start(capture: seq<Captured>, windows: seq<OsWindow>): (x: Progress)
    ensures Shaped(capture, x) && x.windows == windows
  {
    Progress(windows, seq(|capture|, i => false), seq(|windows|, i => None), 0)
  }

  function Attached(proximity: (Rect, Rect) -> real, capture: seq<Captured>, windows: seq<OsWindow>): (y: Progress)
    ensures Shaped(capture, y) && |y.windows| == |windows|
  {
    PassTwo(capture, PassOne(proximity, capture, Start(capture, windows), |windows|), |windows|)
  }

  // ---------------------------------------------------------------- what both passes keep

  /** Each captured window is used at most once, for its own kind, and the windows show it. */
  ghost predicate Sound(capture: seq<Captured>, before: seq<OsWindow>, x: Progress) {
    && Shaped(capture, x) && |x.windows| == |before|
    && (forall i :: 0 <= i < |before| ==>
          match x.picks[i]
          case None => x.windows[i] == before[i]
          case Some(c) =>
            && x.consumed[c] && capture[c].kind == before[i].kind != NoBrowser
            && x.windows[i] == Give(before[i], capture[c]))
    && (forall i, j :: 0 <= i < j < |before| && x.picks[i].Some? ==> x.picks[i] != x.picks[j])
  }

  /** How many captured windows of a kind are consumed. */
  function Consumed(capture: seq<Captured>, consumed: seq<bool>, kind: Kind): nat
    requires |consumed| == |capture|
  {
    if capture == [] then 0
    else
      var n := |capture| - 1;
      Consumed(capture[..n], consumed[..n], kind) + (if consumed[n] && capture[n].kind == kind then 1 else 0)
  }

  /** How many windows of a kind have been given one. */
  function Given(before: seq<OsWindow>, picks: seq<Option<nat>>, kind: Kind): nat
    requires |picks| == |before|
  {
    if before == [] then 0
    else
      var n := |before| - 1;
      Given(before[..n], picks[..n], kind) + (if picks[n].Some? && before[n].kind == kind then 1 else 0)
  }

  lemma {:induction false} ConsumeOne(capture: seq<Captured>, consumed: seq<bool>, c: nat, kind: Kind)
    requires |consumed| == |capture| && c < |capture| && !consumed[c]
    ensures Consumed(capture, consumed[c := true], kind)
            == Consumed(capture, consumed, kind) + if capture[c].kind == kind then 1 else 0
    decreases |capture|
  {
    var n := |capture| - 1;
    if c == n {
      assert consumed[c := true][..n] == consumed[..n];
    } else {
      assert consumed[c := true][..n] == consumed[..n][c := true];
      ConsumeOne(capture[..n], consumed[..n], c, kind);
    }
  }

  lemma {:induction false} GiveOne(before: seq<OsWindow>, picks: seq<Option<nat>>, i: nat, c: nat, kind: Kind)
    requires |picks| == |before| && i < |before| && picks[i].None?
    ensures Given(before, picks[i := Some(c)], kind)
            == Given(before, picks, kind) + if before[i].kind == kind then 1 else 0
    decreases |before|
  {
    var n := |before| - 1;
    if i == n {
      assert picks[i := Some(c)][..n] == picks[..n];
    } else {
      assert picks[i := Some(c)][..n] == picks[..n][i := Some(c)];
      GiveOne(before[..n], picks[..n], i, c, kind);
    }
  }

  /** As many windows as captured windows have been used, of every kind. */
  ghost predicate Balanced(capture: seq<Captured>, before: seq<OsWindow>, x: Progress)
    requires Shaped(capture, x) && |x.windows| == |before|
  {
    forall kind :: Given(before, x.picks, kind) == Consumed(capture, x.consumed, kind)
  }

  function CountSome(picks: seq<Option<nat>>): nat {
    if picks == [] then 0 else CountSome(picks[..|picks| - 1]) + (if picks[|picks| - 1].Some? then 1 else 0)
  }

  lemma {:induction false} CountOne(picks: seq<Option<nat>>, i: nat, c: nat)
    requires i < |picks| && picks[i].None?
    ensures CountSome(picks[i := Some(c)]) == CountSome(picks) + 1
    decreases |picks|
  {
    var n := |picks| - 1;
    if i == n {
      assert picks[i := Some(c)][..n] == picks[..n];
    } else {
      assert picks[i := Some(c)][..n] == picks[..n][i := Some(c)];
      CountOne(picks[..n], i, c);
    }
  }

  ghost predicate Kept(capture: seq<Captured>, before: seq<OsWindow>, x: Progress) {
    Sound(capture, before, x) && Balanced(capture, before, x) && x.attached == CountSome(x.picks)
  }

  lemma AttachKeeps(capture: seq<Captured>, before: seq<OsWindow>, x: Progress, i: nat, c: nat)
    requires Kept(capture, before, x) && i < |before| && x.picks[i].None?
    requires before[i].kind != NoBrowser && Free(capture, x.consumed, before[i].kind, c)
    ensures Kept(capture, before, Attach(capture, x, i, c))
  {
    hide Consumed, Given, CountSome;
    var y := Attach(capture, x, i, c);
    CountOne(x.picks, i, c);
    forall kind
      ensures Given(before, y.picks, kind) == Consumed(capture, y.consumed, kind)
    {
      GiveOne(before, x.picks, i, c, kind);
      ConsumeOne(capture, x.consumed, c, kind);
    }
  }

  lemma {:induction false} NothingUsed(capture: seq<Captured>, consumed: seq<bool>, kind: Kind)
    requires |consumed| == |capture| && forall c :: 0 <= c < |consumed| ==> !consumed[c]
    ensures Consumed(capture, consumed, kind) == 0
    decreases |capture|
  {
    if capture != [] {
      NothingUsed(capture[..|capture| - 1], consumed[..|capture| - 1], kind);
    }
  }

  lemma {:induction false} NothingGiven(before: seq<OsWindow>, picks: seq<Option<nat>>, kind: Kind)
    requires |picks| == |before| && forall i :: 0 <= i < |picks| ==> picks[i].None?
    ensures Given(before, picks, kind) == 0 && CountSome(picks) == 0
    decreases |before|
  {
    if before != [] {
      NothingGiven(before[..|before| - 1], picks[..|before| - 1], kind);
    }
  }

  lemma StartKept(capture: seq<Captured>, windows: seq<OsWindow>)
    ensures Kept(capture, windows, Start(capture, windows))
  {
    var x := Start(capture, windows);
    NothingGiven(windows, x.picks, NoBrowser);
    forall kind
      ensures Given(windows, x.picks, kind) == Consumed(capture, x.consumed, kind)
    {
      NothingGiven(windows, x.picks, kind);
      NothingUsed(capture, x.consumed, kind);
    }
  }

  lemma {:induction false} PassOneKeeps(
    proximity: (Rect, Rect) -> real, capture: seq<Captured>, windows: seq<OsWindow>, n: nat)
    requires n <= |windows|
    ensures var y := PassOne(proximity, capture, Start(capture, windows), n);
            Kept(capture, windows, y) && forall i :: n <= i < |windows| ==> y.picks[i].None?
  {
    hide Kept, PairScore;
    if n == 0 {
      StartKept(capture, windows);
    } else {
      var y := PassOne(proximity, capture, Start(capture, windows), n - 1);
      PassOneKeeps(proximity, capture, windows, n - 1);
      KeptWindow(capture, windows, y, n - 1);
      var w := y.windows[n - 1];
      if w.kind != NoBrowser {
        var b := BestFree(proximity, capture, y.consumed, w, |capture|);
        if b.at.Some? {
          AttachKeeps(capture, windows, y, n - 1, b.at.value);
        }
      }
    }
  }

  lemma KeptWindow(capture: seq<Captured>, before: seq<OsWindow>, x: Progress, i: nat)
    requires Kept(capture, before, x) && i < |before|
    ensures x.picks[i].None? ==> x.windows[i] == before[i]
    ensures x.picks[i].Some? ==> x.picks[i].value < |capture| && x.windows[i].tabs == capture[x.picks[i].value].tabs
    ensures x.windows[i].kind == before[i].kind
  {
    hide Consumed, Given, CountSome;
  }

  /** Windows start without tabs and every captured window has some. */
  ghost predicate Expected(capture: seq<Captured>, windows: seq<OsWindow>) {
    (forall i :: 0 <= i < |windows| ==> windows[i].tabs == []) && (forall c :: 0 <= c < |capture| ==> capture[c].tabs != [])
  }

  /** No window of the first `n` is left without tabs while a captured window of its kind is free. */
  predicate Settled(capture: seq<Captured>, windows: seq<OsWindow>, x: Progress, n: nat)
    requires Shaped(capture, x) && |x.windows| == |windows| && n <= |windows|
  {
    forall i, c | 0 <= i < n && 0 <= c < |capture| && windows[i].kind != NoBrowser && x.picks[i].None?
      && capture[c].kind == windows[i].kind :: x.consumed[c]
  }

  lemma {:induction false} PassTwoKeeps(capture: seq<Captured>, windows: seq<OsWindow>, x: Progress, n: nat)
    requires n <= |windows| && Kept(capture, windows, x) && Expected(capture, windows)
    ensures var y := PassTwo(capture, x, n);
            Kept(capture, windows, y) && Settled(capture, windows, y, n)
  {
    hide Consumed, Given, CountSome, Sound, Balanced, Give;
    KeptShape(capture, windows, x);
    if n > 0 {
      var y := PassTwo(capture, x, n - 1);
      PassTwoKeeps(capture, windows, x, n - 1);
      KeptWindow(capture, windows, y, n - 1);
      var w := y.windows[n - 1];
      if w.kind != NoBrowser && w.tabs == [] {
        var f := FirstFree(capture, y.consumed, w.kind, 0);
        if f.Some? {
          AttachKeeps(capture, windows, y, n - 1, f.value);
        } else {
          forall c: nat | c < |capture| && capture[c].kind == w.kind
            ensures y.consumed[c]
          {
            assert !Free(capture, y.consumed, w.kind, c);
          }
        }
      }
    }
  }

  lemma KeptShape(capture: seq<Captured>, before: seq<OsWindow>, x: Progress)
    requires Kept(capture, before, x)
    ensures Shaped(capture, x) && |x.windows| == |before|
  {
    hide Consumed, Given, CountSome;
  }

  // ---------------------------------------------------------------- the counts

  function OfKind(windows: seq<OsWindow>, kind: Kind): nat {
    if windows == [] then 0
    else OfKind(windows[..|windows| - 1], kind) + (if windows[|windows| - 1].kind == kind then 1 else 0)
  }

  function CapturedOfKind(capture: seq<Captured>, kind: Kind): nat {
    if capture == [] then 0
    else CapturedOfKind(capture[..|capture| - 1], kind) + (if capture[|capture| - 1].kind == kind then 1 else 0)
  }

  lemma {:induction false} GivenBound(before: seq<OsWindow>, picks: seq<Option<nat>>, kind: Kind)
    requires |picks| == |before|
    ensures Given(before, picks, kind) <= OfKind(before, kind)
    ensures (forall i :: 0 <= i < |before| && before[i].kind == kind ==> picks[i].Some?) ==>
              Given(before, picks, kind) == OfKind(before, kind)
    decreases |before|
  {
    if before != [] {
      GivenBound(before[..|before| - 1], picks[..|before| - 1], kind);
    }
  }

  lemma {:induction false} ConsumedBound(capture: seq<Captured>, consumed: seq<bool>, kind: Kind)
    requires |consumed| == |capture|
    ensures Consumed(capture, consumed, kind) <= CapturedOfKind(capture, kind)
    ensures (forall c :: 0 <= c < |capture| && capture[c].kind == kind ==> consumed[c]) ==>
              Consumed(capture, consumed, kind) == CapturedOfKind(capture, kind)
    decreases |capture|
  {
    if capture != [] {
      ConsumedBound(capture[..|capture| - 1], consumed[..|capture| - 1], kind);
    }
  }

  /** How many windows hold tabs. */
  function Holding(windows: seq<OsWindow>): nat {
    if windows == [] then 0 else Holding(windows[..|windows| - 1]) + (if windows[|windows| - 1].tabs != [] then 1 else 0)
  }

  lemma {:induction false} HoldingIsCount(windows: seq<OsWindow>, picks: seq<Option<nat>>)
    requires |picks| == |windows| && forall i :: 0 <= i < |windows| ==> (windows[i].tabs != [] <==> picks[i].Some?)
    ensures Holding(windows) == CountSome(picks)
    decreases |windows|
  {
    if windows != [] {
      HoldingIsCount(windows[..|windows| - 1], picks[..|windows| - 1]);
    }
  }

  /** Of every kind but None exactly min(windows, captured) are attached; none of kind None. */
  lemma AttachesAsManyAsPossible(
    proximity: (Rect, Rect) -> real, capture: seq<Captured>, windows: seq<OsWindow>, kind: Kind)
    requires Expected(capture, windows)
    ensures var y := Attached(proximity, capture, windows);
            Given(windows, y.picks, kind)
            == if kind == NoBrowser then 0 else Min(OfKind(windows, kind), CapturedOfKind(capture, kind))
  {
    var x := PassOne(proximity, capture, Start(capture, windows), |windows|);
    PassOneKeeps(proximity, capture, windows, |windows|);
    PassTwoKeeps(capture, windows, x, |windows|);
    hide Given, Consumed, CountSome, PassOne, PassTwo, OfKind, CapturedOfKind;
    var y := Attached(proximity, capture, windows);
    GivenBound(windows, y.picks, kind);
    ConsumedBound(capture, y.consumed, kind);
    if kind == NoBrowser {
      NoneGiven(capture, windows, y);
    } else if exists i :: 0 <= i < |windows| && windows[i].kind == kind && y.picks[i].None? {
      var i :| 0 <= i < |windows| && windows[i].kind == kind && y.picks[i].None?;
      assert forall c :: 0 <= c < |capture| && capture[c].kind == kind ==> y.consumed[c];
    }
  }

  lemma NoneGiven(capture: seq<Captured>, before: seq<OsWindow>, y: Progress)
    requires Sound(capture, before, y)
    ensures Given(before, y.picks, NoBrowser) == 0
  {
    GivenNone(before, y.picks);
  }

  lemma {:induction false} GivenNone(before: seq<OsWindow>, picks: seq<Option<nat>>)
    requires |picks| == |before| && forall i :: 0 <= i < |before| && picks[i].Some? ==> before[i].kind != NoBrowser
    ensures Given(before, picks, NoBrowser) == 0
    decreases |before|
  {
    if before != [] {
      GivenNone(before[..|before| - 1], picks[..|before| - 1]);
    }
  }

  /** Each captured window goes to at most one window, of its kind; the count is the windows now with tabs. */
  lemma AttachesSoundly(proximity: (Rect, Rect) -> real, capture: seq<Captured>, windows: seq<OsWindow>)
    requires Expected(capture, windows)
    ensures var y := Attached(proximity, capture, windows);
            Sound(capture, windows, y) && y.attached == Holding(y.windows)
  {
    var x := PassOne(proximity, capture, Start(capture, windows), |windows|);
    PassOneKeeps(proximity, capture, windows, |windows|);
    PassTwoKeeps(capture, windows, x, |windows|);
    hide Given, Consumed, CountSome, PassOne, PassTwo, Holding;
    var y := Attached(proximity, capture, windows);
    HoldingIsCount(y.windows, y.picks);
  }

  // ---------------------------------------------------------------- the method

  method FindBest(proximity: (Rect, Rect) -> real, capture: seq<Captured>, consumed: array<bool>, w: OsWindow)
    returns (at: Option<nat>)
    requires consumed.Length == |capture|
    ensures at == BestFree(proximity, capture, consumed[..], w, |capture|).at
  {
    hide PairScore;
    var best := 0.55;
    at := None;
    for c := 0 to |capture|
      invariant Best(at, best) == BestFree(proximity, capture, consumed[..], w, c)
    {
      if consumed[c] || capture[c].kind != w.kind {
        continue;
      }
      var score := PairScore(proximity, w, capture[c]);
      if score > best {
        best := score;
        at := Some(c);
      }
    }
  }

  method FindFirst(capture: seq<Captured>, consumed: array<bool>, w: OsWindow) returns (at: Option<nat>)
    requires consumed.Length == |capture|
    ensures at == FirstFree(capture, consumed[..], w.kind, 0)
  {
    for c := 0 to |capture|
      invariant FirstFree(capture, consumed[..], w.kind, 0) == FirstFree(capture, consumed[..], w.kind, c)
    {
      if consumed[c] || capture[c].kind != w.kind {
        continue;
      }
      return Some(c);
    }
    return None;
  }

  /** The lines that both passes run for a chosen captured window. */
  method Take(capture: seq<Captured>, windows: array<OsWindow>, consumed: array<bool>, i: nat, c: nat)
    requires i < windows.Length && c < |capture| == consumed.Length
    modifies windows, consumed
    ensures windows[..] == old(windows[..])[i := Give(old(windows[..])[i], capture[c])]
    ensures consumed[..] == old(consumed[..])[c := true]
  {
    hide Give;
    consumed[c] := true;
    windows[i] := Give(windows[i], capture[c]);
  }

  method RunPassOne(proximity: (Rect, Rect) -> real, capture: seq<Captured>, windows: array<OsWindow>, consumed: array<bool>)
    returns (ghost picks: seq<Option<nat>>, attached: nat)
    requires consumed.Length == |capture| && consumed[..] == Start(capture, windows[..]).consumed
    modifies windows, consumed
    ensures Progress(windows[..], consumed[..], picks, attached)
            == PassOne(proximity, capture, Start(capture, old(windows[..])), windows.Length)
  {
    hide BestFree, Give;
    picks, attached := seq(windows.Length, i => None), 0;
    ghost var start := Start(capture, windows[..]);
    for i := 0 to windows.Length
      invariant Progress(windows[..], consumed[..], picks, attached) == PassOne(proximity, capture, start, i)
    {
      if windows[i].kind == NoBrowser {
        continue;
      }
      var at := FindBest(proximity, capture, consumed, windows[i]);
      if at.Some? {
        Take(capture, windows, consumed, i, at.value);
        picks := picks[i := at];
        attached := attached + 1;
      }
    }
  }

  method RunPassTwo(capture: seq<Captured>, windows: array<OsWindow>, consumed: array<bool>, ghost before: Progress)
    returns (ghost picks: seq<Option<nat>>, attached: nat)
    requires consumed.Length == |capture| && Shaped(capture, before)
    requires windows[..] == before.windows && consumed[..] == before.consumed
    modifies windows, consumed
    ensures Progress(windows[..], consumed[..], picks, before.attached + attached)
            == PassTwo(capture, before, windows.Length)
  {
    hide FirstFree, Give;
    picks, attached := before.picks, 0;
    for i := 0 to windows.Length
      invariant Progress(windows[..], consumed[..], picks, before.attached + attached) == PassTwo(capture, before, i)
    {
      if windows[i].kind == NoBrowser || windows[i].tabs != [] {
        continue;
      }
      var at := FindFirst(capture, consumed, windows[i]);
      if at.Some? {
        Take(capture, windows, consumed, i, at.value);
        picks := picks[i := at];
        attached := attached + 1;
      }
    }
  }

  /** attach_tabs_to_windows */
  method AttachTabs(proximity: (Rect, Rect) -> real, capture: seq<Captured>, windows: array<OsWindow>)
    returns (attached: nat)
    modifies windows
    ensures windows[..] == Attached(proximity, capture, old(windows[..])).windows
    ensures attached == Attached(proximity, capture, old(windows[..])).attached
  {
    hide PassOne, PassTwo;
    var consumed := new bool[|capture|](i => false);
    assert consumed[..] == Start(capture, windows[..]).consumed;
    ghost var picks;
    picks, attached := RunPassOne(proximity, capture, windows, consumed);
    ghost var middle := Progress(windows[..], consumed[..], picks, attached);
    var more;
    picks, more := RunPassTwo(capture, windows, consumed, middle);
    attached := attached + more;
  }
}
