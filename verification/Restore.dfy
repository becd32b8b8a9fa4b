/** Planning and executing a restore (src/core/restore_engine.cpp:29-81, 155-263, 265-435). */
module Restore {
  import opened Base
  import opened Geometry
  import opened Desktop

  // ---------------------------------------------------------------- inputs

  /** The comparisons of src/core/matching.cpp that the planner calls. */
  datatype Similarity = Similarity(
    normalize: Bytes -> Bytes, title: (Bytes, Bytes) -> real, proximity: (Rect, Rect) -> real)

  datatype Snapshot = Snapshot(windows: seq<Window>, cursor: Cursor)

  datatype Options = Options(
    selected: Window -> bool, launch: bool, tabs: bool, cursor: bool, focus: bool, zOrder: bool, workspaces: bool)

  datatype Capabilities = Capabilities(
    launch: bool, geometry: bool, state: bool, zOrder: bool, focus: bool, desktops: bool, warp: bool)

  /** A windowing backend: what each call does to its state. `tabs` is the browser bridge, if there is one. */
  datatype Backend<!S> = Backend(
    setFrame: (S, nat, Rect) -> Outcome<S>,
    setState: (S, nat, WindowState) -> Outcome<S>,
    moveToWorkspace: (S, nat, Bytes) -> Outcome<S>,
    raise: (S, nat) -> Outcome<S>,
    focus: (S, nat) -> Outcome<S>,
    warp: (S, int, int) -> Outcome<S>,
    launch: (S, Window) -> Answer<S>,
    awaitWindow: (S, nat, Bytes) -> Answer<S>,
    tabs: Option<Window -> Option<nat>>)

  // ---------------------------------------------------------------- matching

  function MatchScore(sim: Similarity, saved: Window, live: Window): real {
    0.7 * sim.title(saved.title, live.title) + 0.3 * sim.proximity(saved.frame, live.frame)
  }

  predicate Candidate(sim: Similarity, saved: Window, live: Window, used: seq<nat>) {
    live.handle !in used && sim.normalize(live.appId) == sim.normalize(saved.appId)
  }

  /** Live window `i` is what best_live_match returns: the first of the best candidates, if good enough. */
  predicate IsBestMatch(sim: Similarity, saved: Window, live: seq<Window>, used: seq<nat>, i: nat) {
    && i < |live| && Candidate(sim, saved, live[i], used) && MatchScore(sim, saved, live[i]) >= 0.35
    && (forall j :: 0 <= j < |live| && Candidate(sim, saved, live[j], used) ==>
          MatchScore(sim, saved, live[j]) <= MatchScore(sim, saved, live[i]))
    && (forall j :: 0 <= j < i && Candidate(sim, saved, live[j], used) ==>
          MatchScore(sim, saved, live[j]) < MatchScore(sim, saved, live[i]))
  }

  /** The best candidate before position `n`, with the running best_score of the loop. */
  datatype Best = Best(at: Option<nat>, score: real)

  function BestAmong(sim: Similarity, saved: Window, live: seq<Window>, used: seq<nat>, n: nat): (b: Best)
    requires n <= |live|
    ensures b.at.None? ==> b.score == 0.0
    ensures b.at.Some? ==>
              && b.at.value < n && b.score > 0.0
              && Candidate(sim, saved, live[b.at.value], used) && MatchScore(sim, saved, live[b.at.value]) == b.score
              && (forall j :: 0 <= j < b.at.value && Candidate(sim, saved, live[j], used) ==>
                    MatchScore(sim, saved, live[j]) < b.score)
    ensures forall j :: 0 <= j < n && Candidate(sim, saved, live[j], used) ==> MatchScore(sim, saved, live[j]) <= b.score
  {
    if n == 0 then Best(None, 0.0)
    else
      var b := BestAmong(sim, saved, live, used, n - 1);
      var score := MatchScore(sim, saved, live[n - 1]);
      if Candidate(sim, saved, live[n - 1], used) && score > b.score then Best(Some(n - 1), score) else b
  }

  function BestLiveMatch(sim: Similarity, saved: Window, live: seq<Window>, used: seq<nat>): (r: Option<nat>)
    ensures r.Some? ==> r.value < |live| && IsBestMatch(sim, saved, live, used, r.value)
    ensures r.None? ==> forall i: nat :: !IsBestMatch(sim, saved, live, used, i)
  {
    var b := BestAmong(sim, saved, live, used, |live|);
    if b.score >= 0.35 then b.at else None
  }

  method FindBestLiveMatch(sim: Similarity, saved: Window, live: seq<Window>, used: seq<nat>) returns (r: Option<nat>)
    ensures r == BestLiveMatch(sim, saved, live, used)
  {
    hide MatchScore;
    var app := sim.normalize(saved.appId);
    var best: Option<nat> := None;
    var bestScore := 0.0;
    for i := 0 to |live|
      invariant Best(best, bestScore) == BestAmong(sim, saved, live, used, i)
    {
      if live[i].handle in used {
        continue;
      }
      if sim.normalize(live[i].appId) != app {
        continue;
      }
      var score := MatchScore(sim, saved, live[i]);
      if score > bestScore {
        bestScore := score;
        best := Some(i);
      }
    }
    r := if bestScore >= 0.35 then best else None;
  }

  /** The live window each saved window is matched with, in order, none twice. */
  function Assign(sim: Similarity, saved: seq<Window>, live: seq<Window>, used: seq<nat>): (a: seq<Option<nat>>)
    ensures |a| == |saved|
    ensures forall k :: 0 <= k < |a| && a[k].Some? ==> a[k].value < |live|
  {
    if saved == [] then []
    else
      match BestLiveMatch(sim, saved[0], live, used)
      case None => [None] + Assign(sim, saved[1..], live, used)
      case Some(i) => [Some(i)] + Assign(sim, saved[1..], live, used + [live[i].handle])
  }

  // ---------------------------------------------------------------- clamp_to_monitors

  function WorkOverlap(frame: Rect, m: Monitor): int {
    var x, y := Max(frame.x, m.workArea.x), Max(frame.y, m.workArea.y);
    var right, bottom := Min(frame.Right(), m.workArea.Right()), Min(frame.Bottom(), m.workArea.Bottom());
    Max(0, right - x) * Max(0, bottom - y)
  }

  function WorkOverlaps(frame: Rect, monitors: seq<Monitor>): (keys: seq<int>)
    ensures |keys| == |monitors|
  {
    seq(|monitors|, i requires 0 <= i < |monitors| => -WorkOverlap(frame, monitors[i]))
  }

  function IntoArea(frame: Rect, area: Rect): Rect {
    var width, height := Min(frame.width, area.width), Min(frame.height, area.height);
    Rect(Min(Max(frame.x, area.x), area.Right() - width), Min(Max(frame.y, area.y), area.Bottom() - height), width, height)
  }

  /** Into the work area that overlaps the frame most; the first of equals. */
  function ClampToMonitors(frame: Rect, monitors: seq<Monitor>): Rect {
    if monitors == [] then frame
    else IntoArea(frame, monitors[LeastIndex(WorkOverlaps(frame, monitors))].workArea)
  }

  lemma IntoAreaFits(frame: Rect, area: Rect)
    requires frame.width >= 0 && frame.height >= 0 && !area.Empty()
    ensures Inside(IntoArea(frame, area), area)
    ensures Inside(frame, area) ==> IntoArea(frame, area) == frame
  {
  }

  /** A frame of non-negative size lands inside the work area of a monitor. */
  lemma ClampedToMonitor(frame: Rect, monitors: seq<Monitor>)
    requires monitors != [] && frame.width >= 0 && frame.height >= 0
    requires forall m <- monitors :: !m.workArea.Empty()
    ensures exists m <- monitors :: Inside(ClampToMonitors(frame, monitors), m.workArea)
  {
    var i := LeastIndex(WorkOverlaps(frame, monitors));
    assert monitors[i] in monitors;
    IntoAreaFits(frame, monitors[i].workArea);
  }

  method FindClamp(frame: Rect, monitors: seq<Monitor>) returns (r: Rect)
    ensures r == ClampToMonitors(frame, monitors)
  {
    hide WorkOverlap;
    if monitors == [] {
      return frame;
    }
    var target, best := 0, -1;
    for i := 0 to |monitors|
      invariant 0 <= target < |monitors|
      invariant i == 0 ==> best == -1
      invariant i > 0 ==> target < i && best == WorkOverlap(frame, monitors[target])
                          && FirstLeast(WorkOverlaps(frame, monitors)[..i], target)
    {
      var overlap := WorkOverlap(frame, monitors[i]);
      OverlapNotNegative(frame, monitors[i]);
      if overlap > best {
        best := overlap;
        target := i;
      }
    }
    assert WorkOverlaps(frame, monitors)[..|monitors|] == WorkOverlaps(frame, monitors);
    LeastIsUnique(WorkOverlaps(frame, monitors), target);
    return IntoArea(frame, monitors[target].workArea);
  }

  lemma OverlapNotNegative(frame: Rect, m: Monitor)
    ensures WorkOverlap(frame, m) >= 0
  {
    var x, y := Max(frame.x, m.workArea.x), Max(frame.y, m.workArea.y);
    var right, bottom := Min(frame.Right(), m.workArea.Right()), Min(frame.Bottom(), m.workArea.Bottom());
    NotNegativeProduct(Max(0, right - x), Max(0, bottom - y));
  }

  lemma NotNegativeProduct(a: int, b: int)
    requires a >= 0 && b >= 0
    ensures a * b >= 0
  {
  }

  // ---------------------------------------------------------------- the plan

  datatype StepKind =
    | LaunchProcess | WaitForWindow | MoveWindow | SetWindowState | SetWorkspace
    | RaiseWindow | RestoreTabs | WarpCursor | FocusWindow

  /** A step without its texts. */
  datatype Step = Step(kind: StepKind, target: Bytes, skipped: bool)

  /** The steps for one window once there is, or will be, a window to drive. */
  function PlaceSteps(o: Options, c: Capabilities, w: Window): seq<Step> {
    [Step(MoveWindow, w.id, !c.geometry)]
    + (if w.state != Normal then [Step(SetWindowState, w.id, !c.state)] else [])
    + (if o.workspaces && w.workspace.Some? then [Step(SetWorkspace, w.id, !c.desktops)] else [])
    + (if o.tabs && w.tabs > 0 then [Step(RestoreTabs, w.id, false)] else [])
  }

  function WindowSteps(o: Options, c: Capabilities, w: Window, matched: bool): seq<Step> {
    if matched then PlaceSteps(o, c, w)
    else if o.launch then
      [Step(LaunchProcess, w.id, !c.launch), Step(WaitForWindow, w.id, !c.launch)] + PlaceSteps(o, c, w)
    else [Step(MoveWindow, w.id, true)]
  }

  function PlanWindows(
    sim: Similarity, o: Options, c: Capabilities, saved: seq<Window>, live: seq<Window>, used: seq<nat>): seq<Step>
  {
    if saved == [] then []
    else if !o.selected(saved[0]) then PlanWindows(sim, o, c, saved[1..], live, used)
    else
      match BestLiveMatch(sim, saved[0], live, used)
      case None => WindowSteps(o, c, saved[0], false) + PlanWindows(sim, o, c, saved[1..], live, used)
      case Some(i) =>
        WindowSteps(o, c, saved[0], true) + PlanWindows(sim, o, c, saved[1..], live, used + [live[i].handle])
  }

  function Selected(o: Options, saved: seq<Window>): seq<Window> {
    if saved == [] then [] else (if o.selected(saved[0]) then [saved[0]] else []) + Selected(o, saved[1..])
  }

  function InsertByZ(w: Window, ws: seq<Window>): seq<Window> {
    if ws == [] || w.zOrder < ws[0].zOrder then [w] + ws else [ws[0]] + InsertByZ(w, ws[1..])
  }

  /** std::sort by z_order; among equals any order would do. */
  function SortByZ(ws: seq<Window>): seq<Window> {
    if ws == [] then [] else InsertByZ(ws[0], SortByZ(ws[1..]))
  }

  function RaiseSteps(c: Capabilities, ws: seq<Window>): (steps: seq<Step>)
    ensures |steps| == |ws|
  {
    seq(|ws|, i requires 0 <= i < |ws| => Step(RaiseWindow, ws[i].id, !c.zOrder))
  }

  function ClosingSteps(o: Options, c: Capabilities, cursor: Cursor): seq<Step> {
    (if o.cursor then [Step(WarpCursor, Ascii("cursor"), !c.warp)] else [])
    + (if o.focus && cursor.focusedWindow.Some? then [Step(FocusWindow, cursor.focusedWindow.value, !c.focus)] else [])
  }

  function Plan(sim: Similarity, o: Options, c: Capabilities, snapshot: Snapshot, live: seq<Window>): seq<Step> {
    PlanWindows(sim, o, c, snapshot.windows, live, [])
    + (if o.zOrder then RaiseSteps(c, SortByZ(Selected(o, snapshot.windows))) else [])
    + ClosingSteps(o, c, snapshot.cursor)
  }

  lemma PlanStep(
    sim: Similarity, o: Options, c: Capabilities, saved: seq<Window>, live: seq<Window>, used: seq<nat>, found: Option<nat>)
    requires saved != [] && o.selected(saved[0]) && found == BestLiveMatch(sim, saved[0], live, used)
    ensures PlanWindows(sim, o, c, saved, live, used)
            == WindowSteps(o, c, saved[0], found.Some?)
               + PlanWindows(sim, o, c, saved[1..], live, if found.Some? then used + [live[found.value].handle] else used)
  {
    hide BestLiveMatch, WindowSteps;
  }

  lemma PlanSkip(sim: Similarity, o: Options, c: Capabilities, saved: seq<Window>, live: seq<Window>, used: seq<nat>)
    ensures saved == [] ==> PlanWindows(sim, o, c, saved, live, used) == []
    ensures saved != [] && !o.selected(saved[0]) ==>
              PlanWindows(sim, o, c, saved, live, used) == PlanWindows(sim, o, c, saved[1..], live, used)
  {
  }

  /** The first loop of plan_restore. */
  method PlanEachWindow(sim: Similarity, o: Options, c: Capabilities, saved: seq<Window>, live: seq<Window>)
    returns (steps: seq<Step>)
    ensures steps == PlanWindows(sim, o, c, saved, live, [])
  {
    hide *;
    var used: seq<nat> := [];
    steps := [];
    assert saved[0..] == saved;
    for i := 0 to |saved|
      invariant PlanWindows(sim, o, c, saved, live, []) == steps + PlanWindows(sim, o, c, saved[i..], live, used)
    {
      assert saved[i..][1..] == saved[i + 1..];
      PlanSkip(sim, o, c, saved[i..], live, used);
      if !o.selected(saved[i]) {
        continue;
      }
      var found := FindBestLiveMatch(sim, saved[i], live, used);
      PlanStep(sim, o, c, saved[i..], live, used, found);
      var block := BuildWindowSteps(o, c, saved[i], found.Some?);
      if found.Some? {
        used := used + [live[found.value].handle];
      }
      Assoc(steps, block, PlanWindows(sim, o, c, saved[i + 1..], live, used));
      steps := steps + block;
    }
    PlanSkip(sim, o, c, saved[|saved|..], live, used);
  }

  /** plan_restore */
  method PlanRestore(sim: Similarity, o: Options, c: Capabilities, snapshot: Snapshot, live: seq<Window>)
    returns (steps: seq<Step>)
    ensures steps == Plan(sim, o, c, snapshot, live)
  {
    hide PlanWindows, SortByZ, Selected, RaiseSteps, ClosingSteps;
    steps := PlanEachWindow(sim, o, c, snapshot.windows, live);
    NoSteps(steps);
    if o.zOrder {
      var ordered := CollectSelected(o, snapshot.windows);
      ordered := SortWindows(ordered);
      steps := steps + RaiseSteps(c, ordered);
    }
    var closing := BuildClosingSteps(o, c, snapshot.cursor);
    steps := steps + closing;
  }

  lemma NoSteps(steps: seq<Step>)
    ensures steps + [] == steps
  {
  }

  method BuildClosingSteps(o: Options, c: Capabilities, cursor: Cursor) returns (steps: seq<Step>)
    ensures steps == ClosingSteps(o, c, cursor)
  {
    steps := [];
    if o.cursor {
      steps := steps + [Step(WarpCursor, Ascii("cursor"), !c.warp)];
    }
    if o.focus && cursor.focusedWindow.Some? {
      steps := steps + [Step(FocusWindow, cursor.focusedWindow.value, !c.focus)];
    }
  }

  /** The body of the planning loop for one selected window. */
  method BuildWindowSteps(o: Options, c: Capabilities, w: Window, matched: bool) returns (steps: seq<Step>)
    ensures steps == WindowSteps(o, c, w, matched)
  {
    var opening: seq<Step> := [];
    if !matched {
      if o.launch {
        opening := [Step(LaunchProcess, w.id, !c.launch), Step(WaitForWindow, w.id, !c.launch)];
      } else {
        return [Step(MoveWindow, w.id, true)];
      }
    }
    steps := [Step(MoveWindow, w.id, !c.geometry)];
    NoSteps(steps);
    if w.state != Normal {
      steps := steps + [Step(SetWindowState, w.id, !c.state)];
    }
    NoSteps(steps);
    if o.workspaces && w.workspace.Some? {
      steps := steps + [Step(SetWorkspace, w.id, !c.desktops)];
    }
    NoSteps(steps);
    if o.tabs && w.tabs > 0 {
      steps := steps + [Step(RestoreTabs, w.id, false)];
    }
    assert steps == PlaceSteps(o, c, w);
    hide PlaceSteps;
    assert opening == [] ==> opening + steps == steps;
    steps := opening + steps;
  }

  lemma SelectedStep(o: Options, saved: seq<Window>, i: nat)
    requires i < |saved|
    ensures Selected(o, saved[i..]) == (if o.selected(saved[i]) then [saved[i]] else []) + Selected(o, saved[i + 1..])
  {
    assert saved[i..][0] == saved[i] && saved[i..][1..] == saved[i + 1..];
  }

  method CollectSelected(o: Options, saved: seq<Window>) returns (ws: seq<Window>)
    ensures ws == Selected(o, saved)
  {
    ws := [];
    assert saved[0..] == saved;
    for i := 0 to |saved|
      invariant Selected(o, saved) == ws + Selected(o, saved[i..])
    {
      SelectedStep(o, saved, i);
      if o.selected(saved[i]) {
        ws := ws + [saved[i]];
      }
    }
  }

  method SortWindows(ws: seq<Window>) returns (sorted: seq<Window>)
    ensures sorted == SortByZ(ws)
  {
    sorted := [];
    var i := |ws|;
    while i > 0
      invariant 0 <= i <= |ws| && sorted == SortByZ(ws[i..])
    {
      i := i - 1;
      assert ws[i..][1..] == ws[i + 1..];
      sorted := InsertByZ(ws[i], sorted);
    }
    assert ws[0..] == ws;
  }

  // ---------------------------------------------------------------- execution

  datatype Failure = LaunchFailed | NoWindowAppeared | PlacementFailed

  datatype Warning =
    | SkippedStep | NoLiveWindow | StateFailed | WorkspaceFailed | RaiseFailed | TabsFailed | WarpFailed | FocusFailed

  /** The platform, the handles map and the report while a plan runs. */
  datatype Exec<+S> = Exec(
    state: S, handles: map<Bytes, nat>, restored: nat, failed: nat, launched: nat, tabs: nat,
    warnings: seq<Warning>, errors: seq<Failure>)

  function FindWindow(ws: seq<Window>, id: Bytes): (r: Option<Window>)
    ensures r.Some? ==> r.value in ws && r.value.id == id
    ensures r.None? ==> forall w <- ws :: w.id != id
  {
    if ws == [] then None else if ws[0].id == id then Some(ws[0]) else FindWindow(ws[1..], id)
  }

  function PidKey(id: Bytes): Bytes { id + Ascii(":pid") }

  function Warn<S>(x: Exec<S>, ok: bool, w: Warning): Exec<S> { if ok then x else x.(warnings := x.warnings + [w]) }

  function Fail<S>(x: Exec<S>, e: Failure): Exec<S> { x.(failed := x.failed + 1, errors := x.errors + [e]) }

  function RunLaunch<S>(b: Backend<S>, saved: Window, target: Bytes, x: Exec<S>): Exec<S> {
    var a := b.launch(x.state, saved);
    match a.value
    case None => Fail(x.(state := a.state), LaunchFailed)
    case Some(pid) => x.(state := a.state, launched := x.launched + 1, handles := x.handles[PidKey(target) := pid])
  }

  function RunWait<S>(b: Backend<S>, saved: Window, target: Bytes, x: Exec<S>): Exec<S> {
    var pid := if PidKey(target) in x.handles then x.handles[PidKey(target)] else 0;
    var a := b.awaitWindow(x.state, pid, saved.title);
    match a.value
    case None => Fail(x.(state := a.state), NoWindowAppeared)
    case Some(h) => x.(state := a.state, handles := x.handles[target := h])
  }

  function RunMove<S>(b: Backend<S>, monitors: seq<Monitor>, saved: Option<Window>, target: Bytes, x: Exec<S>): Exec<S> {
    if saved.None? || target !in x.handles then Warn(x, false, NoLiveWindow)
    else
      var r := b.setFrame(x.state, x.handles[target], ClampToMonitors(saved.value.restoredFrame, monitors));
      if r.ok then x.(state := r.state, restored := x.restored + 1) else Fail(x.(state := r.state), PlacementFailed)
  }

  function RunTabs<S>(b: Backend<S>, saved: Window, x: Exec<S>): Exec<S> {
    match b.tabs
    case None => x
    case Some(restore) =>
      match restore(saved)
      case None => Warn(x, false, TabsFailed)
      case Some(n) => x.(tabs := x.tabs + n)
  }

  function ExecuteStep<S>(b: Backend<S>, snapshot: Snapshot, monitors: seq<Monitor>, s: Step, x: Exec<S>): Exec<S> {
    if s.skipped then Warn(x, false, SkippedStep)
    else
      var saved, driven := FindWindow(snapshot.windows, s.target), s.target in x.handles;
      match s.kind
      case LaunchProcess => if saved.None? then x else RunLaunch(b, saved.value, s.target, x)
      case WaitForWindow => if saved.None? then x else RunWait(b, saved.value, s.target, x)
      case MoveWindow => RunMove(b, monitors, saved, s.target, x)
      case SetWindowState =>
        if saved.None? || !driven then x
        else
          var r := b.setState(x.state, x.handles[s.target], saved.value.state);
          Warn(x.(state := r.state), r.ok, StateFailed)
      case SetWorkspace =>
        if saved.None? || !driven || saved.value.workspace.None? then x
        else
          var r := b.moveToWorkspace(x.state, x.handles[s.target], saved.value.workspace.value);
          Warn(x.(state := r.state), r.ok, WorkspaceFailed)
      case RaiseWindow =>
        if !driven then x
        else
          var r := b.raise(x.state, x.handles[s.target]);
          Warn(x.(state := r.state), r.ok, RaiseFailed)
      case RestoreTabs => if saved.None? then x else RunTabs(b, saved.value, x)
      case WarpCursor =>
        var r := b.warp(x.state, snapshot.cursor.x, snapshot.cursor.y);
        Warn(x.(state := r.state), r.ok, WarpFailed)
      case FocusWindow =>
        if !driven then x
        else
          var r := b.focus(x.state, x.handles[s.target]);
          Warn(x.(state := r.state), r.ok, FocusFailed)
  }

  function Run<S>(b: Backend<S>, snapshot: Snapshot, monitors: seq<Monitor>, steps: seq<Step>, x: Exec<S>): Exec<S> {
    if steps == [] then x else Run(b, snapshot, monitors, steps[1..], ExecuteStep(b, snapshot, monitors, steps[0], x))
  }

  /** handles[window.id] for the matched windows, a later window with the same id winning. */
  function HandleMap(saved: seq<Window>, live: seq<Window>, chosen: seq<Option<nat>>, handles: map<Bytes, nat>): map<Bytes, nat>
    requires |chosen| == |saved|
    requires forall k :: 0 <= k < |chosen| && chosen[k].Some? ==> chosen[k].value < |live|
  {
    if saved == [] then handles
    else
      HandleMap(saved[1..], live, chosen[1..],
                match chosen[0] case Some(i) => handles[saved[0].id := live[i].handle] case None => handles)
  }

  function Start<S>(sim: Similarity, snapshot: Snapshot, live: seq<Window>, state: S): Exec<S> {
    Exec(state, HandleMap(snapshot.windows, live, Assign(sim, snapshot.windows, live, []), map[]), 0, 0, 0, 0, [], [])
  }

  /** execute_plan on a backend that shows the windows `live` and the monitors `monitors`. */
  function ExecutePlan<S>(
    b: Backend<S>, sim: Similarity, snapshot: Snapshot, live: seq<Window>, monitors: seq<Monitor>,
    steps: seq<Step>, state: S): Exec<S>
  {
    Run(b, snapshot, monitors, steps, Start(sim, snapshot, live, state))
  }

  // ---------------------------------------------------------------- any backend

  lemma StepKeepsCount<S>(b: Backend<S>, snapshot: Snapshot, monitors: seq<Monitor>, s: Step, x: Exec<S>)
    requires |x.errors| == x.failed
    ensures var y := ExecuteStep(b, snapshot, monitors, s, x); |y.errors| == y.failed
  {
    hide ClampToMonitors, FindWindow;
  }

  lemma {:induction false} RunKeepsCount<S>(
    b: Backend<S>, snapshot: Snapshot, monitors: seq<Monitor>, steps: seq<Step>, x: Exec<S>)
    requires |x.errors| == x.failed
    ensures var y := Run(b, snapshot, monitors, steps, x); |y.errors| == y.failed
  {
    hide ExecuteStep;
    if steps != [] {
      StepKeepsCount(b, snapshot, monitors, steps[0], x);
      RunKeepsCount(b, snapshot, monitors, steps[1..], ExecuteStep(b, snapshot, monitors, steps[0], x));
    }
  }

  /** Whatever the backend does, every failed window has its error and every error its failed window. */
  lemma ErrorsMatchFailures<S>(
    b: Backend<S>, sim: Similarity, snapshot: Snapshot, live: seq<Window>, monitors: seq<Monitor>,
    steps: seq<Step>, state: S)
    ensures var report := ExecutePlan(b, sim, snapshot, live, monitors, steps, state);
            |report.errors| == report.failed
  {
    RunKeepsCount(b, snapshot, monitors, steps, Start(sim, snapshot, live, state));
  }
}
