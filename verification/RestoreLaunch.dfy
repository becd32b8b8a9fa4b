/**
 * A restore that launches missing applications, beside one that drives the windows found by waiting as
 * if they had been there from the start (src/core/restore_engine.cpp:308-339).
 */
module RestoreLaunch {
  import opened Base
  import opened Geometry
  import opened Desktop
  import opened Restore
  import opened RestoreMatching
  import opened RestoreSteps

  // ---------------------------------------------------------------- which windows appear

  /** The planner found no window for this one, and launches its application. */
  predicate Launches(o: Options, w: Window, planned: Option<nat>) { o.launch && o.selected(w) && planned.None? }

  /** The window that waiting for `pid` finds. */
  function Appears(ws: seq<Window>, pid: nat, hint: Bytes): (r: Option<nat>)
    ensures r.Some? ==> r.value < |ws| && (pid == 0 || ws[r.value].pid == pid)
    ensures AwaitIn(ws, pid, hint) == if r.Some? then Some(ws[r.value].handle) else None
  {
    if ws == [] then None
    else if (pid == 0 || ws[0].pid == pid) && (hint == [] || Holds(ws[0].title, hint)) then Some(0)
    else
      match Appears(ws[1..], pid, hint)
      case Some(i) => Some(i + 1)
      case None => None
  }

  /** For each launched window what waiting finds under its pid, the first pid being the one after `pid`. */
  function Appearing(o: Options, saved: seq<Window>, planned: seq<Option<nat>>, live: seq<Window>, pid: nat):
    (f: seq<Option<nat>>)
    requires |planned| == |saved|
    ensures |f| == |saved|
    ensures forall k :: 0 <= k < |f| && f[k].Some? ==> f[k].value < |live|
  {
    if saved == [] then []
    else if Launches(o, saved[0], planned[0]) then
      [Appears(live, pid + 1, saved[0].title)] + Appearing(o, saved[1..], planned[1..], live, pid + 1)
    else [None] + Appearing(o, saved[1..], planned[1..], live, pid)
  }

  lemma AppearingFirst(o: Options, saved: seq<Window>, planned: seq<Option<nat>>, live: seq<Window>, pid: nat)
    requires |planned| == |saved| > 0
    ensures var launched := Launches(o, saved[0], planned[0]);
            Appearing(o, saved, planned, live, pid)
            == [if launched then Appears(live, pid + 1, saved[0].title) else None]
               + Appearing(o, saved[1..], planned[1..], live, if launched then pid + 1 else pid)
  {
    hide Appears, Launches;
  }

  /** What appears was launched, under a pid that no earlier launch had. */
  lemma {:induction false} AppearingIsNew(
    o: Options, saved: seq<Window>, planned: seq<Option<nat>>, live: seq<Window>, pid: nat, k: nat)
    requires |planned| == |saved| && k < |saved| && Appearing(o, saved, planned, live, pid)[k].Some?
    ensures Launches(o, saved[k], planned[k]) && live[Appearing(o, saved, planned, live, pid)[k].value].pid > pid
    decreases |saved|
  {
    hide *;
    AppearingFirst(o, saved, planned, live, pid);
    if k > 0 {
      var next := if Launches(o, saved[0], planned[0]) then pid + 1 else pid;
      AppearingIsNew(o, saved[1..], planned[1..], live, next, k - 1);
    }
  }

  /** Each launch has a pid of its own, so no window appears twice. */
  lemma {:induction false} AppearingDiffers(
    o: Options, saved: seq<Window>, planned: seq<Option<nat>>, live: seq<Window>, pid: nat, k: nat, l: nat)
    requires |planned| == |saved| && k < l < |saved|
    requires var f := Appearing(o, saved, planned, live, pid); f[k].Some? && f[l].Some?
    ensures var f := Appearing(o, saved, planned, live, pid);
            live[f[k].value].pid < live[f[l].value].pid
    decreases |saved|
  {
    hide *;
    AppearingFirst(o, saved, planned, live, pid);
    if k > 0 {
      var next := if Launches(o, saved[0], planned[0]) then pid + 1 else pid;
      AppearingDiffers(o, saved[1..], planned[1..], live, next, k - 1, l - 1);
    } else {
      AppearingIsNew(o, saved[1..], planned[1..], live, pid + 1, l - 1);
    }
  }

  function CountLaunches(o: Options, saved: seq<Window>, planned: seq<Option<nat>>): nat
    requires |planned| == |saved|
  {
    if saved == [] then 0 else (if Launches(o, saved[0], planned[0]) then 1 else 0) + CountLaunches(o, saved[1..], planned[1..])
  }

  /** The launches after which no window appeared. */
  function CountMissing(o: Options, saved: seq<Window>, planned: seq<Option<nat>>, f: seq<Option<nat>>): nat
    requires |planned| == |f| == |saved|
  {
    if saved == [] then 0
    else
      (if Launches(o, saved[0], planned[0]) && f[0].None? then 1 else 0) + CountMissing(o, saved[1..], planned[1..], f[1..])
  }

  function PlacedOf(o: Options, saved: seq<Window>, planned: seq<Option<nat>>): (p: seq<bool>)
    requires |planned| == |saved|
    ensures |p| == |saved|
  {
    seq(|saved|, k requires 0 <= k < |saved| => planned[k].Some? || o.launch)
  }

  // ---------------------------------------------------------------- two runs side by side

  function Failures(n: nat): seq<Failure> { seq(n, i => NoWindowAppeared) }

  /** `x` has launched `late` applications and waited in vain for `missing` of them; `q` has not. */
  ghost predicate Beside(x: Exec<NullState>, q: Exec<NullState>, late: nat, missing: nat) {
    && x.state == q.state.(nextPid := q.state.nextPid + late)
    && x.restored == q.restored && x.tabs == q.tabs && x.warnings == q.warnings && x.launched == q.launched + late
    && x.failed == q.failed + missing && (q.errors == [] ==> x.errors == Failures(missing))
  }

  predicate SameHandle(a: map<Bytes, nat>, b: map<Bytes, nat>, id: Bytes) {
    (id in a <==> id in b) && (id in a ==> a[id] == b[id])
  }

  /** One step keeps the two runs side by side. */
  ghost predicate StaysBeside(
    tabs: Option<Window -> Option<nat>>, snapshot: Snapshot, monitors: seq<Monitor>, s: Step,
    x: Exec<NullState>, q: Exec<NullState>, late: nat, missing: nat)
  {
    Beside(ExecuteStep(NullBackend(tabs), snapshot, monitors, s, x),
           ExecuteStep(NullBackend(tabs), snapshot, monitors, s, q), late, missing)
  }

  lemma MoveBeside(
    tabs: Option<Window -> Option<nat>>, snapshot: Snapshot, monitors: seq<Monitor>, s: Step,
    x: Exec<NullState>, q: Exec<NullState>, late: nat, missing: nat)
    requires Beside(x, q, late, missing) && SameHandle(x.handles, q.handles, s.target) && s.kind == MoveWindow && !s.skipped
    ensures StaysBeside(tabs, snapshot, monitors, s, x, q, late, missing)
  {
    hide ClampToMonitors, FindWindow, Has, Change, Top, FirstWith, Unfocused, Failures, AwaitIn;
  }

  lemma StateBeside(
    tabs: Option<Window -> Option<nat>>, snapshot: Snapshot, monitors: seq<Monitor>, s: Step,
    x: Exec<NullState>, q: Exec<NullState>, late: nat, missing: nat)
    requires Beside(x, q, late, missing) && SameHandle(x.handles, q.handles, s.target) && s.kind == SetWindowState && !s.skipped
    ensures StaysBeside(tabs, snapshot, monitors, s, x, q, late, missing)
  {
    hide ClampToMonitors, FindWindow, Has, Change, Top, FirstWith, Unfocused, Failures, AwaitIn;
  }

  lemma WorkspaceBeside(
    tabs: Option<Window -> Option<nat>>, snapshot: Snapshot, monitors: seq<Monitor>, s: Step,
    x: Exec<NullState>, q: Exec<NullState>, late: nat, missing: nat)
    requires Beside(x, q, late, missing) && SameHandle(x.handles, q.handles, s.target) && s.kind == SetWorkspace && !s.skipped
    ensures StaysBeside(tabs, snapshot, monitors, s, x, q, late, missing)
  {
    hide ClampToMonitors, FindWindow, Has, Change, Top, FirstWith, Unfocused, Failures, AwaitIn;
  }

  lemma RaiseBeside(
    tabs: Option<Window -> Option<nat>>, snapshot: Snapshot, monitors: seq<Monitor>, s: Step,
    x: Exec<NullState>, q: Exec<NullState>, late: nat, missing: nat)
    requires Beside(x, q, late, missing) && SameHandle(x.handles, q.handles, s.target) && s.kind == RaiseWindow && !s.skipped
    ensures StaysBeside(tabs, snapshot, monitors, s, x, q, late, missing)
  {
    hide ClampToMonitors, FindWindow, Has, Change, Top, FirstWith, Unfocused, Failures, AwaitIn;
  }

  lemma TabsBeside(
    tabs: Option<Window -> Option<nat>>, snapshot: Snapshot, monitors: seq<Monitor>, s: Step,
    x: Exec<NullState>, q: Exec<NullState>, late: nat, missing: nat)
    requires Beside(x, q, late, missing) && SameHandle(x.handles, q.handles, s.target) && s.kind == RestoreTabs && !s.skipped
    ensures StaysBeside(tabs, snapshot, monitors, s, x, q, late, missing)
  {
    hide ClampToMonitors, FindWindow, Has, Change, Top, FirstWith, Unfocused, Failures, AwaitIn;
  }

  lemma WarpBeside(
    tabs: Option<Window -> Option<nat>>, snapshot: Snapshot, monitors: seq<Monitor>, s: Step,
    x: Exec<NullState>, q: Exec<NullState>, late: nat, missing: nat)
    requires Beside(x, q, late, missing) && s.kind == WarpCursor && !s.skipped
    ensures StaysBeside(tabs, snapshot, monitors, s, x, q, late, missing)
  {
    hide ClampToMonitors, FindWindow, Has, Change, Top, FirstWith, Unfocused, Failures, AwaitIn;
  }

  lemma FocusBeside(
    tabs: Option<Window -> Option<nat>>, snapshot: Snapshot, monitors: seq<Monitor>, s: Step,
    x: Exec<NullState>, q: Exec<NullState>, late: nat, missing: nat)
    requires Beside(x, q, late, missing) && SameHandle(x.handles, q.handles, s.target) && s.kind == FocusWindow && !s.skipped
    ensures StaysBeside(tabs, snapshot, monitors, s, x, q, late, missing)
  {
    hide ClampToMonitors, FindWindow, Has, Change, Top, FirstWith, Unfocused, Failures, AwaitIn;
  }

  /** The step finds the same handle in both runs, if it looks for one. */
  predicate SameTarget(s: Step, a: map<Bytes, nat>, b: map<Bytes, nat>) { s.kind == WarpCursor || SameHandle(a, b, s.target) }

  lemma StepBeside(
    tabs: Option<Window -> Option<nat>>, snapshot: Snapshot, monitors: seq<Monitor>, s: Step,
    x: Exec<NullState>, q: Exec<NullState>, late: nat, missing: nat)
    requires Quiet(s) && Beside(x, q, late, missing) && SameTarget(s, x.handles, q.handles)
    ensures StaysBeside(tabs, snapshot, monitors, s, x, q, late, missing)
  {
    if s.skipped {
      SkipBeside(tabs, snapshot, monitors, s, x, q, late, missing);
    } else {
      hide StaysBeside, Beside, SameHandle;
      match s.kind
      case MoveWindow => MoveBeside(tabs, snapshot, monitors, s, x, q, late, missing);
      case SetWindowState => StateBeside(tabs, snapshot, monitors, s, x, q, late, missing);
      case SetWorkspace => WorkspaceBeside(tabs, snapshot, monitors, s, x, q, late, missing);
      case RaiseWindow => RaiseBeside(tabs, snapshot, monitors, s, x, q, late, missing);
      case RestoreTabs => TabsBeside(tabs, snapshot, monitors, s, x, q, late, missing);
      case WarpCursor => WarpBeside(tabs, snapshot, monitors, s, x, q, late, missing);
      case FocusWindow => FocusBeside(tabs, snapshot, monitors, s, x, q, late, missing);
    }
  }

  lemma SkipBeside(
    tabs: Option<Window -> Option<nat>>, snapshot: Snapshot, monitors: seq<Monitor>, s: Step,
    x: Exec<NullState>, q: Exec<NullState>, late: nat, missing: nat)
    requires Beside(x, q, late, missing) && s.skipped
    ensures StaysBeside(tabs, snapshot, monitors, s, x, q, late, missing)
  {
    hide ClampToMonitors, FindWindow, Has, Failures;
  }

  lemma {:induction false} RunBeside(
    tabs: Option<Window -> Option<nat>>, snapshot: Snapshot, monitors: seq<Monitor>, steps: seq<Step>,
    x: Exec<NullState>, q: Exec<NullState>, late: nat, missing: nat)
    requires Beside(x, q, late, missing)
    requires forall s <- steps :: Quiet(s) && SameTarget(s, x.handles, q.handles)
    ensures Beside(After(tabs, snapshot, monitors, steps, x), After(tabs, snapshot, monitors, steps, q), late, missing)
    ensures After(tabs, snapshot, monitors, steps, x).handles == x.handles
    ensures After(tabs, snapshot, monitors, steps, q).handles == q.handles
  {
    hide ExecuteStep, Quiet, Beside, SameTarget;
    if steps != [] {
      var s := steps[0];
      assert s in steps;
      StepBeside(tabs, snapshot, monitors, s, x, q, late, missing);
      StepKeepsFaces(tabs, snapshot, monitors, s, x);
      StepKeepsFaces(tabs, snapshot, monitors, s, q);
      RunBeside(tabs, snapshot, monitors, steps[1..], ExecuteStep(NullBackend(tabs), snapshot, monitors, s, x),
                ExecuteStep(NullBackend(tabs), snapshot, monitors, s, q), late, missing);
    }
  }

  // ---------------------------------------------------------------- launching one window

  lemma {:induction false} AwaitSame(vs: seq<Window>, ws: seq<Window>, pid: nat, hint: Bytes)
    requires |vs| == |ws|
    requires forall i :: 0 <= i < |ws| ==> vs[i].handle == ws[i].handle && vs[i].pid == ws[i].pid && vs[i].title == ws[i].title
    ensures AwaitIn(vs, pid, hint) == AwaitIn(ws, pid, hint)
  {
    if ws != [] {
      AwaitSame(vs[1..], ws[1..], pid, hint);
    }
  }

  lemma PidKeyIsLonger(id: Bytes)
    ensures PidKey(id) != id
  {
    assert |PidKey(id)| == |id| + 4;
  }

  /** The state after launching and waiting for `w`. */
  function LaunchedAndAwaited(w: Window, found: Option<nat>, x: Exec<NullState>): Exec<NullState> {
    var pid := x.state.nextPid + 1;
    var started := x.(state := x.state.(nextPid := pid), launched := x.launched + 1, handles := x.handles[PidKey(w.id) := pid]);
    match found
    case Some(h) => started.(handles := started.handles[w.id := h])
    case None => started.(failed := x.failed + 1, errors := x.errors + [NoWindowAppeared])
  }

  lemma LaunchAndWait(
    tabs: Option<Window -> Option<nat>>, snapshot: Snapshot, monitors: seq<Monitor>, w: Window, x: Exec<NullState>)
    requires x.state.allowMutation && FindWindow(snapshot.windows, w.id) == Some(w)
    ensures After(tabs, snapshot, monitors, [Step(LaunchProcess, w.id, false), Step(WaitForWindow, w.id, false)], x)
            == LaunchedAndAwaited(w, AwaitIn(x.state.windows, x.state.nextPid + 1, w.title), x)
  {
    hide FindWindow, AwaitIn, PidKey;
    var launch, wait := Step(LaunchProcess, w.id, false), Step(WaitForWindow, w.id, false);
    var y := ExecuteStep(NullBackend(tabs), snapshot, monitors, launch, x);
    AfterStep(tabs, snapshot, monitors, [launch, wait], x);
    assert [launch, wait][1..] == [wait];
    AfterStep(tabs, snapshot, monitors, [wait], y);
    assert [wait][1..] == [];
  }

  lemma MoreFailures(n: nat)
    ensures Failures(n) + [NoWindowAppeared] == Failures(n + 1)
  {
  }

  /** Launching and waiting keep the runs side by side and bring the handle of the window that appears. */
  lemma LaunchBeside(w: Window, found: Option<nat>, x: Exec<NullState>, q: Exec<NullState>, late: nat, missing: nat)
    requires Beside(x, q, late, missing)
    ensures Beside(LaunchedAndAwaited(w, found, x), q, late + 1, missing + if found.None? then 1 else 0)
  {
    hide Failures, PidKey;
    MoreFailures(missing);
  }

  lemma LaunchHandles(w: Window, found: Option<nat>, x: Exec<NullState>, id: Bytes)
    ensures var y := LaunchedAndAwaited(w, found, x);
            && (id != w.id && id != PidKey(w.id) ==> SameHandle(y.handles, x.handles, id))
            && (found.Some? ==> w.id in y.handles && y.handles[w.id] == found.value)
            && (found.None? && w.id !in x.handles ==> w.id !in y.handles)
  {
    PidKeyIsLonger(w.id);
    hide PidKey;
  }

  // ---------------------------------------------------------------- the blocks of all windows

  /** `id` is mapped to the window that appears, if one does. */
  predicate Brings(found: Option<nat>, live: seq<Window>, handles: map<Bytes, nat>, id: Bytes)
    requires found.Some? ==> found.value < |live|
  {
    (id in handles <==> found.Some?) && (found.Some? ==> handles[id] == live[found.value].handle)
  }

  /** Before its block: a launched window has no handle yet, any other the one it keeps. */
  predicate Due(
    o: Options, w: Window, planned: Option<nat>, found: Option<nat>, live: seq<Window>, got: map<Bytes, nat>,
    whole: map<Bytes, nat>)
    requires found.Some? ==> found.value < |live|
  {
    if Launches(o, w, planned) then w.id !in got && Brings(found, live, whole, w.id) else SameHandle(got, whole, w.id)
  }

  /** The block of `w` gives no handle to this id. */
  predicate Foreign(o: Options, w: Window, id: Bytes) { id != w.id && (o.launch ==> id != PidKey(w.id)) }

  lemma PlaceIsQuiet(o: Options, c: Capabilities, w: Window)
    ensures forall s <- PlaceSteps(o, c, w) :: Quiet(s) && s.target == w.id
  {
  }

  lemma LaunchedBlock(o: Options, c: Capabilities, w: Window, planned: Option<nat>)
    requires Launches(o, w, planned) && c.launch
    ensures Block(o, c, w, planned.Some?)
            == [Step(LaunchProcess, w.id, false), Step(WaitForWindow, w.id, false)]
               + Placing(o, c, w, planned.Some? || o.launch)
    ensures forall s <- Placing(o, c, w, planned.Some? || o.launch) :: Quiet(s) && s.target == w.id
  {
    PlaceIsQuiet(o, c, w);
    hide PlaceSteps, Quiet;
  }

  lemma OtherBlock(o: Options, c: Capabilities, w: Window, planned: Option<nat>)
    requires !Launches(o, w, planned)
    ensures Block(o, c, w, planned.Some?) == Placing(o, c, w, planned.Some? || o.launch)
    ensures forall s <- Placing(o, c, w, planned.Some? || o.launch) :: Quiet(s) && s.target == w.id
  {
    PlaceIsQuiet(o, c, w);
    hide PlaceSteps, Quiet;
    assert Quiet(Step(MoveWindow, w.id, true)) by {
      PlacedIsQuiet(w.id);
    }
  }

  lemma PlacedIsQuiet(id: Bytes)
    ensures Quiet(Step(MoveWindow, id, true))
  {
  }

  lemma FacesAwait(s: NullState, t: NullState, pid: nat, hint: Bytes)
    requires SameFaces(s, t)
    ensures AwaitIn(t.windows, pid, hint) == AwaitIn(s.windows, pid, hint)
  {
    AwaitSame(t.windows, s.windows, pid, hint);
  }

  lemma SidePids(s: NullState, x: Exec<NullState>, q: Exec<NullState>, late: nat, missing: nat)
    requires Beside(x, q, late, missing) && SameFaces(s, q.state)
    ensures x.state.windows == q.state.windows && x.state.nextPid == s.nextPid + late
    ensures x.state.allowMutation == s.allowMutation
  {
  }

  /** After its launch the window has the handle it keeps, and nobody else's changed. */
  lemma LaunchSettles(
    o: Options, w: Window, planned: Option<nat>, found: Option<nat>, live: seq<Window>, x: Exec<NullState>,
    whole: map<Bytes, nat>)
    requires (found.Some? ==> found.value < |live|) && Launches(o, w, planned)
    requires Due(o, w, planned, found, live, x.handles, whole)
    ensures var y := LaunchedAndAwaited(w, if found.Some? then Some(live[found.value].handle) else None, x);
            && SameHandle(y.handles, whole, w.id)
            && forall id :: Foreign(o, w, id) ==> SameHandle(y.handles, x.handles, id)
  {
    hide LaunchedAndAwaited;
    var handle := if found.Some? then Some(live[found.value].handle) else None;
    LaunchHandles(w, handle, x, w.id);
    forall id | Foreign(o, w, id)
      ensures SameHandle(LaunchedAndAwaited(w, handle, x).handles, x.handles, id)
    {
      LaunchHandles(w, handle, x, id);
    }
  }

  lemma NotLaunched(
    o: Options, w: Window, planned: Option<nat>, found: Option<nat>, live: seq<Window>, got: map<Bytes, nat>,
    whole: map<Bytes, nat>)
    requires (found.Some? ==> found.value < |live|) && !Launches(o, w, planned)
    requires Due(o, w, planned, found, live, got, whole)
    ensures SameHandle(got, whole, w.id) && forall id :: Foreign(o, w, id) ==> SameHandle(got, got, id)
  {
  }

  lemma OneTarget(steps: seq<Step>, id: Bytes, a: map<Bytes, nat>, b: map<Bytes, nat>)
    requires SameHandle(a, b, id) && forall s <- steps :: s.target == id
    ensures forall s <- steps :: SameTarget(s, a, b)
  {
  }

  lemma AreQuiet(steps: seq<Step>, id: Bytes)
    requires forall s <- steps :: Quiet(s) && s.target == id
    ensures AllQuiet(steps)
  {
  }

  lemma {:induction false} BlockBeside(
    tabs: Option<Window -> Option<nat>>, snapshot: Snapshot, monitors: seq<Monitor>, o: Options, c: Capabilities,
    w: Window, planned: Option<nat>, s: NullState, x: Exec<NullState>, q: Exec<NullState>, late: nat, missing: nat)
    requires c.launch && s.allowMutation && FindWindow(snapshot.windows, w.id) == Some(w)
    requires Beside(x, q, late, missing) && SameFaces(s, q.state)
    requires Due(o, w, planned, Appears(s.windows, s.nextPid + late + 1, w.title), s.windows, x.handles, q.handles)
    ensures var y, p := After(tabs, snapshot, monitors, Block(o, c, w, planned.Some?), x),
                        After(tabs, snapshot, monitors, Placing(o, c, w, planned.Some? || o.launch), q);
            var launched, found := Launches(o, w, planned), Appears(s.windows, s.nextPid + late + 1, w.title);
            && Beside(y, p, late + (if launched then 1 else 0), missing + if launched && found.None? then 1 else 0)
            && p.handles == q.handles && SameFaces(s, p.state) && SameHandle(y.handles, q.handles, w.id)
            && forall id :: Foreign(o, w, id) ==> SameHandle(y.handles, x.handles, id)
  {
    hide *;
    var steps := Placing(o, c, w, planned.Some? || o.launch);
    var found := Appears(s.windows, s.nextPid + late + 1, w.title);
    SidePids(s, x, q, late, missing);
    if Launches(o, w, planned) {
      var handle := AwaitIn(s.windows, s.nextPid + late + 1, w.title);
      LaunchedBlock(o, c, w, planned);
      FacesAwait(s, q.state, s.nextPid + late + 1, w.title);
      LaunchAndWait(tabs, snapshot, monitors, w, x);
      var y := LaunchedAndAwaited(w, handle, x);
      RunAppend(tabs, snapshot, monitors, [Step(LaunchProcess, w.id, false), Step(WaitForWindow, w.id, false)], steps, x);
      LaunchBeside(w, handle, x, q, late, missing);
      LaunchSettles(o, w, planned, found, s.windows, x, q.handles);
      OneTarget(steps, w.id, y.handles, q.handles);
      RunBeside(tabs, snapshot, monitors, steps, y, q, late + 1, missing + if found.None? then 1 else 0);
    } else {
      OtherBlock(o, c, w, planned);
      NotLaunched(o, w, planned, found, s.windows, x.handles, q.handles);
      OneTarget(steps, w.id, x.handles, q.handles);
      RunBeside(tabs, snapshot, monitors, steps, x, q, late, missing);
    }
    AreQuiet(steps, w.id);
    RunKeepsFaces(tabs, snapshot, monitors, steps, q);
    FacesCarry(s, q.state, After(tabs, snapshot, monitors, steps, q).state);
  }

  // ---------------------------------------------------------------- all blocks

  /** No saved id is the key under which another one's pid is kept. */
  predicate OwnKeys(o: Options, saved: seq<Window>) {
    o.launch ==> forall v <- saved, w <- saved :: v.id != PidKey(w.id)
  }

  ghost predicate AllDue(
    o: Options, saved: seq<Window>, planned: seq<Option<nat>>, found: seq<Option<nat>>, live: seq<Window>,
    got: map<Bytes, nat>, whole: map<Bytes, nat>)
    requires |planned| == |found| == |saved|
    requires forall k :: 0 <= k < |found| && found[k].Some? ==> found[k].value < |live|
  {
    forall k :: 0 <= k < |saved| ==> Due(o, saved[k], planned[k], found[k], live, got, whole)
  }

  ghost predicate AllForeign(o: Options, saved: seq<Window>, id: Bytes) { forall w <- saved :: Foreign(o, w, id) }

  ghost predicate Known(snapshot: Snapshot, saved: seq<Window>) {
    forall w <- saved :: FindWindow(snapshot.windows, w.id) == Some(w)
  }

  /** The first block leaves the others as they were due. */
  lemma RestDue(
    o: Options, saved: seq<Window>, planned: seq<Option<nat>>, found: seq<Option<nat>>, live: seq<Window>,
    got: map<Bytes, nat>, later: map<Bytes, nat>, whole: map<Bytes, nat>)
    requires |planned| == |found| == |saved| > 0 && UniqueIds(saved) && OwnKeys(o, saved)
    requires forall k :: 0 <= k < |found| && found[k].Some? ==> found[k].value < |live|
    requires AllDue(o, saved, planned, found, live, got, whole)
    requires forall id :: Foreign(o, saved[0], id) ==> SameHandle(later, got, id)
    ensures AllDue(o, saved[1..], planned[1..], found[1..], live, later, whole)
    ensures AllForeign(o, saved[1..], saved[0].id)
  {
    hide PidKey;
    forall k | 0 <= k < |saved[1..]|
      ensures Due(o, saved[1..][k], planned[1..][k], found[1..][k], live, later, whole)
      ensures Foreign(o, saved[1..][k], saved[0].id)
    {
      assert saved[k + 1] in saved && saved[0] in saved;
      assert Due(o, saved[k + 1], planned[k + 1], found[k + 1], live, got, whole);
      assert Foreign(o, saved[0], saved[k + 1].id);
    }
  }

  lemma NoBlocks(
    tabs: Option<Window -> Option<nat>>, snapshot: Snapshot, monitors: seq<Monitor>, o: Options, c: Capabilities,
    saved: seq<Window>, planned: seq<Option<nat>>, x: Exec<NullState>, q: Exec<NullState>, found: seq<Option<nat>>)
    requires saved == [] && planned == found == []
    ensures After(tabs, snapshot, monitors, Blocks(o, c, saved, planned), x) == x
    ensures After(tabs, snapshot, monitors, Placings(o, c, saved, PlacedOf(o, saved, planned)), q) == q
    ensures CountLaunches(o, saved, planned) == CountMissing(o, saved, planned, found) == 0
    ensures forall id :: SameHandle(x.handles, x.handles, id)
  {
  }

  /** What the first block needs, and what stays true of the others. */
  lemma FirstDue(
    snapshot: Snapshot, o: Options, saved: seq<Window>, planned: seq<Option<nat>>, found: seq<Option<nat>>,
    live: seq<Window>, got: map<Bytes, nat>, whole: map<Bytes, nat>)
    requires |planned| == |found| == |saved| > 0
    requires forall k :: 0 <= k < |found| && found[k].Some? ==> found[k].value < |live|
    requires Known(snapshot, saved) && UniqueIds(saved) && OwnKeys(o, saved)
    requires AllDue(o, saved, planned, found, live, got, whole)
    ensures FindWindow(snapshot.windows, saved[0].id) == Some(saved[0])
    ensures Due(o, saved[0], planned[0], found[0], live, got, whole)
    ensures Known(snapshot, saved[1..]) && UniqueIds(saved[1..]) && OwnKeys(o, saved[1..])
  {
    hide Due, PidKey, FindWindow;
    assert forall w <- saved[1..] :: w in saved;
  }

  lemma FirstBlocks(o: Options, c: Capabilities, saved: seq<Window>, planned: seq<Option<nat>>, found: seq<Option<nat>>)
    requires |planned| == |found| == |saved| > 0
    ensures Blocks(o, c, saved, planned) == Block(o, c, saved[0], planned[0].Some?) + Blocks(o, c, saved[1..], planned[1..])
    ensures Placings(o, c, saved, PlacedOf(o, saved, planned))
            == Placing(o, c, saved[0], planned[0].Some? || o.launch)
               + Placings(o, c, saved[1..], PlacedOf(o, saved[1..], planned[1..]))
    ensures CountLaunches(o, saved, planned)
            == (if Launches(o, saved[0], planned[0]) then 1 else 0) + CountLaunches(o, saved[1..], planned[1..])
    ensures CountMissing(o, saved, planned, found)
            == (if Launches(o, saved[0], planned[0]) && found[0].None? then 1 else 0)
               + CountMissing(o, saved[1..], planned[1..], found[1..])
  {
    hide Block, Placing, Launches;
    assert PlacedOf(o, saved, planned)[1..] == PlacedOf(o, saved[1..], planned[1..]);
  }

  /** Handles after the first block and after all of them. */
  lemma Gather(
    o: Options, saved: seq<Window>, got: map<Bytes, nat>, next: map<Bytes, nat>, last: map<Bytes, nat>, whole: map<Bytes, nat>)
    requires saved != [] && AllForeign(o, saved[1..], saved[0].id) && SameHandle(next, whole, saved[0].id)
    requires forall id :: Foreign(o, saved[0], id) ==> SameHandle(next, got, id)
    requires forall w <- saved[1..] :: SameHandle(last, whole, w.id)
    requires forall id :: AllForeign(o, saved[1..], id) ==> SameHandle(last, next, id)
    ensures forall w <- saved :: SameHandle(last, whole, w.id)
    ensures forall id :: AllForeign(o, saved, id) ==> SameHandle(last, got, id)
  {
    hide Foreign;
    assert saved == [saved[0]] + saved[1..];
    forall id | AllForeign(o, saved, id)
      ensures SameHandle(last, got, id)
    {
      assert saved[0] in saved && forall w <- saved[1..] :: w in saved;
      assert Foreign(o, saved[0], id) && AllForeign(o, saved[1..], id);
    }
  }

  /** For a window that is not launched it does not matter what waiting would find. */
  lemma FoundOrNot(
    o: Options, w: Window, planned: Option<nat>, found: Option<nat>, live: seq<Window>, pid: nat, got: map<Bytes, nat>,
    whole: map<Bytes, nat>)
    requires found == if Launches(o, w, planned) then Appears(live, pid, w.title) else None
    requires Due(o, w, planned, found, live, got, whole)
    ensures Due(o, w, planned, Appears(live, pid, w.title), live, got, whole)
  {
    hide Launches, Appears;
  }

  lemma {:induction false} BlocksBeside(
    tabs: Option<Window -> Option<nat>>, snapshot: Snapshot, monitors: seq<Monitor>, o: Options, c: Capabilities,
    saved: seq<Window>, planned: seq<Option<nat>>, s: NullState, x: Exec<NullState>, q: Exec<NullState>,
    late: nat, missing: nat)
    requires |planned| == |saved| && c.launch && s.allowMutation && Known(snapshot, saved)
    requires UniqueIds(saved) && OwnKeys(o, saved)
    requires Beside(x, q, late, missing) && SameFaces(s, q.state)
    requires AllDue(o, saved, planned, Appearing(o, saved, planned, s.windows, s.nextPid + late), s.windows,
                    x.handles, q.handles)
    ensures var y, p := After(tabs, snapshot, monitors, Blocks(o, c, saved, planned), x),
                        After(tabs, snapshot, monitors, Placings(o, c, saved, PlacedOf(o, saved, planned)), q);
            var found := Appearing(o, saved, planned, s.windows, s.nextPid + late);
            && Beside(y, p, late + CountLaunches(o, saved, planned), missing + CountMissing(o, saved, planned, found))
            && p.handles == q.handles
            && (forall w <- saved :: SameHandle(y.handles, q.handles, w.id))
            && (forall id :: AllForeign(o, saved, id) ==> SameHandle(y.handles, x.handles, id))
    decreases |saved|
  {
    hide *;
    if saved == [] {
      NoBlocks(tabs, snapshot, monitors, o, c, saved, planned, x, q,
               Appearing(o, saved, planned, s.windows, s.nextPid + late));
    } else {
      var w, steps := saved[0], Block(o, c, saved[0], planned[0].Some?);
      var calm := Placing(o, c, w, planned[0].Some? || o.launch);
      var found := Appearing(o, saved, planned, s.windows, s.nextPid + late);
      var y, p := After(tabs, snapshot, monitors, steps, x), After(tabs, snapshot, monitors, calm, q);
      var more := late + if Launches(o, w, planned[0]) then 1 else 0;
      var lost := missing + if Launches(o, w, planned[0]) && found[0].None? then 1 else 0;
      var rest := Blocks(o, c, saved[1..], planned[1..]);
      var calmer := Placings(o, c, saved[1..], PlacedOf(o, saved[1..], planned[1..]));
      AppearingFirst(o, saved, planned, s.windows, s.nextPid + late);
      FirstDue(snapshot, o, saved, planned, found, s.windows, x.handles, q.handles);
      FoundOrNot(o, w, planned[0], found[0], s.windows, s.nextPid + late + 1, x.handles, q.handles);
      BlockBeside(tabs, snapshot, monitors, o, c, w, planned[0], s, x, q, late, missing);
      RestDue(o, saved, planned, found, s.windows, x.handles, y.handles, q.handles);
      BlocksBeside(tabs, snapshot, monitors, o, c, saved[1..], planned[1..], s, y, p, more, lost);
      FirstBlocks(o, c, saved, planned, found);
      RunAppend(tabs, snapshot, monitors, steps, rest, x);
      RunAppend(tabs, snapshot, monitors, calm, calmer, q);
      Gather(o, saved, x.handles, y.handles, After(tabs, snapshot, monitors, rest, y).handles, q.handles);
    }
  }
}
