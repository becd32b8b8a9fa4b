/** The steps of a restore, run on the in-memory window system (src/core/restore_engine.cpp:292-428). */
module RestoreSteps {
  import opened Base
  import opened Geometry
  import opened Desktop
  import opened Restore
  import opened RestoreMatching

  /** The null platform as a backend; the browser bridge is a separate object. */
  function NullBackend(tabs: Option<Window -> Option<nat>>): Backend<NullState> {
    Backend(
      (s: NullState, h: nat, r: Rect) => FrameSet(s, h, r),
      (s: NullState, h: nat, state: WindowState) => StateSet(s, h, state),
      (s: NullState, h: nat, workspace: Bytes) => WorkspaceSet(s, h, workspace),
      (s: NullState, h: nat) => Raised(s, h),
      (s: NullState, h: nat) => Focused(s, h),
      (s: NullState, x: int, y: int) => Warped(s, x, y),
      (s: NullState, w: Window) => Launched(s, w),
      (s: NullState, pid: nat, hint: Bytes) => Awaited(s, pid, hint),
      tabs)
  }

  function NullCapabilities(s: NullState): Capabilities {
    var m := s.allowMutation;
    Capabilities(m, m, m, m, m, m, m)
  }

  // ---------------------------------------------------------------- which window a handle drives

  predicate UniqueIds(saved: seq<Window>) { forall k, l :: 0 <= k < l < |saved| ==> saved[k].id != saved[l].id }

  /** `handles` sends exactly the matched ids to their windows. */
  ghost predicate Maps(saved: seq<Window>, live: seq<Window>, a: seq<Option<nat>>, handles: map<Bytes, nat>) {
    && |a| == |saved|
    && (forall k :: 0 <= k < |a| && a[k].Some? ==>
          a[k].value < |live| && saved[k].id in handles && handles[saved[k].id] == live[a[k].value].handle)
    && (forall id <- handles :: exists k :: 0 <= k < |a| && a[k].Some? && saved[k].id == id)
  }

  lemma {:induction false} HandleMapIs(
    saved: seq<Window>, live: seq<Window>, a: seq<Option<nat>>, handles: map<Bytes, nat>)
    requires |a| == |saved| && UniqueIds(saved)
    requires forall k :: 0 <= k < |a| && a[k].Some? ==> a[k].value < |live|
    ensures var h := HandleMap(saved, live, a, handles);
            && (forall k :: 0 <= k < |a| && a[k].Some? ==> saved[k].id in h && h[saved[k].id] == live[a[k].value].handle)
            && (forall id <- h :: id in handles || exists k :: 0 <= k < |a| && a[k].Some? && saved[k].id == id)
            && (forall id <- handles :: id in h && ((forall w <- saved :: w.id != id) ==> h[id] == handles[id]))
    decreases |saved|
  {
    if saved != [] {
      var next := match a[0] case Some(i) => handles[saved[0].id := live[i].handle] case None => handles;
      HandleMapIs(saved[1..], live, a[1..], next);
      var h := HandleMap(saved, live, a, handles);
      assert h == HandleMap(saved[1..], live, a[1..], next);
      assert forall w <- saved[1..] :: w.id != saved[0].id;
      forall id <- h | id !in handles
        ensures exists k :: 0 <= k < |a| && a[k].Some? && saved[k].id == id
      {
        if id !in next {
          var k :| 0 <= k < |a[1..]| && a[1..][k].Some? && saved[1..][k].id == id;
          assert a[k + 1].Some? && saved[k + 1].id == id;
        }
      }
      forall k | 0 <= k < |a| && a[k].Some?
        ensures saved[k].id in h && h[saved[k].id] == live[a[k].value].handle
      {
        if k > 0 {
          assert a[1..][k - 1] == a[k] && saved[1..][k - 1] == saved[k];
        }
      }
      assert forall w <- saved[1..] :: w in saved;
    }
  }

  ghost predicate OneToOneMap(handles: map<Bytes, nat>) {
    forall id <- handles, other <- handles :: handles[id] == handles[other] ==> id == other
  }

  lemma StartMaps(sim: Similarity, snapshot: Snapshot, s: NullState)
    requires UniqueIds(snapshot.windows) && UniqueHandles(s.windows)
    ensures var a := Assign(sim, snapshot.windows, s.windows, []);
            var handles := Start(sim, snapshot, s.windows, s).handles;
            Maps(snapshot.windows, s.windows, a, handles) && OneToOneMap(handles)
  {
    var saved, live := snapshot.windows, s.windows;
    var a := Assign(sim, saved, live, []);
    AssignAvoids(sim, saved, live, []);
    HandleMapIs(saved, live, a, map[]);
    hide Assign, HandleMap, Distinct;
    MapIsOneToOne(saved, live, a, Start(sim, snapshot, live, s).handles);
  }

  lemma MapIsOneToOne(saved: seq<Window>, live: seq<Window>, a: seq<Option<nat>>, handles: map<Bytes, nat>)
    requires Maps(saved, live, a, handles) && Distinct(a, live, [])
    ensures OneToOneMap(handles)
  {
    forall id <- handles, other <- handles | handles[id] == handles[other]
      ensures id == other
    {
      var k :| 0 <= k < |a| && a[k].Some? && saved[k].id == id;
      var l :| 0 <= l < |a| && a[l].Some? && saved[l].id == other;
    }
  }

  // ---------------------------------------------------------------- one step, one window

  /** A step that neither launches nor waits. */
  predicate Quiet(s: Step) { s.skipped || (s.kind != LaunchProcess && s.kind != WaitForWindow) }

  predicate Drives(s: Step, kind: StepKind, handles: map<Bytes, nat>, h: nat) {
    !s.skipped && s.kind == kind && s.target in handles && handles[s.target] == h
  }

  /** What one step does to one window. */
  ghost predicate StepEffect(
    snapshot: Snapshot, monitors: seq<Monitor>, s: Step, handles: map<Bytes, nat>, top: int, w: Window, v: Window)
  {
    var saved := FindWindow(snapshot.windows, s.target);
    && v.handle == w.handle
    && (if Drives(s, MoveWindow, handles, w.handle) && saved.Some?
        then v.frame == v.restoredFrame == ClampToMonitors(saved.value.restoredFrame, monitors)
        else v.frame == w.frame && v.restoredFrame == w.restoredFrame)
    && v.state == (if Drives(s, SetWindowState, handles, w.handle) && saved.Some? then saved.value.state else w.state)
    && v.workspace == (if Drives(s, SetWorkspace, handles, w.handle) && saved.Some? && saved.value.workspace.Some?
                       then saved.value.workspace else w.workspace)
    && v.zOrder == (if Drives(s, RaiseWindow, handles, w.handle) then top + 1 else w.zOrder)
  }

  lemma HasIt(ws: seq<Window>, i: nat)
    requires i < |ws|
    ensures Has(ws, ws[i].handle)
  {
  }

  /** The step runs, and does to window `i` what StepEffect says. */
  ghost predicate StepDoes(
    tabs: Option<Window -> Option<nat>>, snapshot: Snapshot, monitors: seq<Monitor>, s: Step, x: Exec<NullState>, i: nat)
    requires Quiet(s) && x.state.allowMutation && UniqueHandles(x.state.windows) && i < |x.state.windows|
  {
    var y := ExecuteStep(NullBackend(tabs), snapshot, monitors, s, x);
    && |y.state.windows| == |x.state.windows|
    && StepEffect(snapshot, monitors, s, x.handles, Top(x.state.windows), x.state.windows[i], y.state.windows[i])
  }

  lemma MoveOnWindow(
    tabs: Option<Window -> Option<nat>>, snapshot: Snapshot, monitors: seq<Monitor>, s: Step, x: Exec<NullState>, i: nat)
    requires Quiet(s) && x.state.allowMutation && UniqueHandles(x.state.windows) && i < |x.state.windows|
    requires s.kind == MoveWindow
    ensures StepDoes(tabs, snapshot, monitors, s, x, i)
  {
    hide Top, ClampToMonitors, FindWindow, Change, Has, FirstWith, UniqueHandles;
    HasIt(x.state.windows, i);
    var saved := FindWindow(snapshot.windows, s.target);
    if s.target in x.handles && saved.Some? {
      var r := ClampToMonitors(saved.value.restoredFrame, monitors);
      ChangeTouches(x.state.windows, x.handles[s.target], (w: Window) => w.(frame := r, restoredFrame := r), i);
    }
  }

  lemma StateOnWindow(
    tabs: Option<Window -> Option<nat>>, snapshot: Snapshot, monitors: seq<Monitor>, s: Step, x: Exec<NullState>, i: nat)
    requires Quiet(s) && x.state.allowMutation && UniqueHandles(x.state.windows) && i < |x.state.windows|
    requires s.kind == SetWindowState
    ensures StepDoes(tabs, snapshot, monitors, s, x, i)
  {
    hide Top, ClampToMonitors, FindWindow, Change, Has, FirstWith, UniqueHandles;
    HasIt(x.state.windows, i);
    var saved := FindWindow(snapshot.windows, s.target);
    if s.target in x.handles && saved.Some? {
      var state := saved.value.state;
      ChangeTouches(x.state.windows, x.handles[s.target], (w: Window) => w.(state := state), i);
    }
  }

  lemma WorkspaceOnWindow(
    tabs: Option<Window -> Option<nat>>, snapshot: Snapshot, monitors: seq<Monitor>, s: Step, x: Exec<NullState>, i: nat)
    requires Quiet(s) && x.state.allowMutation && UniqueHandles(x.state.windows) && i < |x.state.windows|
    requires s.kind == SetWorkspace
    ensures StepDoes(tabs, snapshot, monitors, s, x, i)
  {
    hide Top, ClampToMonitors, FindWindow, Change, Has, FirstWith, UniqueHandles;
    HasIt(x.state.windows, i);
    var saved := FindWindow(snapshot.windows, s.target);
    if s.target in x.handles && saved.Some? && saved.value.workspace.Some? {
      var workspace := saved.value.workspace.value;
      ChangeTouches(x.state.windows, x.handles[s.target], (w: Window) => w.(workspace := Some(workspace)), i);
    }
  }

  lemma RaiseOnWindow(
    tabs: Option<Window -> Option<nat>>, snapshot: Snapshot, monitors: seq<Monitor>, s: Step, x: Exec<NullState>, i: nat)
    requires Quiet(s) && x.state.allowMutation && UniqueHandles(x.state.windows) && i < |x.state.windows|
    requires s.kind == RaiseWindow
    ensures StepDoes(tabs, snapshot, monitors, s, x, i)
  {
    hide Top, ClampToMonitors, FindWindow, Change, Has, FirstWith, UniqueHandles;
    HasIt(x.state.windows, i);
    if s.target in x.handles {
      var z := Top(x.state.windows) + 1;
      ChangeTouches(x.state.windows, x.handles[s.target], (w: Window) => w.(zOrder := z), i);
    }
  }

  lemma OtherOnWindow(
    tabs: Option<Window -> Option<nat>>, snapshot: Snapshot, monitors: seq<Monitor>, s: Step, x: Exec<NullState>, i: nat)
    requires Quiet(s) && x.state.allowMutation && UniqueHandles(x.state.windows) && i < |x.state.windows|
    requires s.kind == RestoreTabs || s.kind == WarpCursor || s.kind == FocusWindow || s.skipped
    ensures StepDoes(tabs, snapshot, monitors, s, x, i)
  {
    hide Top, ClampToMonitors, FindWindow, Change, Has, FirstWith, UniqueHandles;
    HasIt(x.state.windows, i);
  }

  lemma StepOnWindow(
    tabs: Option<Window -> Option<nat>>, snapshot: Snapshot, monitors: seq<Monitor>, s: Step, x: Exec<NullState>, i: nat)
    requires Quiet(s) && x.state.allowMutation && UniqueHandles(x.state.windows) && i < |x.state.windows|
    ensures StepDoes(tabs, snapshot, monitors, s, x, i)
  {
    hide StepDoes;
    if s.skipped {
      OtherOnWindow(tabs, snapshot, monitors, s, x, i);
    } else {
      match s.kind
      case MoveWindow => MoveOnWindow(tabs, snapshot, monitors, s, x, i);
      case SetWindowState => StateOnWindow(tabs, snapshot, monitors, s, x, i);
      case SetWorkspace => WorkspaceOnWindow(tabs, snapshot, monitors, s, x, i);
      case RaiseWindow => RaiseOnWindow(tabs, snapshot, monitors, s, x, i);
      case _ => OtherOnWindow(tabs, snapshot, monitors, s, x, i);
    }
  }

  /** What stays fixed while quiet steps run. */
  ghost predicate Steady(x: Exec<NullState>, live: seq<Window>, handles: map<Bytes, nat>) {
    x.handles == handles && x.state.allowMutation && SamePlaces(live, x.state.windows)
  }

  lemma SteadyUnique(x: Exec<NullState>, live: seq<Window>, handles: map<Bytes, nat>)
    requires Steady(x, live, handles) && UniqueHandles(live)
    ensures UniqueHandles(x.state.windows)
  {
  }

  lemma StepIsSteady(
    tabs: Option<Window -> Option<nat>>, snapshot: Snapshot, monitors: seq<Monitor>, s: Step, x: Exec<NullState>,
    live: seq<Window>, handles: map<Bytes, nat>)
    requires Quiet(s) && UniqueHandles(live) && Steady(x, live, handles)
    ensures Steady(ExecuteStep(NullBackend(tabs), snapshot, monitors, s, x), live, handles)
  {
    SteadyUnique(x, live, handles);
    var y := ExecuteStep(NullBackend(tabs), snapshot, monitors, s, x);
    assert y.handles == handles && y.state.allowMutation && |y.state.windows| == |live| by {
      hide Top, ClampToMonitors, FindWindow, Change, Has, FirstWith, UniqueHandles;
    }
    hide ExecuteStep, StepEffect;
    forall i | 0 <= i < |live|
      ensures live[i].handle == y.state.windows[i].handle
    {
      StepOnWindow(tabs, snapshot, monitors, s, x, i);
      EffectKeepsHandle(snapshot, monitors, s, x.handles, Top(x.state.windows), x.state.windows[i], y.state.windows[i]);
    }
  }

  lemma EffectKeepsHandle(
    snapshot: Snapshot, monitors: seq<Monitor>, s: Step, handles: map<Bytes, nat>, top: int, w: Window, v: Window)
    requires StepEffect(snapshot, monitors, s, handles, top, w, v)
    ensures v.handle == w.handle
  {
  }

  // ---------------------------------------------------------------- a run of quiet steps

  ghost predicate AllQuiet(steps: seq<Step>) { forall s <- steps :: Quiet(s) }

  function After(
    tabs: Option<Window -> Option<nat>>, snapshot: Snapshot, monitors: seq<Monitor>, steps: seq<Step>,
    x: Exec<NullState>): Exec<NullState>
  {
    Run(NullBackend(tabs), snapshot, monitors, steps, x)
  }

  lemma {:induction false} RunAppend(
    tabs: Option<Window -> Option<nat>>, snapshot: Snapshot, monitors: seq<Monitor>, p: seq<Step>, q: seq<Step>,
    x: Exec<NullState>)
    ensures After(tabs, snapshot, monitors, p + q, x)
            == After(tabs, snapshot, monitors, q, After(tabs, snapshot, monitors, p, x))
  {
    hide ExecuteStep;
    if p == [] {
      assert p + q == q;
    } else {
      assert (p + q)[0] == p[0] && (p + q)[1..] == p[1..] + q;
      RunAppend(tabs, snapshot, monitors, p[1..], q, ExecuteStep(NullBackend(tabs), snapshot, monitors, p[0], x));
    }
  }

  lemma {:induction false} RunIsSteady(
    tabs: Option<Window -> Option<nat>>, snapshot: Snapshot, monitors: seq<Monitor>, steps: seq<Step>,
    x: Exec<NullState>, live: seq<Window>, handles: map<Bytes, nat>)
    requires AllQuiet(steps) && UniqueHandles(live) && Steady(x, live, handles)
    ensures Steady(After(tabs, snapshot, monitors, steps, x), live, handles)
  {
    hide ExecuteStep, Steady, UniqueHandles, Quiet;
    if steps != [] {
      StepIsSteady(tabs, snapshot, monitors, steps[0], x, live, handles);
      RunIsSteady(tabs, snapshot, monitors, steps[1..],
                  ExecuteStep(NullBackend(tabs), snapshot, monitors, steps[0], x), live, handles);
    }
  }

  /** What a run does to the window that `target` alone drives. */
  ghost predicate RunEffect(
    monitors: seq<Monitor>, steps: seq<Step>, target: Bytes, saved: Window, w: Window, v: Window)
  {
    && (if Step(MoveWindow, target, false) in steps
        then v.frame == v.restoredFrame == ClampToMonitors(saved.restoredFrame, monitors)
        else v.frame == w.frame && v.restoredFrame == w.restoredFrame)
    && v.state == (if Step(SetWindowState, target, false) in steps then saved.state else w.state)
    && v.workspace == (if Step(SetWorkspace, target, false) in steps && saved.workspace.Some?
                       then saved.workspace else w.workspace)
  }

  lemma FirstEffect(
    snapshot: Snapshot, monitors: seq<Monitor>, steps: seq<Step>, handles: map<Bytes, nat>, top: int,
    target: Bytes, saved: Window, w: Window, u: Window, v: Window)
    requires steps != [] && OneToOneMap(handles) && target in handles && handles[target] == w.handle
    requires FindWindow(snapshot.windows, target) == Some(saved)
    requires StepEffect(snapshot, monitors, steps[0], handles, top, w, u)
    requires RunEffect(monitors, steps[1..], target, saved, u, v)
    ensures RunEffect(monitors, steps, target, saved, w, v)
  {
    hide ClampToMonitors, FindWindow;
    var s := steps[0];
    assert forall kind :: Drives(s, kind, handles, w.handle) <==> s == Step(kind, target, false);
    assert steps == [s] + steps[1..];
  }

  lemma {:induction false} RunOnWindow(
    tabs: Option<Window -> Option<nat>>, snapshot: Snapshot, monitors: seq<Monitor>, steps: seq<Step>,
    x: Exec<NullState>, live: seq<Window>, handles: map<Bytes, nat>, i: nat, target: Bytes, saved: Window)
    requires AllQuiet(steps) && UniqueHandles(live) && Steady(x, live, handles) && OneToOneMap(handles)
    requires i < |live| && target in handles && handles[target] == live[i].handle
    requires FindWindow(snapshot.windows, target) == Some(saved)
    ensures var y := After(tabs, snapshot, monitors, steps, x);
            |y.state.windows| == |live| && RunEffect(monitors, steps, target, saved, x.state.windows[i], y.state.windows[i])
  {
    hide ExecuteStep, UniqueHandles, Quiet, FindWindow, ClampToMonitors, OneToOneMap, StepEffect;
    if steps != [] {
      var y := ExecuteStep(NullBackend(tabs), snapshot, monitors, steps[0], x);
      SteadyUnique(x, live, handles);
      StepOnWindow(tabs, snapshot, monitors, steps[0], x, i);
      StepIsSteady(tabs, snapshot, monitors, steps[0], x, live, handles);
      RunOnWindow(tabs, snapshot, monitors, steps[1..], y, live, handles, i, target, saved);
      hide RunEffect, After;
      FirstEffect(snapshot, monitors, steps, handles, Top(x.state.windows), target, saved, x.state.windows[i],
                  y.state.windows[i], After(tabs, snapshot, monitors, steps[1..], y).state.windows[i]);
      AfterStep(tabs, snapshot, monitors, steps, x);
    }
  }

  lemma AfterStep(
    tabs: Option<Window -> Option<nat>>, snapshot: Snapshot, monitors: seq<Monitor>, steps: seq<Step>, x: Exec<NullState>)
    requires steps != []
    ensures After(tabs, snapshot, monitors, steps, x)
            == After(tabs, snapshot, monitors, steps[1..], ExecuteStep(NullBackend(tabs), snapshot, monitors, steps[0], x))
  {
    hide ExecuteStep;
  }

  /** Frame, state, workspace and z of a window that nothing drove. */
  predicate SamePlacement(w: Window, v: Window) {
    v.frame == w.frame && v.restoredFrame == w.restoredFrame && v.state == w.state && v.workspace == w.workspace
    && v.zOrder == w.zOrder
  }

  /** The step neither places nor raises the window with handle `h`. */
  predicate Spares(t: Step, handles: map<Bytes, nat>, h: nat) {
    || t.skipped || !(t.target in handles && handles[t.target] == h)
    || t.kind == RestoreTabs || t.kind == WarpCursor || t.kind == FocusWindow
  }

  lemma {:induction false} RunMisses(
    tabs: Option<Window -> Option<nat>>, snapshot: Snapshot, monitors: seq<Monitor>, steps: seq<Step>,
    x: Exec<NullState>, live: seq<Window>, handles: map<Bytes, nat>, i: nat)
    requires AllQuiet(steps) && UniqueHandles(live) && Steady(x, live, handles)
    requires i < |live| && forall t <- steps :: Spares(t, handles, live[i].handle)
    ensures var y := After(tabs, snapshot, monitors, steps, x);
            |y.state.windows| == |live| && SamePlacement(x.state.windows[i], y.state.windows[i])
  {
    hide ExecuteStep, UniqueHandles, Quiet, FindWindow, ClampToMonitors;
    if steps != [] {
      assert steps[0] in steps;
      SteadyUnique(x, live, handles);
      StepOnWindow(tabs, snapshot, monitors, steps[0], x, i);
      StepIsSteady(tabs, snapshot, monitors, steps[0], x, live, handles);
      RunMisses(tabs, snapshot, monitors, steps[1..],
                ExecuteStep(NullBackend(tabs), snapshot, monitors, steps[0], x), live, handles, i);
    }
  }

  lemma {:induction false} RunKeepsZ(
    tabs: Option<Window -> Option<nat>>, snapshot: Snapshot, monitors: seq<Monitor>, steps: seq<Step>,
    x: Exec<NullState>, live: seq<Window>, handles: map<Bytes, nat>, i: nat)
    requires AllQuiet(steps) && UniqueHandles(live) && Steady(x, live, handles) && i < |live|
    requires forall s <- steps :: s.kind != RaiseWindow
    ensures var y := After(tabs, snapshot, monitors, steps, x);
            |y.state.windows| == |live| && y.state.windows[i].zOrder == x.state.windows[i].zOrder
  {
    hide ExecuteStep, UniqueHandles, Quiet, FindWindow, ClampToMonitors;
    if steps != [] {
      assert steps[0] in steps;
      SteadyUnique(x, live, handles);
      StepOnWindow(tabs, snapshot, monitors, steps[0], x, i);
      StepIsSteady(tabs, snapshot, monitors, steps[0], x, live, handles);
      RunKeepsZ(tabs, snapshot, monitors, steps[1..],
                ExecuteStep(NullBackend(tabs), snapshot, monitors, steps[0], x), live, handles, i);
    }
  }

  // ---------------------------------------------------------------- raising in order

  predicate Targets(w: Window, handles: map<Bytes, nat>, h: nat) { w.id in handles && handles[w.id] == h }

  ghost predicate WasRaised(done: seq<Window>, handles: map<Bytes, nat>, h: nat) {
    exists p :: 0 <= p < |done| && Targets(done[p], handles, h)
  }

  /** Raised windows stand above the others. */
  ghost predicate Above(done: seq<Window>, handles: map<Bytes, nat>, ws: seq<Window>) {
    forall i, j | 0 <= i < |ws| && 0 <= j < |ws|
      && WasRaised(done, handles, ws[i].handle) && !WasRaised(done, handles, ws[j].handle) ::
      ws[j].zOrder < ws[i].zOrder
  }

  /** Among the raised windows the saved z_order decides. */
  ghost predicate Ordered(done: seq<Window>, handles: map<Bytes, nat>, ws: seq<Window>) {
    forall p, q, i, j | 0 <= p < |done| && 0 <= q < |done| && 0 <= i < |ws| && 0 <= j < |ws|
      && Targets(done[p], handles, ws[i].handle) && Targets(done[q], handles, ws[j].handle)
      && done[p].zOrder < done[q].zOrder ::
      ws[i].zOrder < ws[j].zOrder
  }

  ghost predicate Ranked(done: seq<Window>, handles: map<Bytes, nat>, ws: seq<Window>) {
    Above(done, handles, ws) && Ordered(done, handles, ws)
  }

  predicate SortedByZ(ws: seq<Window>) { forall p, q :: 0 <= p < q < |ws| ==> ws[p].zOrder <= ws[q].zOrder }

  /** An id stands for one saved window. */
  predicate OneZ(ws: seq<Window>) { forall v <- ws, w <- ws :: v.id == w.id ==> v.zOrder == w.zOrder }

  /** The windows `vs` are `ws` after raising the one that `r` drives. */
  ghost predicate RaisedFrom(r: Window, handles: map<Bytes, nat>, ws: seq<Window>, vs: seq<Window>, top: int) {
    && SamePlaces(ws, vs)
    && forall i :: 0 <= i < |ws| ==>
         && ws[i].zOrder <= top
         && vs[i].zOrder == if Targets(r, handles, ws[i].handle) then top + 1 else ws[i].zOrder
  }

  lemma MoreRaised(done: seq<Window>, r: Window, handles: map<Bytes, nat>, h: nat)
    ensures WasRaised(done + [r], handles, h) <==> WasRaised(done, handles, h) || Targets(r, handles, h)
  {
    var all := done + [r];
    assert all[|done|] == r && forall p :: 0 <= p < |done| ==> all[p] == done[p];
    if WasRaised(done, handles, h) {
      var p :| 0 <= p < |done| && Targets(done[p], handles, h);
      assert Targets(all[p], handles, h);
    }
    if Targets(r, handles, h) {
      assert Targets(all[|done|], handles, h);
    }
  }

  lemma RaiseAbove(done: seq<Window>, r: Window, handles: map<Bytes, nat>, ws: seq<Window>, vs: seq<Window>, top: int)
    requires Above(done, handles, ws) && RaisedFrom(r, handles, ws, vs, top)
    ensures Above(done + [r], handles, vs)
  {
    hide WasRaised, Targets;
    forall i, j | 0 <= i < |vs| && 0 <= j < |vs|
      && WasRaised(done + [r], handles, vs[i].handle) && !WasRaised(done + [r], handles, vs[j].handle)
      ensures vs[j].zOrder < vs[i].zOrder
    {
      MoreRaised(done, r, handles, vs[i].handle);
      MoreRaised(done, r, handles, vs[j].handle);
      assert ws[i].handle == vs[i].handle && ws[j].handle == vs[j].handle;
    }
  }

  lemma RaiseOrdered(done: seq<Window>, r: Window, handles: map<Bytes, nat>, ws: seq<Window>, vs: seq<Window>, top: int)
    requires Ordered(done, handles, ws) && RaisedFrom(r, handles, ws, vs, top)
    requires forall p :: 0 <= p < |done| ==> done[p].zOrder <= r.zOrder
    requires OneToOneMap(handles) && OneZ(done + [r])
    ensures Ordered(done + [r], handles, vs)
  {
    var all := done + [r];
    assert all[|done|] == r && forall p :: 0 <= p < |done| ==> all[p] == done[p];
    hide OneZ, OneToOneMap, Targets, Ordered;
    forall p, q, i, j | 0 <= p < |all| && 0 <= q < |all| && 0 <= i < |vs| && 0 <= j < |vs|
      && Targets(all[p], handles, vs[i].handle) && Targets(all[q], handles, vs[j].handle)
      && all[p].zOrder < all[q].zOrder
      ensures vs[i].zOrder < vs[j].zOrder
    {
      assert ws[i].handle == vs[i].handle && ws[j].handle == vs[j].handle;
      assert p < |done|;
      OtherWindow(all, p, |done|, handles, ws[i].handle);
      if q < |done| {
        OrderedAt(done, handles, ws, p, q, i, j);
      }
    }
  }

  lemma OrderedAt(done: seq<Window>, handles: map<Bytes, nat>, ws: seq<Window>, p: nat, q: nat, i: nat, j: nat)
    requires Ordered(done, handles, ws) && p < |done| && q < |done| && i < |ws| && j < |ws|
    requires Targets(done[p], handles, ws[i].handle) && Targets(done[q], handles, ws[j].handle)
    requires done[p].zOrder < done[q].zOrder
    ensures ws[i].zOrder < ws[j].zOrder
  {
    hide Targets;
  }

  lemma OtherWindow(all: seq<Window>, p: nat, q: nat, handles: map<Bytes, nat>, h: nat)
    requires OneToOneMap(handles) && OneZ(all) && p < |all| && q < |all|
    requires Targets(all[p], handles, h) && all[p].zOrder != all[q].zOrder
    ensures !Targets(all[q], handles, h)
  {
    assert all[p] in all && all[q] in all;
  }

  lemma RaiseRanked(done: seq<Window>, r: Window, handles: map<Bytes, nat>, ws: seq<Window>, vs: seq<Window>, top: int)
    requires Ranked(done, handles, ws) && RaisedFrom(r, handles, ws, vs, top)
    requires forall p :: 0 <= p < |done| ==> done[p].zOrder <= r.zOrder
    requires OneToOneMap(handles) && OneZ(done + [r])
    ensures Ranked(done + [r], handles, vs)
  {
    hide Above, Ordered, RaisedFrom, OneZ, OneToOneMap;
    RaiseAbove(done, r, handles, ws, vs, top);
    RaiseOrdered(done, r, handles, ws, vs, top);
  }

  lemma FirstRaise(c: Capabilities, rest: seq<Window>)
    requires rest != [] && c.zOrder
    ensures var steps := RaiseSteps(c, rest);
            && steps[0] == Step(RaiseWindow, rest[0].id, false) && Quiet(steps[0])
            && steps[1..] == RaiseSteps(c, rest[1..])
  {
  }

  lemma NothingRaised(
    tabs: Option<Window -> Option<nat>>, snapshot: Snapshot, monitors: seq<Monitor>, c: Capabilities, x: Exec<NullState>)
    ensures After(tabs, snapshot, monitors, RaiseSteps(c, []), x) == x
  {
    hide ExecuteStep;
  }

  lemma {:induction false} RaiseRun(
    tabs: Option<Window -> Option<nat>>, snapshot: Snapshot, monitors: seq<Monitor>, c: Capabilities,
    done: seq<Window>, rest: seq<Window>, x: Exec<NullState>, live: seq<Window>, handles: map<Bytes, nat>)
    requires UniqueHandles(live) && Steady(x, live, handles) && OneToOneMap(handles) && c.zOrder
    requires SortedByZ(done + rest) && OneZ(done + rest) && Ranked(done, handles, x.state.windows)
    ensures Ranked(done + rest, handles, After(tabs, snapshot, monitors, RaiseSteps(c, rest), x).state.windows)
    decreases |rest|
  {
    hide *;
    if rest == [] {
      assert done + rest == done;
      NothingRaised(tabs, snapshot, monitors, c, x);
    } else {
      var r, steps := rest[0], RaiseSteps(c, rest);
      FirstRaise(c, rest);
      var y := ExecuteStep(NullBackend(tabs), snapshot, monitors, steps[0], x);
      RaiseEffect(tabs, snapshot, monitors, r, x, live, handles);
      StepIsSteady(tabs, snapshot, monitors, steps[0], x, live, handles);
      assert done + rest == done + [r] + rest[1..];
      SortedParts(done, r, rest[1..]);
      RaiseRanked(done, r, handles, x.state.windows, y.state.windows, Top(x.state.windows));
      RaiseRun(tabs, snapshot, monitors, c, done + [r], rest[1..], y, live, handles);
      AfterStep(tabs, snapshot, monitors, steps, x);
    }
  }

  lemma SortedParts(done: seq<Window>, r: Window, rest: seq<Window>)
    requires SortedByZ(done + [r] + rest) && OneZ(done + [r] + rest)
    ensures forall p :: 0 <= p < |done| ==> done[p].zOrder <= r.zOrder
    ensures OneZ(done + [r])
  {
    assert forall w <- done + [r] :: w in done + [r] + rest;
    var all := done + [r] + rest;
    assert all[|done|] == r && forall p :: 0 <= p < |done| ==> all[p] == done[p];
  }

  lemma RaiseEffect(
    tabs: Option<Window -> Option<nat>>, snapshot: Snapshot, monitors: seq<Monitor>, r: Window,
    x: Exec<NullState>, live: seq<Window>, handles: map<Bytes, nat>)
    requires UniqueHandles(live) && Steady(x, live, handles)
    ensures var y := ExecuteStep(NullBackend(tabs), snapshot, monitors, Step(RaiseWindow, r.id, false), x);
            RaisedFrom(r, handles, x.state.windows, y.state.windows, Top(x.state.windows))
  {
    hide ExecuteStep, UniqueHandles, FindWindow, ClampToMonitors, Top;
    var s := Step(RaiseWindow, r.id, false);
    SteadyUnique(x, live, handles);
    StepIsSteady(tabs, snapshot, monitors, s, x, live, handles);
    var ws, vs := x.state.windows, ExecuteStep(NullBackend(tabs), snapshot, monitors, s, x).state.windows;
    forall i | 0 <= i < |ws|
      ensures && ws[i].zOrder <= Top(ws)
              && vs[i].zOrder == if Targets(r, handles, ws[i].handle) then Top(ws) + 1 else ws[i].zOrder
    {
      assert ws[i] in ws;
      StepOnWindow(tabs, snapshot, monitors, s, x, i);
    }
  }

  lemma {:induction false} InsertSorts(w: Window, ws: seq<Window>)
    requires SortedByZ(ws)
    ensures SortedByZ(InsertByZ(w, ws)) && forall v :: v in InsertByZ(w, ws) <==> v == w || v in ws
    decreases |ws|
  {
    if ws != [] && w.zOrder >= ws[0].zOrder {
      var rest := InsertByZ(w, ws[1..]);
      InsertSorts(w, ws[1..]);
      assert ws == [ws[0]] + ws[1..];
      forall q | 0 <= q < |rest|
        ensures ws[0].zOrder <= rest[q].zOrder
      {
        assert rest[q] in rest;
        if rest[q] != w {
          var p :| 0 <= p < |ws[1..]| && ws[1..][p] == rest[q];
        }
      }
    }
  }

  lemma {:induction false} SortSorts(ws: seq<Window>)
    ensures SortedByZ(SortByZ(ws)) && forall v :: v in SortByZ(ws) <==> v in ws
    decreases |ws|
  {
    if ws != [] {
      SortSorts(ws[1..]);
      InsertSorts(ws[0], SortByZ(ws[1..]));
      assert ws == [ws[0]] + ws[1..];
    }
  }

  // ---------------------------------------------------------------- what the plan holds

  /** The steps for one saved window: none when it is not selected. */
  function Block(o: Options, c: Capabilities, w: Window, matched: bool): seq<Step> {
    if o.selected(w) then WindowSteps(o, c, w, matched) else []
  }

  /** The plan's window part, block by block. */
  function Blocks(o: Options, c: Capabilities, saved: seq<Window>, a: seq<Option<nat>>): seq<Step>
    requires |a| == |saved|
  {
    if saved == [] then [] else Block(o, c, saved[0], a[0].Some?) + Blocks(o, c, saved[1..], a[1..])
  }

  lemma {:induction false} PlanIsBlocks(
    sim: Similarity, o: Options, c: Capabilities, saved: seq<Window>, live: seq<Window>, used: seq<nat>)
    ensures PlanWindows(sim, o, c, saved, live, used) == Blocks(o, c, saved, Intended(sim, o, saved, live, used))
    decreases |saved|
  {
    hide BestLiveMatch, WindowSteps;
    if saved != [] {
      var b := BestLiveMatch(sim, saved[0], live, used);
      var next := if o.selected(saved[0]) then UsedWith(live, used, b) else used;
      PlanIsBlocks(sim, o, c, saved[1..], live, next);
      assert Intended(sim, o, saved, live, used)[1..] == Intended(sim, o, saved[1..], live, next);
      if o.selected(saved[0]) {
        PlanStep(sim, o, c, saved, live, used, b);
      } else {
        PlanSkip(sim, o, c, saved, live, used);
        assert [] + Blocks(o, c, saved[1..], Intended(sim, o, saved[1..], live, next))
            == Blocks(o, c, saved[1..], Intended(sim, o, saved[1..], live, next));
      }
    }
  }

  /** The steps for one saved window without those that launch it and wait for it. */
  function Placing(o: Options, c: Capabilities, w: Window, placed: bool): seq<Step> {
    if !o.selected(w) then [] else if placed then PlaceSteps(o, c, w) else [Step(MoveWindow, w.id, true)]
  }

  function Placings(o: Options, c: Capabilities, saved: seq<Window>, placed: seq<bool>): seq<Step>
    requires |placed| == |saved|
  {
    if saved == [] then [] else Placing(o, c, saved[0], placed[0]) + Placings(o, c, saved[1..], placed[1..])
  }

  lemma {:induction false} PlacingMember(o: Options, c: Capabilities, saved: seq<Window>, placed: seq<bool>, s: Step)
    requires |placed| == |saved|
    ensures s in Placings(o, c, saved, placed) <==> exists k :: 0 <= k < |saved| && s in Placing(o, c, saved[k], placed[k])
  {
    hide Placing;
    if saved != [] {
      PlacingMember(o, c, saved[1..], placed[1..], s);
      assert forall k :: 0 < k < |saved| ==> saved[1..][k - 1] == saved[k] && placed[1..][k - 1] == placed[k];
      if s in Placings(o, c, saved[1..], placed[1..]) {
        var k :| 0 <= k < |saved[1..]| && s in Placing(o, c, saved[1..][k], placed[1..][k]);
        assert s in Placing(o, c, saved[k + 1], placed[k + 1]);
      }
      if exists k :: 0 <= k < |saved| && s in Placing(o, c, saved[k], placed[k]) {
        var k :| 0 <= k < |saved| && s in Placing(o, c, saved[k], placed[k]);
        if k > 0 {
          assert s in Placing(o, c, saved[1..][k - 1], placed[1..][k - 1]);
        }
      }
    }
  }

  /** A move that is not skipped and has a window to move. */
  predicate Moves(s: Step, handles: map<Bytes, nat>) { s.kind == MoveWindow && !s.skipped && s.target in handles }

  /** A move that is not skipped and has no window to move. */
  predicate Misses(s: Step, handles: map<Bytes, nat>) { s.kind == MoveWindow && !s.skipped && s.target !in handles }

  function CountMoves(steps: seq<Step>, handles: map<Bytes, nat>): nat {
    if steps == [] then 0 else (if Moves(steps[0], handles) then 1 else 0) + CountMoves(steps[1..], handles)
  }

  function CountMisses(steps: seq<Step>, handles: map<Bytes, nat>): nat {
    if steps == [] then 0 else (if Misses(steps[0], handles) then 1 else 0) + CountMisses(steps[1..], handles)
  }

  lemma {:induction false} CountAppend(p: seq<Step>, q: seq<Step>, handles: map<Bytes, nat>)
    ensures CountMoves(p + q, handles) == CountMoves(p, handles) + CountMoves(q, handles)
    ensures CountMisses(p + q, handles) == CountMisses(p, handles) + CountMisses(q, handles)
  {
    if p == [] {
      assert p + q == q;
    } else {
      assert (p + q)[0] == p[0] && (p + q)[1..] == p[1..] + q;
      CountAppend(p[1..], q, handles);
    }
  }

  lemma {:induction false} NoMoves(steps: seq<Step>, handles: map<Bytes, nat>)
    requires forall s <- steps :: s.kind != MoveWindow
    ensures CountMoves(steps, handles) == 0 && CountMisses(steps, handles) == 0
  {
    if steps != [] {
      assert steps[0] in steps;
      NoMoves(steps[1..], handles);
    }
  }

  /** How many selected windows have a live one to drive. */
  function CountDriven(o: Options, saved: seq<Window>, a: seq<Option<nat>>): nat
    requires |a| == |saved|
  {
    if saved == [] then 0
    else (if o.selected(saved[0]) && a[0].Some? then 1 else 0) + CountDriven(o, saved[1..], a[1..])
  }

  /** How many selected windows the plan places and the run has no live one for. */
  function CountLost(o: Options, saved: seq<Window>, placed: seq<bool>, a: seq<Option<nat>>): nat
    requires |placed| == |a| == |saved|
  {
    if saved == [] then 0
    else (if o.selected(saved[0]) && placed[0] && a[0].None? then 1 else 0) + CountLost(o, saved[1..], placed[1..], a[1..])
  }

  lemma {:induction false} PlacingsCount(
    o: Options, c: Capabilities, saved: seq<Window>, placed: seq<bool>, a: seq<Option<nat>>, handles: map<Bytes, nat>)
    requires |placed| == |a| == |saved| && c.geometry
    requires forall k :: 0 <= k < |saved| ==>
               (saved[k].id in handles <==> a[k].Some?) && (o.selected(saved[k]) && a[k].Some? ==> placed[k])
    ensures CountMoves(Placings(o, c, saved, placed), handles) == CountDriven(o, saved, a)
    ensures CountMisses(Placings(o, c, saved, placed), handles) == CountLost(o, saved, placed, a)
  {
    if saved != [] {
      hide Placing;
      assert forall k :: 0 <= k < |saved[1..]| ==>
               saved[1..][k] == saved[k + 1] && placed[1..][k] == placed[k + 1] && a[1..][k] == a[k + 1];
      PlacingsCount(o, c, saved[1..], placed[1..], a[1..], handles);
      CountAppend(Placing(o, c, saved[0], placed[0]), Placings(o, c, saved[1..], placed[1..]), handles);
      PlacingCount(o, c, saved[0], placed[0], handles);
    }
  }

  lemma PlacingCount(o: Options, c: Capabilities, w: Window, placed: bool, handles: map<Bytes, nat>)
    requires c.geometry
    ensures CountMoves(Placing(o, c, w, placed), handles) == if o.selected(w) && placed && w.id in handles then 1 else 0
    ensures CountMisses(Placing(o, c, w, placed), handles) == if o.selected(w) && placed && w.id !in handles then 1 else 0
  {
    if o.selected(w) {
      var steps := Placing(o, c, w, placed);
      assert steps == [steps[0]] + steps[1..];
      NoMoves(steps[1..], handles);
    }
  }

  /** Every move that has a window to move finds its saved window too. */
  ghost predicate MovesReach(steps: seq<Step>, snapshot: Snapshot, live: seq<Window>, handles: map<Bytes, nat>) {
    forall s <- steps | Moves(s, handles) ::
      FindWindow(snapshot.windows, s.target).Some? && Has(live, handles[s.target])
  }

  lemma HasStays(live: seq<Window>, ws: seq<Window>, h: nat)
    requires SamePlaces(live, ws) && Has(live, h)
    ensures Has(ws, h)
  {
    var i :| 0 <= i < |live| && live[i].handle == h;
    assert ws[i].handle == h;
  }

  function NoLive(warnings: seq<Warning>): nat { multiset(warnings)[NoLiveWindow] }

  lemma {:induction false} RunCounts(
    tabs: Option<Window -> Option<nat>>, snapshot: Snapshot, monitors: seq<Monitor>, steps: seq<Step>,
    x: Exec<NullState>, live: seq<Window>, handles: map<Bytes, nat>)
    requires AllQuiet(steps) && UniqueHandles(live) && Steady(x, live, handles)
    requires MovesReach(steps, snapshot, live, handles)
    ensures var y := After(tabs, snapshot, monitors, steps, x);
            && y.restored == x.restored + CountMoves(steps, handles) && y.failed == x.failed && y.errors == x.errors
            && y.launched == x.launched && NoLive(y.warnings) == NoLive(x.warnings) + CountMisses(steps, handles)
  {
    if steps != [] {
      var s := steps[0];
      var y := ExecuteStep(NullBackend(tabs), snapshot, monitors, s, x);
      assert s in steps;
      StepIsSteady(tabs, snapshot, monitors, s, x, live, handles);
      StepCounts(tabs, snapshot, monitors, s, x, live, handles);
      hide ExecuteStep, UniqueHandles, FindWindow, ClampToMonitors, Has, Steady, NoLive;
      RunCounts(tabs, snapshot, monitors, steps[1..], y, live, handles);
    }
  }

  lemma OtherWarnings(warnings: seq<Warning>)
    ensures forall w: Warning :: NoLive(warnings + [w]) == NoLive(warnings) + if w == NoLiveWindow then 1 else 0
  {
  }

  lemma OtherCounts(
    b: Backend<NullState>, snapshot: Snapshot, monitors: seq<Monitor>, s: Step, x: Exec<NullState>)
    requires Quiet(s) && (s.kind != MoveWindow || s.skipped)
    ensures var y := ExecuteStep(b, snapshot, monitors, s, x);
            && y.restored == x.restored && y.failed == x.failed && y.errors == x.errors
            && y.launched == x.launched && NoLive(y.warnings) == NoLive(x.warnings)
  {
    hide FindWindow, NoLive;
    OtherWarnings(x.warnings);
  }

  lemma MoveCounts(
    tabs: Option<Window -> Option<nat>>, snapshot: Snapshot, monitors: seq<Monitor>, s: Step,
    x: Exec<NullState>, live: seq<Window>, handles: map<Bytes, nat>)
    requires Steady(x, live, handles) && MovesReach([s], snapshot, live, handles) && s.kind == MoveWindow && !s.skipped
    ensures var y := ExecuteStep(NullBackend(tabs), snapshot, monitors, s, x);
            && y.restored == x.restored + (if Moves(s, handles) then 1 else 0)
            && y.failed == x.failed && y.errors == x.errors
            && y.launched == x.launched && NoLive(y.warnings) == NoLive(x.warnings) + if Misses(s, handles) then 1 else 0
  {
    hide ClampToMonitors, FindWindow, Has, Change, NoLive;
    OtherWarnings(x.warnings);
    assert s in [s];
    if Moves(s, handles) {
      HasStays(live, x.state.windows, handles[s.target]);
    }
  }

  lemma StepCounts(
    tabs: Option<Window -> Option<nat>>, snapshot: Snapshot, monitors: seq<Monitor>, s: Step,
    x: Exec<NullState>, live: seq<Window>, handles: map<Bytes, nat>)
    requires Quiet(s) && Steady(x, live, handles) && MovesReach([s], snapshot, live, handles)
    ensures var y := ExecuteStep(NullBackend(tabs), snapshot, monitors, s, x);
            && y.restored == x.restored + (if Moves(s, handles) then 1 else 0)
            && y.failed == x.failed && y.errors == x.errors
            && y.launched == x.launched && NoLive(y.warnings) == NoLive(x.warnings) + if Misses(s, handles) then 1 else 0
  {
    if s.kind == MoveWindow && !s.skipped {
      MoveCounts(tabs, snapshot, monitors, s, x, live, handles);
    } else {
      hide ExecuteStep, NullBackend, NoLive, Steady, MovesReach;
      OtherCounts(NullBackend(tabs), snapshot, monitors, s, x);
    }
  }

  // ---------------------------------------------------------------- what quiet steps leave alone

  /** Pids and titles, and the number of the next pid. */
  ghost predicate SameFaces(s: NullState, t: NullState) {
    && |t.windows| == |s.windows| && t.nextPid == s.nextPid && t.allowMutation == s.allowMutation
    && forall i :: 0 <= i < |s.windows| ==>
         && t.windows[i].handle == s.windows[i].handle && t.windows[i].pid == s.windows[i].pid
         && t.windows[i].title == s.windows[i].title
  }

  lemma {:induction false} ChangeKeepsFaces(ws: seq<Window>, h: nat, f: Window -> Window, i: nat)
    requires forall w: Window :: f(w).handle == w.handle && f(w).pid == w.pid && f(w).title == w.title
    requires i < |ws|
    ensures var v := Change(ws, h, f)[i]; v.handle == ws[i].handle && v.pid == ws[i].pid && v.title == ws[i].title
  {
    if i > 0 && ws[0].handle != h {
      ChangeKeepsFaces(ws[1..], h, f, i - 1);
    }
  }

  lemma ChangedFaces(s: NullState, h: nat, f: Window -> Window)
    requires forall w: Window :: f(w).handle == w.handle && f(w).pid == w.pid && f(w).title == w.title
    ensures SameFaces(s, s.(windows := Change(s.windows, h, f)))
  {
    hide Change;
    forall i | 0 <= i < |s.windows|
      ensures var v := Change(s.windows, h, f)[i];
              v.handle == s.windows[i].handle && v.pid == s.windows[i].pid && v.title == s.windows[i].title
    {
      ChangeKeepsFaces(s.windows, h, f, i);
    }
  }

  lemma ClosingFaces(snapshot: Snapshot, s: Step, x: Exec<NullState>)
    ensures SameFaces(x.state, Warped(x.state, snapshot.cursor.x, snapshot.cursor.y).state)
    ensures s.target in x.handles ==> SameFaces(x.state, Focused(x.state, x.handles[s.target]).state)
  {
    hide Has, FirstWith;
  }

  lemma StepKeepsFaces(
    tabs: Option<Window -> Option<nat>>, snapshot: Snapshot, monitors: seq<Monitor>, s: Step, x: Exec<NullState>)
    requires Quiet(s)
    ensures SameFaces(x.state, ExecuteStep(NullBackend(tabs), snapshot, monitors, s, x).state)
    ensures ExecuteStep(NullBackend(tabs), snapshot, monitors, s, x).handles == x.handles
  {
    NoChange(x.state);
    ClosingFaces(snapshot, s, x);
    hide Top, ClampToMonitors, FindWindow, Change, Has, FirstWith, SameFaces, Focused, Warped;
    var saved := FindWindow(snapshot.windows, s.target);
    if !s.skipped && s.target in x.handles {
      var h := x.handles[s.target];
      if s.kind == RaiseWindow {
        var z := Top(x.state.windows) + 1;
        ChangedFaces(x.state, h, (w: Window) => w.(zOrder := z));
      }
      if saved.Some? && s.kind == MoveWindow {
        var r := ClampToMonitors(saved.value.restoredFrame, monitors);
        ChangedFaces(x.state, h, (w: Window) => w.(frame := r, restoredFrame := r));
      }
      if saved.Some? && s.kind == SetWindowState {
        var state := saved.value.state;
        ChangedFaces(x.state, h, (w: Window) => w.(state := state));
      }
      if saved.Some? && s.kind == SetWorkspace && saved.value.workspace.Some? {
        var workspace := saved.value.workspace.value;
        ChangedFaces(x.state, h, (w: Window) => w.(workspace := Some(workspace)));
      }
    }
  }

  lemma FacesCarry(s: NullState, t: NullState, u: NullState)
    requires SameFaces(s, t) && SameFaces(t, u)
    ensures SameFaces(s, u)
  {
  }

  lemma {:induction false} RunKeepsFaces(
    tabs: Option<Window -> Option<nat>>, snapshot: Snapshot, monitors: seq<Monitor>, steps: seq<Step>, x: Exec<NullState>)
    requires AllQuiet(steps)
    ensures SameFaces(x.state, After(tabs, snapshot, monitors, steps, x).state)
    ensures After(tabs, snapshot, monitors, steps, x).handles == x.handles
  {
    hide ExecuteStep, Quiet, SameFaces;
    if steps == [] {
      NoChange(x.state);
    } else {
      var y := ExecuteStep(NullBackend(tabs), snapshot, monitors, steps[0], x);
      StepKeepsFaces(tabs, snapshot, monitors, steps[0], x);
      RunKeepsFaces(tabs, snapshot, monitors, steps[1..], y);
      FacesCarry(x.state, y.state, After(tabs, snapshot, monitors, steps[1..], y).state);
    }
  }

  lemma NoChange(s: NullState)
    ensures SameFaces(s, s)
  {
  }

  // ---------------------------------------------------------------- a window system that refuses changes

  lemma StepRefused(
    tabs: Option<Window -> Option<nat>>, snapshot: Snapshot, monitors: seq<Monitor>, s: Step, x: Exec<NullState>)
    requires !x.state.allowMutation
    ensures var y := ExecuteStep(NullBackend(tabs), snapshot, monitors, s, x);
            y.state == x.state && y.restored == x.restored && y.launched == x.launched
  {
    hide ClampToMonitors, FindWindow, Has, AwaitIn;
  }

  /** Whatever the plan, nothing moves and nothing counts as restored. */
  lemma {:induction false} RunRefused(
    tabs: Option<Window -> Option<nat>>, snapshot: Snapshot, monitors: seq<Monitor>, steps: seq<Step>, x: Exec<NullState>)
    requires !x.state.allowMutation
    ensures var y := After(tabs, snapshot, monitors, steps, x);
            y.state == x.state && y.restored == x.restored && y.launched == x.launched
  {
    hide ExecuteStep;
    if steps != [] {
      StepRefused(tabs, snapshot, monitors, steps[0], x);
      RunRefused(tabs, snapshot, monitors, steps[1..], ExecuteStep(NullBackend(tabs), snapshot, monitors, steps[0], x));
    }
  }
}
