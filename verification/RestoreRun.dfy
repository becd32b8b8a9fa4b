/** plan_restore and execute_plan step by step against the null platform object (src/core/restore_engine.cpp:265-435). */
module RestoreRun {
  import opened Base
  import opened Geometry
  import opened Desktop
  import opened Restore
  import opened RestoreSteps
  import opened RestoreSafety

  /** The local variables of execute_plan. */
  datatype Report = Report(
    handles: map<Bytes, nat>, restored: nat, failed: nat, launched: nat, tabs: nat,
    warnings: seq<Warning>, errors: seq<Failure>)

  function With(s: NullState, r: Report): Exec<NullState> {
    Exec(s, r.handles, r.restored, r.failed, r.launched, r.tabs, r.warnings, r.errors)
  }

  function Warned(r: Report, w: Warning): Report { r.(warnings := r.warnings + [w]) }

  function Failed(r: Report, e: Failure): Report { r.(failed := r.failed + 1, errors := r.errors + [e]) }

  method FindSaved(snapshot: Snapshot, id: Bytes) returns (r: Option<Window>)
    ensures r == FindWindow(snapshot.windows, id)
  {
    var ws := snapshot.windows;
    assert ws[0..] == ws;
    for i := 0 to |ws|
      invariant FindWindow(ws, id) == FindWindow(ws[i..], id)
    {
      assert ws[i..][1..] == ws[i + 1..];
      if ws[i].id == id {
        return Some(ws[i]);
      }
    }
    return None;
  }

  /** The cases that start or wait for an application. */
  method DoLaunch(p: NullPlatform, tabs: Option<Window -> Option<nat>>, saved: Window, s: Step, r: Report)
    returns (q: Report)
    requires s.kind == LaunchProcess || s.kind == WaitForWindow
    modifies p
    ensures With(p.State(), q)
            == if s.kind == LaunchProcess then RunLaunch(NullBackend(tabs), saved, s.target, With(old(p.State()), r))
               else RunWait(NullBackend(tabs), saved, s.target, With(old(p.State()), r))
  {
    q := r;
    if s.kind == LaunchProcess {
      var pid := p.Launch(saved);
      if pid.None? {
        q := Failed(q, LaunchFailed);
      } else {
        q := q.(launched := q.launched + 1, handles := q.handles[PidKey(s.target) := pid.value]);
      }
    } else {
      var pid := if PidKey(s.target) in q.handles then q.handles[PidKey(s.target)] else 0;
      var appeared := p.Await(pid, saved.title);
      if appeared.None? {
        q := Failed(q, NoWindowAppeared);
      } else {
        q := q.(handles := q.handles[s.target := appeared.value]);
      }
    }
  }

  method DoMove(
    p: NullPlatform, tabs: Option<Window -> Option<nat>>, monitors: seq<Monitor>, saved: Option<Window>, target: Bytes,
    r: Report) returns (q: Report)
    modifies p
    ensures With(p.State(), q) == RunMove(NullBackend(tabs), monitors, saved, target, With(old(p.State()), r))
  {
    hide FrameSet;
    q := r;
    if saved.None? || target !in q.handles {
      q := Warned(q, NoLiveWindow);
    } else {
      var frame := FindClamp(saved.value.restoredFrame, monitors);
      var moved := p.SetFrame(q.handles[target], frame);
      q := if moved then q.(restored := q.restored + 1) else Failed(q, PlacementFailed);
    }
  }

  method DoStep(
    p: NullPlatform, tabs: Option<Window -> Option<nat>>, snapshot: Snapshot, monitors: seq<Monitor>, s: Step, r: Report)
    returns (q: Report)
    modifies p
    ensures With(p.State(), q) == ExecuteStep(NullBackend(tabs), snapshot, monitors, s, With(old(p.State()), r))
  {
    hide FrameSet, StateSet, WorkspaceSet, Raised, Focused, Warped, RunLaunch, RunWait, RunMove, FindWindow;
    q := r;
    if s.skipped {
      q := Warned(q, SkippedStep);
      return;
    }
    var saved := FindSaved(snapshot, s.target);
    var driven := s.target in q.handles;
    var ok := true;
    match s.kind {
      case LaunchProcess =>
        if saved.Some? {
          q := DoLaunch(p, tabs, saved.value, s, q);
        }
      case WaitForWindow =>
        if saved.Some? {
          q := DoLaunch(p, tabs, saved.value, s, q);
        }
      case MoveWindow =>
        q := DoMove(p, tabs, monitors, saved, s.target, q);
      case SetWindowState =>
        if saved.Some? && driven {
          ok := p.SetState(q.handles[s.target], saved.value.state);
          q := if ok then q else Warned(q, StateFailed);
        }
      case SetWorkspace =>
        if saved.Some? && driven && saved.value.workspace.Some? {
          ok := p.MoveToWorkspace(q.handles[s.target], saved.value.workspace.value);
          q := if ok then q else Warned(q, WorkspaceFailed);
        }
      case RaiseWindow =>
        if driven {
          ok := p.Raise(q.handles[s.target]);
          q := if ok then q else Warned(q, RaiseFailed);
        }
      case RestoreTabs =>
        if saved.Some? && tabs.Some? {
          match tabs.value(saved.value)
          case None => q := Warned(q, TabsFailed);
          case Some(n) => q := q.(tabs := q.tabs + n);
        }
      case WarpCursor =>
        ok := p.Warp(snapshot.cursor.x, snapshot.cursor.y);
        q := if ok then q else Warned(q, WarpFailed);
      case FocusWindow =>
        if driven {
          ok := p.Focus(q.handles[s.target]);
          q := if ok then q else Warned(q, FocusFailed);
        }
    }
  }

  lemma AssignStep(sim: Similarity, saved: seq<Window>, live: seq<Window>, used: seq<nat>, found: Option<nat>, handles: map<Bytes, nat>)
    requires saved != [] && found == BestLiveMatch(sim, saved[0], live, used)
    ensures HandleMap(saved, live, Assign(sim, saved, live, used), handles)
            == (match found
                case Some(i) =>
                  HandleMap(saved[1..], live, Assign(sim, saved[1..], live, used + [live[i].handle]),
                            handles[saved[0].id := live[i].handle])
                case None => HandleMap(saved[1..], live, Assign(sim, saved[1..], live, used), handles))
  {
    hide BestLiveMatch;
    var a := Assign(sim, saved, live, used);
    match found
    case Some(i) => assert a[1..] == Assign(sim, saved[1..], live, used + [live[i].handle]);
    case None => assert a[1..] == Assign(sim, saved[1..], live, used);
  }

  /** The loop that fills the handles map. */
  method CollectHandles(sim: Similarity, saved: seq<Window>, live: seq<Window>) returns (handles: map<Bytes, nat>)
    ensures handles == HandleMap(saved, live, Assign(sim, saved, live, []), map[])
  {
    hide BestLiveMatch, Assign, HandleMap;
    handles := map[];
    var used: seq<nat> := [];
    assert saved[0..] == saved;
    for i := 0 to |saved|
      invariant HandleMap(saved, live, Assign(sim, saved, live, []), map[])
                == HandleMap(saved[i..], live, Assign(sim, saved[i..], live, used), handles)
    {
      assert saved[i..][1..] == saved[i + 1..];
      var found := FindBestLiveMatch(sim, saved[i], live, used);
      AssignStep(sim, saved[i..], live, used, found, handles);
      if found.Some? {
        handles := handles[saved[i].id := live[found.value].handle];
        used := used + [live[found.value].handle];
      }
    }
    NoMoreHandles(saved[|saved|..], live, Assign(sim, saved[|saved|..], live, used), handles);
  }

  lemma NoMoreHandles(saved: seq<Window>, live: seq<Window>, a: seq<Option<nat>>, handles: map<Bytes, nat>)
    requires saved == [] && a == []
    ensures HandleMap(saved, live, a, handles) == handles
  {
  }

  /** execute_plan */
  method ExecuteOnNull(
    p: NullPlatform, tabs: Option<Window -> Option<nat>>, sim: Similarity, snapshot: Snapshot, monitors: seq<Monitor>,
    steps: seq<Step>) returns (r: Report)
    modifies p
    ensures With(p.State(), r)
            == ExecutePlan(NullBackend(tabs), sim, snapshot, old(p.windows), monitors, steps, old(p.State()))
  {
    hide ExecuteStep, HandleMap, Assign;
    var live := p.windows;
    var handles := CollectHandles(sim, snapshot.windows, live);
    r := Report(handles, 0, 0, 0, 0, [], []);
    ghost var start := With(p.State(), r);
    assert steps[0..] == steps;
    for i := 0 to |steps|
      invariant Run(NullBackend(tabs), snapshot, monitors, steps, start)
                == Run(NullBackend(tabs), snapshot, monitors, steps[i..], With(p.State(), r))
    {
      assert steps[i..][1..] == steps[i + 1..];
      r := DoStep(p, tabs, snapshot, monitors, steps[i], r);
    }
  }

  /** restore() without its audit trail: plan against the live windows, then execute. */
  method RestoreOnNull(
    p: NullPlatform, tabs: Option<Window -> Option<nat>>, sim: Similarity, o: Options, snapshot: Snapshot,
    monitors: seq<Monitor>) returns (r: Report)
    modifies p
    ensures With(p.State(), r) == Restored(tabs, sim, o, snapshot, old(p.State()), monitors)
  {
    hide Plan, Run, Start;
    var steps := PlanRestore(sim, o, NullCapabilities(p.State()), snapshot, p.windows);
    r := ExecuteOnNull(p, tabs, sim, snapshot, monitors, steps);
  }
}
