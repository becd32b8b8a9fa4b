/** A whole restore on the in-memory window system. */
module RestoreSafety {
  import opened Base
  import opened Geometry
  import opened Desktop
  import opened Restore
  import opened RestoreMatching
  import opened RestoreSteps
  import opened RestoreLaunch

  // ---------------------------------------------------------------- the whole restore

  function Matched(sim: Similarity, snapshot: Snapshot, s: NullState): (a: seq<Option<nat>>)
    ensures |a| == |snapshot.windows|
    ensures forall k :: 0 <= k < |a| && a[k].Some? ==> a[k].value < |s.windows|
  {
    Assign(sim, snapshot.windows, s.windows, [])
  }

  function Planned(sim: Similarity, o: Options, snapshot: Snapshot, s: NullState): (a: seq<Option<nat>>)
    ensures |a| == |snapshot.windows|
  {
    Intended(sim, o, snapshot.windows, s.windows, [])
  }

  /** What waiting finds for the windows that the plan launches. */
  function Found(sim: Similarity, o: Options, snapshot: Snapshot, s: NullState): (a: seq<Option<nat>>)
    ensures |a| == |snapshot.windows|
    ensures forall k :: 0 <= k < |a| && a[k].Some? ==> a[k].value < |s.windows|
  {
    Appearing(o, snapshot.windows, Planned(sim, o, snapshot, s), s.windows, s.nextPid)
  }

  /** The live window of each saved one: matched by execution or, after a launch, found by waiting. */
  function Reached(sim: Similarity, o: Options, snapshot: Snapshot, s: NullState): (a: seq<Option<nat>>)
    ensures |a| == |snapshot.windows|
    ensures forall k :: 0 <= k < |a| && a[k].Some? ==> a[k].value < |s.windows|
  {
    var matched, found := Matched(sim, snapshot, s), Found(sim, o, snapshot, s);
    seq(|snapshot.windows|, k requires 0 <= k < |snapshot.windows| => if matched[k].Some? then matched[k] else found[k])
  }

  /** No window that waiting finds is matched with another saved one. */
  ghost predicate Apart(sim: Similarity, o: Options, snapshot: Snapshot, s: NullState) {
    var found, matched := Found(sim, o, snapshot, s), Matched(sim, snapshot, s);
    forall k, l :: 0 <= k < |found| && 0 <= l < |matched| && found[k].Some? && matched[l].Some? ==>
      s.windows[found[k].value].handle != s.windows[matched[l].value].handle
  }

  /** No saved or focused id is the key under which the pid of a launched window is kept. */
  predicate FreeKeys(o: Options, snapshot: Snapshot) {
    && OwnKeys(o, snapshot.windows)
    && (o.launch && snapshot.cursor.focusedWindow.Some? ==>
          forall w <- snapshot.windows :: snapshot.cursor.focusedWindow.value != PidKey(w.id))
  }

  /** Mutation allowed, unique ids and handles, pid keys apart from ids, sane monitors and frames. */
  ghost predicate Ready(sim: Similarity, o: Options, snapshot: Snapshot, s: NullState, monitors: seq<Monitor>) {
    && s.allowMutation && UniqueHandles(s.windows) && UniqueIds(snapshot.windows)
    && FreeKeys(o, snapshot) && Apart(sim, o, snapshot, s)
    && (forall m <- monitors :: !m.workArea.Empty())
    && (forall w <- snapshot.windows :: w.restoredFrame.width >= 0 && w.restoredFrame.height >= 0)
  }

  function PlanOnNull(sim: Similarity, o: Options, snapshot: Snapshot, s: NullState): seq<Step> {
    Plan(sim, o, NullCapabilities(s), snapshot, s.windows)
  }

  /** execute_plan(plan_restore(snapshot)) on the null platform. */
  function Restored(
    tabs: Option<Window -> Option<nat>>, sim: Similarity, o: Options, snapshot: Snapshot, s: NullState,
    monitors: seq<Monitor>): Exec<NullState>
  {
    After(tabs, snapshot, monitors, PlanOnNull(sim, o, snapshot, s), Start(sim, snapshot, s.windows, s))
  }

  // ---------------------------------------------------------------- the same restore without launching

  /** Which selected windows the plan places. */
  function Placed(sim: Similarity, o: Options, snapshot: Snapshot, s: NullState): (p: seq<bool>)
    ensures |p| == |snapshot.windows|
  {
    PlacedOf(o, snapshot.windows, Planned(sim, o, snapshot, s))
  }

  /** The selected windows in the order they are raised. */
  function Stacked(o: Options, snapshot: Snapshot): seq<Window> { SortByZ(Selected(o, snapshot.windows)) }

  function Raises(o: Options, snapshot: Snapshot, s: NullState): seq<Step> {
    if o.zOrder then RaiseSteps(NullCapabilities(s), Stacked(o, snapshot)) else []
  }

  /** The plan without the steps that launch and wait. */
  function Quieted(sim: Similarity, o: Options, snapshot: Snapshot, s: NullState): seq<Step> {
    Placings(o, NullCapabilities(s), snapshot.windows, Placed(sim, o, snapshot, s))
    + Raises(o, snapshot, s) + ClosingSteps(o, NullCapabilities(s), snapshot.cursor)
  }

  /** The start of a run that has every handle already. */
  function Begun(sim: Similarity, o: Options, snapshot: Snapshot, s: NullState): Exec<NullState> {
    var handles := HandleMap(snapshot.windows, s.windows, Reached(sim, o, snapshot, s), map[]);
    Start(sim, snapshot, s.windows, s).(handles := handles)
  }

  function Settled(
    tabs: Option<Window -> Option<nat>>, sim: Similarity, o: Options, snapshot: Snapshot, s: NullState,
    monitors: seq<Monitor>): Exec<NullState>
  {
    After(tabs, snapshot, monitors, Quieted(sim, o, snapshot, s), Begun(sim, o, snapshot, s))
  }

  lemma PlanIs(sim: Similarity, o: Options, snapshot: Snapshot, s: NullState)
    ensures PlanOnNull(sim, o, snapshot, s)
            == Blocks(o, NullCapabilities(s), snapshot.windows, Planned(sim, o, snapshot, s))
               + Raises(o, snapshot, s) + ClosingSteps(o, NullCapabilities(s), snapshot.cursor)
  {
    hide PlanWindows, Intended, SortByZ, Selected, RaiseSteps, ClosingSteps;
    PlanIsBlocks(sim, o, NullCapabilities(s), snapshot.windows, s.windows, []);
  }

  lemma ReachedAt(sim: Similarity, o: Options, snapshot: Snapshot, s: NullState, k: nat)
    requires k < |snapshot.windows|
    ensures var m, f := Matched(sim, snapshot, s)[k], Found(sim, o, snapshot, s)[k];
            Reached(sim, o, snapshot, s)[k] == if m.Some? then m else f
  {
    hide Matched, Found;
  }

  /** Only launched windows are found by waiting, and execution has matched none of those. */
  lemma LaunchedOrMatched(sim: Similarity, o: Options, snapshot: Snapshot, s: NullState, k: nat)
    requires k < |snapshot.windows|
    ensures var w, p := snapshot.windows[k], Planned(sim, o, snapshot, s)[k];
            && (Launches(o, w, p) ==> Matched(sim, snapshot, s)[k].None?)
            && (!Launches(o, w, p) ==> Found(sim, o, snapshot, s)[k].None?)
            && (o.selected(w) && Matched(sim, snapshot, s)[k].Some? ==> p.Some?)
  {
    var planned := Planned(sim, o, snapshot, s);
    if o.selected(snapshot.windows[k]) && Matched(sim, snapshot, s)[k].Some? {
      hide Assign, Intended;
      MatchedIsIntended(sim, o, snapshot.windows, s.windows, [], [], k);
    }
    if Found(sim, o, snapshot, s)[k].Some? {
      hide Planned;
      AppearingIsNew(o, snapshot.windows, planned, s.windows, s.nextPid, k);
    }
  }

  lemma ReachedDistinct(sim: Similarity, o: Options, snapshot: Snapshot, s: NullState)
    requires Apart(sim, o, snapshot, s) && UniqueHandles(s.windows)
    ensures Distinct(Reached(sim, o, snapshot, s), s.windows, [])
  {
    var a, matched, found := Reached(sim, o, snapshot, s), Matched(sim, snapshot, s), Found(sim, o, snapshot, s);
    AssignAvoids(sim, snapshot.windows, s.windows, []);
    forall k, l | 0 <= k < l < |a| && a[k].Some? && a[l].Some?
      ensures s.windows[a[k].value].handle != s.windows[a[l].value].handle
    {
      FoundDiffers(sim, o, snapshot, s, k, l);
      hide Matched, Found, UniqueHandles;
    }
  }

  lemma FoundDiffers(sim: Similarity, o: Options, snapshot: Snapshot, s: NullState, k: nat, l: nat)
    requires UniqueHandles(s.windows) && k < l < |snapshot.windows|
    ensures var f := Found(sim, o, snapshot, s);
            f[k].Some? && f[l].Some? ==> s.windows[f[k].value].handle != s.windows[f[l].value].handle
  {
    hide Planned, Appearing, Appears;
    var f := Found(sim, o, snapshot, s);
    if f[k].Some? && f[l].Some? {
      AppearingDiffers(o, snapshot.windows, Planned(sim, o, snapshot, s), s.windows, s.nextPid, k, l);
      assert f[k] != f[l];
      DifferentHandles(s.windows, f[k].value, f[l].value);
    }
  }

  lemma BegunMaps(sim: Similarity, o: Options, snapshot: Snapshot, s: NullState)
    requires UniqueIds(snapshot.windows) && UniqueHandles(s.windows) && Apart(sim, o, snapshot, s)
    ensures var a, handles := Reached(sim, o, snapshot, s), Begun(sim, o, snapshot, s).handles;
            Maps(snapshot.windows, s.windows, a, handles) && OneToOneMap(handles)
  {
    var a := Reached(sim, o, snapshot, s);
    ReachedDistinct(sim, o, snapshot, s);
    HandleMapIs(snapshot.windows, s.windows, a, map[]);
    hide Reached, Start, HandleMap, Distinct;
    MapIsOneToOne(snapshot.windows, s.windows, a, Begun(sim, o, snapshot, s).handles);
  }

  /** Before the blocks run every handle is there or due. */
  lemma HandlesDue(sim: Similarity, o: Options, snapshot: Snapshot, s: NullState, got: map<Bytes, nat>, whole: map<Bytes, nat>)
    requires UniqueIds(snapshot.windows)
    requires Maps(snapshot.windows, s.windows, Matched(sim, snapshot, s), got)
    requires Maps(snapshot.windows, s.windows, Reached(sim, o, snapshot, s), whole)
    ensures AllDue(o, snapshot.windows, Planned(sim, o, snapshot, s), Found(sim, o, snapshot, s), s.windows, got, whole)
  {
    hide Matched, Reached, Planned, Found, Launches, UniqueIds, Maps;
    forall k | 0 <= k < |snapshot.windows|
      ensures Due(o, snapshot.windows[k], Planned(sim, o, snapshot, s)[k], Found(sim, o, snapshot, s)[k], s.windows, got, whole)
    {
      LaunchedOrMatched(sim, o, snapshot, s, k);
      ReachedAt(sim, o, snapshot, s, k);
      MapsAt(snapshot.windows, s.windows, Matched(sim, snapshot, s), got, k);
      MapsAt(snapshot.windows, s.windows, Reached(sim, o, snapshot, s), whole, k);
    }
  }

  lemma MapsAt(saved: seq<Window>, live: seq<Window>, a: seq<Option<nat>>, handles: map<Bytes, nat>, k: nat)
    requires UniqueIds(saved) && k < |saved| && Maps(saved, live, a, handles)
    ensures |a| == |saved| && (saved[k].id in handles <==> a[k].Some?)
    ensures a[k].Some? ==> a[k].value < |live| && handles[saved[k].id] == live[a[k].value].handle
  {
    if saved[k].id in handles {
      var m :| 0 <= m < |a| && a[m].Some? && saved[m].id == saved[k].id;
      assert m == k;
    }
  }

  lemma NotMapped(saved: seq<Window>, live: seq<Window>, a: seq<Option<nat>>, handles: map<Bytes, nat>, id: Bytes)
    requires Maps(saved, live, a, handles) && forall w <- saved :: w.id != id
    ensures id !in handles
  {
    assert forall k :: 0 <= k < |saved| ==> saved[k] in saved;
  }

  lemma {:induction false} FindById(ws: seq<Window>, k: nat)
    requires UniqueIds(ws) && k < |ws|
    ensures FindWindow(ws, ws[k].id) == Some(ws[k])
    decreases |ws|
  {
    if k > 0 {
      assert ws[0].id != ws[k].id;
      assert ws[1..][k - 1] == ws[k];
      FindById(ws[1..], k - 1);
    }
  }

  lemma AllKnown(snapshot: Snapshot)
    requires UniqueIds(snapshot.windows)
    ensures Known(snapshot, snapshot.windows)
  {
    hide FindWindow, UniqueIds;
    forall w <- snapshot.windows
      ensures FindWindow(snapshot.windows, w.id) == Some(w)
    {
      var k :| 0 <= k < |snapshot.windows| && snapshot.windows[k] == w;
      FindById(snapshot.windows, k);
    }
  }

  /** After the blocks, a raise or the focus finds the same handle in both runs. */
  lemma TailTargets(
    o: Options, snapshot: Snapshot, s: NullState, start: map<Bytes, nat>, last: map<Bytes, nat>, whole: map<Bytes, nat>, t: Step)
    requires FreeKeys(o, snapshot) && t in Raises(o, snapshot, s) + ClosingSteps(o, NullCapabilities(s), snapshot.cursor)
    requires forall w <- snapshot.windows :: SameHandle(last, whole, w.id)
    requires forall id :: AllForeign(o, snapshot.windows, id) ==> SameHandle(last, start, id)
    requires forall id | forall w <- snapshot.windows :: w.id != id :: id !in start && id !in whole
    ensures Quiet(t) && SameTarget(t, last, whole)
  {
    hide PidKey;
    if t in Raises(o, snapshot, s) {
      var l := RaisedWindow(o, snapshot, s, t);
      assert snapshot.windows[l] in snapshot.windows;
    } else if t.kind == FocusWindow {
      var id := snapshot.cursor.focusedWindow.value;
      assert t.target == id;
      if w :| w in snapshot.windows && w.id == id {
      } else {
        assert AllForeign(o, snapshot.windows, id);
      }
    }
  }

  /** A raise is that of a selected window. */
  lemma RaisedWindow(o: Options, snapshot: Snapshot, s: NullState, t: Step) returns (l: nat)
    requires t in Raises(o, snapshot, s)
    ensures t.kind == RaiseWindow
    ensures l < |snapshot.windows| && o.selected(snapshot.windows[l]) && snapshot.windows[l].id == t.target
  {
    var ws := Stacked(o, snapshot);
    SortSorts(Selected(o, snapshot.windows));
    var p :| 0 <= p < |Raises(o, snapshot, s)| && Raises(o, snapshot, s)[p] == t;
    hide SortByZ, SortedByZ;
    assert ws[p] in ws;
    SelectedAre(o, snapshot.windows);
    l :| 0 <= l < |snapshot.windows| && snapshot.windows[l] == ws[p];
  }

  lemma StartFacts(sim: Similarity, o: Options, snapshot: Snapshot, s: NullState)
    ensures var x, q := Start(sim, snapshot, s.windows, s), Begun(sim, o, snapshot, s);
            Beside(x, q, 0, 0) && q.state == s && SameFaces(s, s) && q.restored == 0 && q.failed == 0 && q.launched == 0
            && q.errors == [] && q.warnings == []
  {
    hide HandleMap, Assign, Reached;
  }

  lemma ReadyParts(sim: Similarity, o: Options, snapshot: Snapshot, s: NullState, monitors: seq<Monitor>)
    requires Ready(sim, o, snapshot, s, monitors)
    ensures s.allowMutation && NullCapabilities(s) == Capabilities(true, true, true, true, true, true, true)
    ensures UniqueHandles(s.windows) && UniqueIds(snapshot.windows)
    ensures FreeKeys(o, snapshot) && OwnKeys(o, snapshot.windows) && Apart(sim, o, snapshot, s)
  {
  }

  lemma MatchedIs(sim: Similarity, snapshot: Snapshot, s: NullState)
    ensures Matched(sim, snapshot, s) == Assign(sim, snapshot.windows, s.windows, [])
  {
  }

  lemma FoundIs(sim: Similarity, o: Options, snapshot: Snapshot, s: NullState)
    ensures var saved, planned := snapshot.windows, Planned(sim, o, snapshot, s);
            && Found(sim, o, snapshot, s) == Appearing(o, saved, planned, s.windows, s.nextPid + 0)
            && Placed(sim, o, snapshot, s) == PlacedOf(o, saved, planned)
            && Launched(sim, o, snapshot, s) == 0 + CountLaunches(o, saved, planned)
            && Missing(sim, o, snapshot, s) == 0 + CountMissing(o, saved, planned, Found(sim, o, snapshot, s))
  {
    hide Planned, Appearing, PlacedOf, CountLaunches, CountMissing;
  }

  /** Both runs: the blocks first, then raises and closing steps. */
  lemma RunParts(
    tabs: Option<Window -> Option<nat>>, sim: Similarity, o: Options, snapshot: Snapshot, s: NullState,
    monitors: seq<Monitor>)
    ensures var c, tail := NullCapabilities(s), Raises(o, snapshot, s) + ClosingSteps(o, NullCapabilities(s), snapshot.cursor);
            && Restored(tabs, sim, o, snapshot, s, monitors)
               == After(tabs, snapshot, monitors, tail,
                        After(tabs, snapshot, monitors, Blocks(o, c, snapshot.windows, Planned(sim, o, snapshot, s)),
                              Start(sim, snapshot, s.windows, s)))
            && Settled(tabs, sim, o, snapshot, s, monitors)
               == After(tabs, snapshot, monitors, tail,
                        After(tabs, snapshot, monitors, Placings(o, c, snapshot.windows, Placed(sim, o, snapshot, s)),
                              Begun(sim, o, snapshot, s)))
  {
    PlanIs(sim, o, snapshot, s);
    hide PlanOnNull, Raises, ClosingSteps, Planned, Placed, Blocks, Placings, Start, Begun, After;
    var c, raises, closing := NullCapabilities(s), Raises(o, snapshot, s), ClosingSteps(o, NullCapabilities(s), snapshot.cursor);
    var blocks, calm := Blocks(o, c, snapshot.windows, Planned(sim, o, snapshot, s)),
                        Placings(o, c, snapshot.windows, Placed(sim, o, snapshot, s));
    Assoc(blocks, raises, closing);
    Assoc(calm, raises, closing);
    RunAppend(tabs, snapshot, monitors, blocks, raises + closing, Start(sim, snapshot, s.windows, s));
    RunAppend(tabs, snapshot, monitors, calm, raises + closing, Begun(sim, o, snapshot, s));
  }

  function Launched(sim: Similarity, o: Options, snapshot: Snapshot, s: NullState): nat {
    CountLaunches(o, snapshot.windows, Planned(sim, o, snapshot, s))
  }

  /** How many launched applications show no window. */
  function Missing(sim: Similarity, o: Options, snapshot: Snapshot, s: NullState): nat {
    CountMissing(o, snapshot.windows, Planned(sim, o, snapshot, s), Found(sim, o, snapshot, s))
  }

  /** The restore runs beside the one that launches nothing and has the found windows from the start. */
  lemma RestoredBesideSettled(
    tabs: Option<Window -> Option<nat>>, sim: Similarity, o: Options, snapshot: Snapshot, s: NullState,
    monitors: seq<Monitor>)
    requires Ready(sim, o, snapshot, s, monitors)
    ensures Beside(Restored(tabs, sim, o, snapshot, s, monitors), Settled(tabs, sim, o, snapshot, s, monitors),
                   Launched(sim, o, snapshot, s), Missing(sim, o, snapshot, s))
  {
    hide *;
    var c, saved, x, q := NullCapabilities(s), snapshot.windows, Start(sim, snapshot, s.windows, s), Begun(sim, o, snapshot, s);
    var planned := Planned(sim, o, snapshot, s);
    ReadyParts(sim, o, snapshot, s, monitors);
    StartMaps(sim, snapshot, s);
    MatchedIs(sim, snapshot, s);
    BegunMaps(sim, o, snapshot, s);
    HandlesDue(sim, o, snapshot, s, x.handles, q.handles);
    FoundIs(sim, o, snapshot, s);
    AllKnown(snapshot);
    StartFacts(sim, o, snapshot, s);
    BlocksBeside(tabs, snapshot, monitors, o, c, saved, planned, s, x, q, 0, 0);
    var y := After(tabs, snapshot, monitors, Blocks(o, c, saved, planned), x);
    var p := After(tabs, snapshot, monitors, Placings(o, c, saved, Placed(sim, o, snapshot, s)), q);
    var tail := Raises(o, snapshot, s) + ClosingSteps(o, c, snapshot.cursor);
    forall t <- tail
      ensures Quiet(t) && SameTarget(t, y.handles, q.handles)
    {
      forall id | forall w <- saved :: w.id != id
        ensures id !in x.handles && id !in q.handles
      {
        NotMapped(saved, s.windows, Matched(sim, snapshot, s), x.handles, id);
        NotMapped(saved, s.windows, Reached(sim, o, snapshot, s), q.handles, id);
      }
      TailTargets(o, snapshot, s, x.handles, y.handles, q.handles, t);
    }
    RunBeside(tabs, snapshot, monitors, tail, y, p, Launched(sim, o, snapshot, s), Missing(sim, o, snapshot, s));
    RunParts(tabs, sim, o, snapshot, s, monitors);
  }

  lemma PlacingHolds(o: Options, c: Capabilities, w: Window, placed: bool, target: Bytes)
    requires c.geometry && c.state && c.desktops
    ensures var steps, hit := Placing(o, c, w, placed), placed && o.selected(w) && target == w.id;
            && (forall s <- steps :: Quiet(s) && s.kind != RaiseWindow && s.target == w.id && o.selected(w))
            && (Step(MoveWindow, target, false) in steps <==> hit)
            && (Step(SetWindowState, target, false) in steps <==> hit && w.state != Normal)
            && (Step(SetWorkspace, target, false) in steps <==> hit && o.workspaces && w.workspace.Some?)
  {
  }

  predicate TailStep(s: Step) { s.kind == RaiseWindow || s.kind == WarpCursor || s.kind == FocusWindow }

  lemma TailSteps(o: Options, snapshot: Snapshot, s: NullState)
    ensures forall t <- Raises(o, snapshot, s) :: TailStep(t)
    ensures forall t <- ClosingSteps(o, NullCapabilities(s), snapshot.cursor) :: TailStep(t) && t.kind != RaiseWindow
  {
  }

  lemma QuietedIs(sim: Similarity, o: Options, snapshot: Snapshot, s: NullState)
    ensures Quieted(sim, o, snapshot, s)
            == Placings(o, NullCapabilities(s), snapshot.windows, Placed(sim, o, snapshot, s))
               + Raises(o, snapshot, s) + ClosingSteps(o, NullCapabilities(s), snapshot.cursor)
  {
    hide Placings, Placed, Raises, ClosingSteps;
  }

  lemma PlacedAt(sim: Similarity, o: Options, snapshot: Snapshot, s: NullState, k: nat)
    requires k < |snapshot.windows|
    ensures Placed(sim, o, snapshot, s)[k] <==> Planned(sim, o, snapshot, s)[k].Some? || o.launch
  {
    hide Planned;
  }

  /** Which steps of the plan concern saved window `k`. */
  lemma PlanHolds(sim: Similarity, o: Options, snapshot: Snapshot, s: NullState, monitors: seq<Monitor>, k: nat)
    requires Ready(sim, o, snapshot, s, monitors) && k < |snapshot.windows| && o.selected(snapshot.windows[k])
    ensures var w, m, plan := snapshot.windows[k], Placed(sim, o, snapshot, s)[k], Quieted(sim, o, snapshot, s);
            && (Step(MoveWindow, w.id, false) in plan <==> m)
            && (Step(SetWindowState, w.id, false) in plan <==> m && w.state != Normal)
            && (Step(SetWorkspace, w.id, false) in plan <==> m && o.workspaces && w.workspace.Some?)
  {
    hide *;
    ReadyParts(sim, o, snapshot, s, monitors);
    QuietedIs(sim, o, snapshot, s);
    TailSteps(o, snapshot, s);
    var w := snapshot.windows[k];
    InPlacings(sim, o, snapshot, s, monitors, k, Step(MoveWindow, w.id, false));
    InPlacings(sim, o, snapshot, s, monitors, k, Step(SetWindowState, w.id, false));
    InPlacings(sim, o, snapshot, s, monitors, k, Step(SetWorkspace, w.id, false));
    PlacingHolds(o, NullCapabilities(s), w, Placed(sim, o, snapshot, s)[k], w.id);
    NoTail(w.id);
  }

  lemma NoTail(id: Bytes)
    ensures !TailStep(Step(MoveWindow, id, false)) && !TailStep(Step(SetWindowState, id, false))
    ensures !TailStep(Step(SetWorkspace, id, false))
  {
  }

  /** A step with the id of window `k` comes from the block of window `k`. */
  lemma InPlacings(sim: Similarity, o: Options, snapshot: Snapshot, s: NullState, monitors: seq<Monitor>, k: nat, t: Step)
    requires Ready(sim, o, snapshot, s, monitors) && k < |snapshot.windows| && t.target == snapshot.windows[k].id
    ensures var c, p := NullCapabilities(s), Placed(sim, o, snapshot, s);
            t in Placings(o, c, snapshot.windows, p) <==> t in Placing(o, c, snapshot.windows[k], p[k])
  {
    hide Placings, Placing, Planned, Apart, FreeKeys;
    var c, p := NullCapabilities(s), Placed(sim, o, snapshot, s);
    PlacingMember(o, c, snapshot.windows, p, t);
    if t in Placings(o, c, snapshot.windows, p) {
      var l :| 0 <= l < |snapshot.windows| && t in Placing(o, c, snapshot.windows[l], p[l]);
      PlacingHolds(o, c, snapshot.windows[l], p[l], t.target);
    }
  }

  lemma PlacingsAreQuiet(o: Options, c: Capabilities, saved: seq<Window>, p: seq<bool>, s: Step)
    requires |p| == |saved| && c.geometry && c.state && c.desktops && s in Placings(o, c, saved, p)
    ensures Quiet(s) && s.kind != RaiseWindow
    ensures exists k :: 0 <= k < |saved| && o.selected(saved[k]) && saved[k].id == s.target
  {
    hide Placing, Placings;
    PlacingMember(o, c, saved, p, s);
    var k :| 0 <= k < |saved| && s in Placing(o, c, saved[k], p[k]);
    PlacingHolds(o, c, saved[k], p[k], s.target);
    assert o.selected(saved[k]) && saved[k].id == s.target;
  }

  lemma PlanIsQuiet(sim: Similarity, o: Options, snapshot: Snapshot, s: NullState, monitors: seq<Monitor>)
    requires Ready(sim, o, snapshot, s, monitors)
    ensures AllQuiet(Quieted(sim, o, snapshot, s))
  {
    ReadyParts(sim, o, snapshot, s, monitors);
    QuietedIs(sim, o, snapshot, s);
    TailSteps(o, snapshot, s);
    hide Raises, ClosingSteps, Placings, Placed, Quieted, Ready;
    forall t <- Quieted(sim, o, snapshot, s)
      ensures Quiet(t)
    {
      if t in Placings(o, NullCapabilities(s), snapshot.windows, Placed(sim, o, snapshot, s)) {
        PlacingsAreQuiet(o, NullCapabilities(s), snapshot.windows, Placed(sim, o, snapshot, s), t);
      }
    }
  }

  lemma BegunIsSteady(sim: Similarity, o: Options, snapshot: Snapshot, s: NullState)
    requires s.allowMutation
    ensures var x := Begun(sim, o, snapshot, s); Steady(x, s.windows, x.handles) && x.state == s
  {
    hide HandleMap, Assign, Reached;
  }

  /** Saved window `k` is selected and there is a live window for it. */
  predicate Driven(sim: Similarity, o: Options, snapshot: Snapshot, s: NullState, k: nat) {
    k < |snapshot.windows| && o.selected(snapshot.windows[k]) && Reached(sim, o, snapshot, s)[k].Some?
  }

  /** Live window `i` is that of no selected saved window. */
  predicate Undriven(sim: Similarity, o: Options, snapshot: Snapshot, s: NullState, i: nat) {
    forall k: nat | k < |snapshot.windows| && Driven(sim, o, snapshot, s, k) :: Reached(sim, o, snapshot, s)[k] != Some(i)
  }

  lemma NotReachedFor(sim: Similarity, o: Options, snapshot: Snapshot, s: NullState, i: nat, k: nat)
    requires Undriven(sim, o, snapshot, s, i) && k < |snapshot.windows| && o.selected(snapshot.windows[k])
    ensures Reached(sim, o, snapshot, s)[k] != Some(i)
  {
    hide Reached;
    assert Driven(sim, o, snapshot, s, k) <==> Reached(sim, o, snapshot, s)[k].Some?;
  }

  lemma SelectedPlaced(sim: Similarity, o: Options, snapshot: Snapshot, s: NullState, k: nat)
    requires k < |snapshot.windows| && Driven(sim, o, snapshot, s, k)
    ensures Placed(sim, o, snapshot, s)[k]
  {
    LaunchedOrMatched(sim, o, snapshot, s, k);
    ReachedAt(sim, o, snapshot, s, k);
    PlacedAt(sim, o, snapshot, s, k);
    hide Matched, Planned, Found, Placed, Reached;
  }

  /** The facts that every part of the main result starts from. */
  lemma Setup(
    tabs: Option<Window -> Option<nat>>, sim: Similarity, o: Options, snapshot: Snapshot, s: NullState,
    monitors: seq<Monitor>)
    requires Ready(sim, o, snapshot, s, monitors)
    ensures UniqueHandles(s.windows) && UniqueIds(snapshot.windows)
    ensures var x, plan := Begun(sim, o, snapshot, s), Quieted(sim, o, snapshot, s);
            && Maps(snapshot.windows, s.windows, Reached(sim, o, snapshot, s), x.handles) && OneToOneMap(x.handles)
            && Steady(x, s.windows, x.handles) && AllQuiet(plan) && x.state == s
            && Settled(tabs, sim, o, snapshot, s, monitors) == After(tabs, snapshot, monitors, plan, x)
            && SamePlaces(s.windows, Settled(tabs, sim, o, snapshot, s, monitors).state.windows)
            && Restored(tabs, sim, o, snapshot, s, monitors).state.windows
               == Settled(tabs, sim, o, snapshot, s, monitors).state.windows
  {
    hide *;
    ReadyParts(sim, o, snapshot, s, monitors);
    BegunMaps(sim, o, snapshot, s);
    BegunIsSteady(sim, o, snapshot, s);
    PlanIsQuiet(sim, o, snapshot, s, monitors);
    RestoredBesideSettled(tabs, sim, o, snapshot, s, monitors);
    BesideWindows(Restored(tabs, sim, o, snapshot, s, monitors), Settled(tabs, sim, o, snapshot, s, monitors),
                  Launched(sim, o, snapshot, s), Missing(sim, o, snapshot, s));
    SettledIs(tabs, sim, o, snapshot, s, monitors);
    var x := Begun(sim, o, snapshot, s);
    RunIsSteady(tabs, snapshot, monitors, Quieted(sim, o, snapshot, s), x, s.windows, x.handles);
    SteadyPlaces(Settled(tabs, sim, o, snapshot, s, monitors), s.windows, x.handles);
  }

  lemma BesideWindows(x: Exec<NullState>, q: Exec<NullState>, late: nat, missing: nat)
    requires Beside(x, q, late, missing)
    ensures x.state.windows == q.state.windows
  {
  }

  lemma SteadyPlaces(x: Exec<NullState>, live: seq<Window>, handles: map<Bytes, nat>)
    requires Steady(x, live, handles)
    ensures SamePlaces(live, x.state.windows)
  {
  }

  lemma SettledIs(
    tabs: Option<Window -> Option<nat>>, sim: Similarity, o: Options, snapshot: Snapshot, s: NullState,
    monitors: seq<Monitor>)
    ensures Settled(tabs, sim, o, snapshot, s, monitors)
            == After(tabs, snapshot, monitors, Quieted(sim, o, snapshot, s), Begun(sim, o, snapshot, s))
  {
    hide After, Quieted, Begun;
  }

  lemma RaisesAre(o: Options, snapshot: Snapshot, s: NullState)
    requires o.zOrder
    ensures Raises(o, snapshot, s) == RaiseSteps(NullCapabilities(s), Stacked(o, snapshot))
  {
  }

  /**
   * Every selected saved window that has a live one puts it on its clamped saved frame and workspace, and
   * into its saved state unless that is Normal.
   */
  lemma MatchedWindowsLand(
    tabs: Option<Window -> Option<nat>>, sim: Similarity, o: Options, snapshot: Snapshot, s: NullState,
    monitors: seq<Monitor>, k: nat)
    requires Ready(sim, o, snapshot, s, monitors) && Driven(sim, o, snapshot, s, k)
    ensures var i, saved := Reached(sim, o, snapshot, s)[k].value, snapshot.windows[k];
            var after := Restored(tabs, sim, o, snapshot, s, monitors).state.windows;
            && i < |after| == |s.windows| && after[i].handle == s.windows[i].handle
            && after[i].frame == after[i].restoredFrame == ClampToMonitors(saved.restoredFrame, monitors)
            && (monitors != [] ==> exists m <- monitors :: Inside(after[i].frame, m.workArea))
            && after[i].state == (if saved.state != Normal then saved.state else s.windows[i].state)
            && after[i].workspace == (if o.workspaces && saved.workspace.Some? then saved.workspace
                                      else s.windows[i].workspace)
  {
    hide *;
    DrivenParts(sim, o, snapshot, s, k);
    var i, saved, x := Reached(sim, o, snapshot, s)[k].value, snapshot.windows[k], Begun(sim, o, snapshot, s);
    var plan, after := Quieted(sim, o, snapshot, s), Settled(tabs, sim, o, snapshot, s, monitors).state.windows;
    Setup(tabs, sim, o, snapshot, s, monitors);
    MapsAt(snapshot.windows, s.windows, Reached(sim, o, snapshot, s), x.handles, k);
    SelectedPlaced(sim, o, snapshot, s, k);
    PlanHolds(sim, o, snapshot, s, monitors, k);
    FindById(snapshot.windows, k);
    if monitors != [] {
      FitsMonitor(sim, o, snapshot, s, monitors, k);
    }
    RunOnWindow(tabs, snapshot, monitors, plan, x, s.windows, x.handles, i, saved.id, saved);
    Landed(monitors, plan, o, saved, s.windows[i], after[i]);
    SamePlace(s.windows, after, i);
  }

  lemma FitsMonitor(sim: Similarity, o: Options, snapshot: Snapshot, s: NullState, monitors: seq<Monitor>, k: nat)
    requires Ready(sim, o, snapshot, s, monitors) && k < |snapshot.windows| && monitors != []
    ensures exists m <- monitors :: Inside(ClampToMonitors(snapshot.windows[k].restoredFrame, monitors), m.workArea)
  {
    hide Apart, FreeKeys, Inside, ClampToMonitors;
    assert snapshot.windows[k] in snapshot.windows;
    ClampedToMonitor(snapshot.windows[k].restoredFrame, monitors);
  }

  lemma Landed(monitors: seq<Monitor>, plan: seq<Step>, o: Options, saved: Window, w: Window, v: Window)
    requires RunEffect(monitors, plan, saved.id, saved, w, v)
    requires Step(MoveWindow, saved.id, false) in plan
    requires Step(SetWindowState, saved.id, false) in plan <==> saved.state != Normal
    requires Step(SetWorkspace, saved.id, false) in plan <==> o.workspaces && saved.workspace.Some?
    ensures v.frame == v.restoredFrame == ClampToMonitors(saved.restoredFrame, monitors)
    ensures v.state == if saved.state != Normal then saved.state else w.state
    ensures v.workspace == if o.workspaces && saved.workspace.Some? then saved.workspace else w.workspace
  {
    hide ClampToMonitors;
  }

  lemma SamePlace(a: seq<Window>, b: seq<Window>, i: nat)
    requires SamePlaces(a, b) && i < |a|
    ensures |a| == |b| && b[i].handle == a[i].handle
  {
  }

  /** The saved state comes back exactly when it is not Normal or the live window is Normal already. */
  lemma NormalStateIsNotRestored(
    tabs: Option<Window -> Option<nat>>, sim: Similarity, o: Options, snapshot: Snapshot, s: NullState,
    monitors: seq<Monitor>, k: nat)
    requires Ready(sim, o, snapshot, s, monitors) && Driven(sim, o, snapshot, s, k)
    ensures var i, saved := Reached(sim, o, snapshot, s)[k].value, snapshot.windows[k];
            var after := Restored(tabs, sim, o, snapshot, s, monitors).state.windows;
            && i < |after| == |s.windows|
            && (after[i].state == saved.state <==> saved.state != Normal || s.windows[i].state == Normal)
  {
    hide *;
    MatchedWindowsLand(tabs, sim, o, snapshot, s, monitors, k);
  }

  /** A step that drives a live window has the id of the saved window matched with it. */
  lemma DriverOf(
    saved: seq<Window>, live: seq<Window>, a: seq<Option<nat>>, handles: map<Bytes, nat>, id: Bytes, i: nat, l: nat)
    requires Maps(saved, live, a, handles) && UniqueHandles(live) && UniqueIds(saved)
    requires i < |live| && l < |saved| && saved[l].id == id && id in handles && handles[id] == live[i].handle
    ensures a[l] == Some(i)
  {
    var m :| 0 <= m < |a| && a[m].Some? && saved[m].id == id;
    assert m == l;
  }

  /** No step of the plan places or raises a live window that no selected window was matched with. */
  lemma PlanSpares(sim: Similarity, o: Options, snapshot: Snapshot, s: NullState, monitors: seq<Monitor>, i: nat, t: Step)
    requires Ready(sim, o, snapshot, s, monitors) && i < |s.windows|
    requires Undriven(sim, o, snapshot, s, i)
    requires t in Quieted(sim, o, snapshot, s)
    ensures Spares(t, Begun(sim, o, snapshot, s).handles, s.windows[i].handle)
  {
    hide *;
    var c, p, handles := NullCapabilities(s), Placed(sim, o, snapshot, s), Begun(sim, o, snapshot, s).handles;
    ReadyParts(sim, o, snapshot, s, monitors);
    BegunMaps(sim, o, snapshot, s);
    QuietedIs(sim, o, snapshot, s);
    TailSteps(o, snapshot, s);
    if t.target in handles && handles[t.target] == s.windows[i].handle {
      if t in Placings(o, c, snapshot.windows, p) {
        PlacingsAreQuiet(o, c, snapshot.windows, p, t);
        var l :| 0 <= l < |snapshot.windows| && o.selected(snapshot.windows[l]) && snapshot.windows[l].id == t.target;
        NotReachedFor(sim, o, snapshot, s, i, l);
        DriverOf(snapshot.windows, s.windows, Reached(sim, o, snapshot, s), handles, t.target, i, l);
      } else if t in Raises(o, snapshot, s) {
        var l := RaisedWindow(o, snapshot, s, t);
        NotReachedFor(sim, o, snapshot, s, i, l);
        DriverOf(snapshot.windows, s.windows, Reached(sim, o, snapshot, s), handles, t.target, i, l);
      } else {
        ClosingSpares(o, c, snapshot.cursor, handles, s.windows[i].handle, t);
      }
    } else {
      OthersSpare(t, handles, s.windows[i].handle);
    }
  }

  lemma ClosingSpares(o: Options, c: Capabilities, cursor: Cursor, handles: map<Bytes, nat>, h: nat, t: Step)
    requires t in ClosingSteps(o, c, cursor)
    ensures Spares(t, handles, h)
  {
  }

  lemma OthersSpare(t: Step, handles: map<Bytes, nat>, h: nat)
    requires !(t.target in handles && handles[t.target] == h)
    ensures Spares(t, handles, h)
  {
  }

  lemma {:induction false} SelectedAre(o: Options, saved: seq<Window>)
    ensures forall w :: w in Selected(o, saved) <==> w in saved && o.selected(w)
    decreases |saved|
  {
    if saved != [] {
      SelectedAre(o, saved[1..]);
      assert saved == [saved[0]] + saved[1..];
    }
  }

  /** A live window that no selected window was matched with keeps its frame, state, workspace and z. */
  lemma UnmatchedWindowsStay(
    tabs: Option<Window -> Option<nat>>, sim: Similarity, o: Options, snapshot: Snapshot, s: NullState,
    monitors: seq<Monitor>, i: nat)
    requires Ready(sim, o, snapshot, s, monitors) && i < |s.windows|
    requires Undriven(sim, o, snapshot, s, i)
    ensures var after := Restored(tabs, sim, o, snapshot, s, monitors).state.windows;
            i < |after| && SamePlacement(s.windows[i], after[i])
  {
    hide *;
    var x, plan := Begun(sim, o, snapshot, s), Quieted(sim, o, snapshot, s);
    Setup(tabs, sim, o, snapshot, s, monitors);
    forall t <- plan
      ensures Spares(t, x.handles, s.windows[i].handle)
    {
      PlanSpares(sim, o, snapshot, s, monitors, i, t);
    }
    RunMisses(tabs, snapshot, monitors, plan, x, s.windows, x.handles, i);
  }

  lemma NothingRanked(handles: map<Bytes, nat>, ws: seq<Window>)
    ensures Ranked([], handles, ws)
  {
  }

  lemma SortedHasOneZ(o: Options, snapshot: Snapshot)
    requires UniqueIds(snapshot.windows)
    ensures SortedByZ(Stacked(o, snapshot)) && OneZ(Stacked(o, snapshot))
  {
    var saved := snapshot.windows;
    SortSorts(Selected(o, saved));
    SelectedAre(o, saved);
    hide SortByZ, SortedByZ, Selected;
    forall v <- Stacked(o, snapshot), w <- Stacked(o, snapshot) | v.id == w.id
      ensures v.zOrder == w.zOrder
    {
      var p :| 0 <= p < |saved| && saved[p] == v;
      var q :| 0 <= q < |saved| && saved[q] == w;
    }
  }

  /** After the plan the raised windows are ranked by the saved numbers. */
  lemma PlanRanks(
    tabs: Option<Window -> Option<nat>>, sim: Similarity, o: Options, snapshot: Snapshot, s: NullState,
    monitors: seq<Monitor>)
    requires Ready(sim, o, snapshot, s, monitors) && o.zOrder
    ensures Ranked(Stacked(o, snapshot), Begun(sim, o, snapshot, s).handles,
                   Settled(tabs, sim, o, snapshot, s, monitors).state.windows)
  {
    hide *;
    var c, x := NullCapabilities(s), Begun(sim, o, snapshot, s);
    ReadyParts(sim, o, snapshot, s, monitors);
    Setup(tabs, sim, o, snapshot, s, monitors);
    var blocks := Placings(o, c, snapshot.windows, Placed(sim, o, snapshot, s));
    var raises, closing, sorted := Raises(o, snapshot, s), ClosingSteps(o, c, snapshot.cursor), Stacked(o, snapshot);
    QuietedIs(sim, o, snapshot, s);
    TailSteps(o, snapshot, s);
    RaisesAre(o, snapshot, s);
    SortedHasOneZ(o, snapshot);
    var y := After(tabs, snapshot, monitors, blocks, x);
    var z := After(tabs, snapshot, monitors, raises, y);
    RunAppend(tabs, snapshot, monitors, blocks + raises, closing, x);
    RunAppend(tabs, snapshot, monitors, blocks, raises, x);
    QuietParts(blocks, raises, closing);
    RunIsSteady(tabs, snapshot, monitors, blocks, x, s.windows, x.handles);
    RunIsSteady(tabs, snapshot, monitors, raises, y, s.windows, x.handles);
    NothingRanked(x.handles, y.state.windows);
    assert [] + sorted == sorted;
    RaiseRun(tabs, snapshot, monitors, c, [], sorted, y, s.windows, x.handles);
    ClosingKeepsRank(tabs, snapshot, monitors, closing, z, s.windows, x.handles, sorted);
  }

  lemma ClosingKeepsRank(
    tabs: Option<Window -> Option<nat>>, snapshot: Snapshot, monitors: seq<Monitor>, closing: seq<Step>,
    z: Exec<NullState>, live: seq<Window>, handles: map<Bytes, nat>, sorted: seq<Window>)
    requires AllQuiet(closing) && UniqueHandles(live) && Steady(z, live, handles)
    requires (forall t <- closing :: t.kind != RaiseWindow) && Ranked(sorted, handles, z.state.windows)
    ensures Ranked(sorted, handles, After(tabs, snapshot, monitors, closing, z).state.windows)
  {
    hide After, UniqueHandles, Ranked, AllQuiet;
    RunIsSteady(tabs, snapshot, monitors, closing, z, live, handles);
    var w := After(tabs, snapshot, monitors, closing, z);
    forall i | 0 <= i < |live|
      ensures w.state.windows[i].zOrder == z.state.windows[i].zOrder
    {
      RunKeepsZ(tabs, snapshot, monitors, closing, z, live, handles, i);
    }
    RankedCarries(sorted, handles, z.state.windows, w.state.windows);
  }

  lemma QuietParts(a: seq<Step>, b: seq<Step>, c: seq<Step>)
    requires AllQuiet(a + b + c)
    ensures AllQuiet(a) && AllQuiet(b) && AllQuiet(c)
  {
    hide Quiet;
    assert forall s <- a :: s in a + b + c;
    assert forall s <- b :: s in a + b + c;
    assert forall s <- c :: s in a + b + c;
  }

  lemma RankedCarries(done: seq<Window>, handles: map<Bytes, nat>, ws: seq<Window>, vs: seq<Window>)
    requires Ranked(done, handles, ws) && SamePlaces(ws, vs)
    requires forall i :: 0 <= i < |ws| ==> vs[i].zOrder == ws[i].zOrder
    ensures Ranked(done, handles, vs)
  {
    hide WasRaised, Targets;
    forall p, q, i, j | 0 <= p < |done| && 0 <= q < |done| && 0 <= i < |vs| && 0 <= j < |vs|
      && Targets(done[p], handles, vs[i].handle) && Targets(done[q], handles, vs[j].handle)
      && done[p].zOrder < done[q].zOrder
      ensures vs[i].zOrder < vs[j].zOrder
    {
      assert ws[i].handle == vs[i].handle && ws[j].handle == vs[j].handle;
    }
    forall i, j | 0 <= i < |vs| && 0 <= j < |vs|
      && WasRaised(done, handles, vs[i].handle) && !WasRaised(done, handles, vs[j].handle)
      ensures vs[j].zOrder < vs[i].zOrder
    {
      assert ws[i].handle == vs[i].handle && ws[j].handle == vs[j].handle;
    }
  }

  lemma StackedPosition(o: Options, snapshot: Snapshot, k: nat) returns (p: nat)
    requires k < |snapshot.windows| && o.selected(snapshot.windows[k])
    ensures p < |Stacked(o, snapshot)| && Stacked(o, snapshot)[p] == snapshot.windows[k]
  {
    SortSorts(Selected(o, snapshot.windows));
    SelectedAre(o, snapshot.windows);
    hide SortByZ, SortedByZ, Selected;
    assert snapshot.windows[k] in Stacked(o, snapshot);
    p :| 0 <= p < |Stacked(o, snapshot)| && Stacked(o, snapshot)[p] == snapshot.windows[k];
  }

  lemma DrivenParts(sim: Similarity, o: Options, snapshot: Snapshot, s: NullState, k: nat)
    requires Driven(sim, o, snapshot, s, k)
    ensures k < |snapshot.windows| == |Reached(sim, o, snapshot, s)| && o.selected(snapshot.windows[k])
    ensures Reached(sim, o, snapshot, s)[k].Some? && Reached(sim, o, snapshot, s)[k].value < |s.windows|
  {
  }

  /** With z-order on, the windows of selected saved ones rank by the saved numbers. */
  lemma ZOrderIsRestored(
    tabs: Option<Window -> Option<nat>>, sim: Similarity, o: Options, snapshot: Snapshot, s: NullState,
    monitors: seq<Monitor>, k: nat, l: nat)
    requires Ready(sim, o, snapshot, s, monitors) && o.zOrder
    requires Driven(sim, o, snapshot, s, k) && Driven(sim, o, snapshot, s, l)
    requires snapshot.windows[k].zOrder < snapshot.windows[l].zOrder
    ensures var a, after := Reached(sim, o, snapshot, s), Restored(tabs, sim, o, snapshot, s, monitors).state.windows;
            |after| == |s.windows| && after[a[k].value].zOrder < after[a[l].value].zOrder
  {
    hide *;
    DrivenParts(sim, o, snapshot, s, k);
    DrivenParts(sim, o, snapshot, s, l);
    Setup(tabs, sim, o, snapshot, s, monitors);
    PlanRanks(tabs, sim, o, snapshot, s, monitors);
    var a, x, saved := Reached(sim, o, snapshot, s), Begun(sim, o, snapshot, s), snapshot.windows;
    var after := Settled(tabs, sim, o, snapshot, s, monitors).state.windows;
    var p := StackedPosition(o, snapshot, k);
    var q := StackedPosition(o, snapshot, l);
    SameLength(s.windows, after);
    RankedWindows(saved, s.windows, a, x.handles, Stacked(o, snapshot), after, k, l, p, q);
  }

  /** With z-order on, they end above every live window that no selected window was matched with. */
  lemma MatchedAboveUnmatched(
    tabs: Option<Window -> Option<nat>>, sim: Similarity, o: Options, snapshot: Snapshot, s: NullState,
    monitors: seq<Monitor>, k: nat, i: nat)
    requires Ready(sim, o, snapshot, s, monitors) && o.zOrder && Driven(sim, o, snapshot, s, k) && i < |s.windows|
    requires Undriven(sim, o, snapshot, s, i)
    ensures var a, after := Reached(sim, o, snapshot, s), Restored(tabs, sim, o, snapshot, s, monitors).state.windows;
            |after| == |s.windows| && after[i].zOrder < after[a[k].value].zOrder
  {
    hide *;
    DrivenParts(sim, o, snapshot, s, k);
    Setup(tabs, sim, o, snapshot, s, monitors);
    PlanRanks(tabs, sim, o, snapshot, s, monitors);
    var a, x, saved := Reached(sim, o, snapshot, s), Begun(sim, o, snapshot, s), snapshot.windows;
    var after := Settled(tabs, sim, o, snapshot, s, monitors).state.windows;
    var p := StackedPosition(o, snapshot, k);
    SameLength(s.windows, after);
    NotRaised(sim, o, snapshot, s, x.handles, i);
    UnraisedBelow(saved, s.windows, a, x.handles, Stacked(o, snapshot), after, k, p, i);
  }

  lemma SameLength(a: seq<Window>, b: seq<Window>)
    requires SamePlaces(a, b)
    ensures |a| == |b|
  {
  }

  lemma RankedWindows(
    saved: seq<Window>, live: seq<Window>, a: seq<Option<nat>>, handles: map<Bytes, nat>, sorted: seq<Window>,
    after: seq<Window>, k: nat, l: nat, p: nat, q: nat)
    requires Maps(saved, live, a, handles) && Ranked(sorted, handles, after) && SamePlaces(live, after)
    requires k < |saved| && l < |saved| && p < |sorted| && q < |sorted| && sorted[p] == saved[k] && sorted[q] == saved[l]
    requires a[k].Some? && a[l].Some? && saved[k].zOrder < saved[l].zOrder
    ensures after[a[k].value].zOrder < after[a[l].value].zOrder
  {
    hide WasRaised;
    assert Targets(sorted[p], handles, after[a[k].value].handle);
    assert Targets(sorted[q], handles, after[a[l].value].handle);
  }

  lemma UnraisedBelow(
    saved: seq<Window>, live: seq<Window>, a: seq<Option<nat>>, handles: map<Bytes, nat>, sorted: seq<Window>,
    after: seq<Window>, k: nat, p: nat, i: nat)
    requires Maps(saved, live, a, handles) && Ranked(sorted, handles, after) && SamePlaces(live, after) && UniqueHandles(live)
    requires k < |saved| && p < |sorted| && sorted[p] == saved[k] && a[k].Some?
    requires i < |live| && !WasRaised(sorted, handles, live[i].handle)
    ensures after[i].zOrder < after[a[k].value].zOrder
  {
    assert Targets(sorted[p], handles, after[a[k].value].handle);
    assert WasRaised(sorted, handles, after[a[k].value].handle);
    hide WasRaised, Targets, UniqueHandles, Ordered;
    assert after[i].handle == live[i].handle;
  }

  lemma NotRaised(sim: Similarity, o: Options, snapshot: Snapshot, s: NullState, handles: map<Bytes, nat>, i: nat)
    requires Maps(snapshot.windows, s.windows, Reached(sim, o, snapshot, s), handles)
    requires UniqueHandles(s.windows) && UniqueIds(snapshot.windows) && i < |s.windows|
    requires Undriven(sim, o, snapshot, s, i)
    ensures !WasRaised(Stacked(o, snapshot), handles, s.windows[i].handle)
  {
    hide Maps, UniqueHandles, UniqueIds, Reached, Undriven;
    var sorted := Stacked(o, snapshot);
    SortSorts(Selected(o, snapshot.windows));
    SelectedAre(o, snapshot.windows);
    hide SortByZ, SortedByZ, Selected;
    forall r | 0 <= r < |sorted|
      ensures !Targets(sorted[r], handles, s.windows[i].handle)
    {
      assert sorted[r] in sorted;
      var l :| 0 <= l < |snapshot.windows| && snapshot.windows[l] == sorted[r];
      if Targets(sorted[r], handles, s.windows[i].handle) {
        NotReachedFor(sim, o, snapshot, s, i, l);
        DriverOf(snapshot.windows, s.windows, Reached(sim, o, snapshot, s), handles, sorted[r].id, i, l);
      }
    }
  }

  /** With z-order off nobody's z changes. */
  lemma ZOrderIsLeftAlone(
    tabs: Option<Window -> Option<nat>>, sim: Similarity, o: Options, snapshot: Snapshot, s: NullState,
    monitors: seq<Monitor>, i: nat)
    requires Ready(sim, o, snapshot, s, monitors) && !o.zOrder && i < |s.windows|
    ensures var after := Restored(tabs, sim, o, snapshot, s, monitors).state.windows;
            i < |after| && after[i].zOrder == s.windows[i].zOrder
  {
    hide *;
    var x, plan := Begun(sim, o, snapshot, s), Quieted(sim, o, snapshot, s);
    Setup(tabs, sim, o, snapshot, s, monitors);
    NoRaises(sim, o, snapshot, s, monitors);
    RunKeepsZ(tabs, snapshot, monitors, plan, x, s.windows, x.handles, i);
  }

  lemma NoRaises(sim: Similarity, o: Options, snapshot: Snapshot, s: NullState, monitors: seq<Monitor>)
    requires Ready(sim, o, snapshot, s, monitors) && !o.zOrder
    ensures forall t <- Quieted(sim, o, snapshot, s) :: t.kind != RaiseWindow
  {
    ReadyParts(sim, o, snapshot, s, monitors);
    QuietedIs(sim, o, snapshot, s);
    TailSteps(o, snapshot, s);
    var c, p := NullCapabilities(s), Placed(sim, o, snapshot, s);
    hide Quieted, Ready, Placed, ClosingSteps, Placings;
    forall t <- Quieted(sim, o, snapshot, s)
      ensures t.kind != RaiseWindow
    {
      if t in Placings(o, c, snapshot.windows, p) {
        PlacingsAreQuiet(o, c, snapshot.windows, p, t);
      }
    }
  }

  /** The plan ends by focusing, when it does. */
  lemma PlanEndsInFocus(sim: Similarity, o: Options, snapshot: Snapshot, s: NullState, monitors: seq<Monitor>)
    returns (front: seq<Step>)
    requires Ready(sim, o, snapshot, s, monitors) && o.focus && snapshot.cursor.focusedWindow.Some?
    ensures Quieted(sim, o, snapshot, s) == front + [Step(FocusWindow, snapshot.cursor.focusedWindow.value, false)]
    ensures AllQuiet(front)
  {
    ReadyParts(sim, o, snapshot, s, monitors);
    QuietedIs(sim, o, snapshot, s);
    PlanIsQuiet(sim, o, snapshot, s, monitors);
    hide Ready, Quieted, Raises, Placings, Placed;
    var c := NullCapabilities(s);
    var last := [Step(FocusWindow, snapshot.cursor.focusedWindow.value, false)];
    var warp := if o.cursor then [Step(WarpCursor, Ascii("cursor"), !c.warp)] else [];
    front := Placings(o, c, snapshot.windows, Placed(sim, o, snapshot, s)) + Raises(o, snapshot, s) + warp;
    assert ClosingSteps(o, c, snapshot.cursor) == warp + last;
    QuietParts(front, last, []);
  }

  /** With focus on, the window matched with the focused one ends focused, and no other. */
  lemma FocusIsRestored(
    tabs: Option<Window -> Option<nat>>, sim: Similarity, o: Options, snapshot: Snapshot, s: NullState,
    monitors: seq<Monitor>, k: nat)
    requires Ready(sim, o, snapshot, s, monitors) && o.focus && k < |snapshot.windows| && Reached(sim, o, snapshot, s)[k].Some?
    requires snapshot.cursor.focusedWindow == Some(snapshot.windows[k].id)
    ensures var after := Restored(tabs, sim, o, snapshot, s, monitors).state.windows;
            |after| == |s.windows|
            && forall j :: 0 <= j < |after| ==> (after[j].focused <==> j == Reached(sim, o, snapshot, s)[k].value)
  {
    hide *;
    var x, i := Begun(sim, o, snapshot, s), Reached(sim, o, snapshot, s)[k].value;
    Setup(tabs, sim, o, snapshot, s, monitors);
    MapsAt(snapshot.windows, s.windows, Reached(sim, o, snapshot, s), x.handles, k);
    var front := PlanEndsInFocus(sim, o, snapshot, s, monitors);
    var focus := Step(FocusWindow, snapshot.windows[k].id, false);
    RunAppend(tabs, snapshot, monitors, front, [focus], x);
    RunIsSteady(tabs, snapshot, monitors, front, x, s.windows, x.handles);
    FocusStep(tabs, snapshot, monitors, focus, After(tabs, snapshot, monitors, front, x), s.windows, x.handles, i);
  }

  lemma FocusStep(
    tabs: Option<Window -> Option<nat>>, snapshot: Snapshot, monitors: seq<Monitor>, focus: Step,
    y: Exec<NullState>, live: seq<Window>, handles: map<Bytes, nat>, i: nat)
    requires focus.kind == FocusWindow && !focus.skipped && Steady(y, live, handles) && UniqueHandles(live)
    requires i < |live| && focus.target in handles && handles[focus.target] == live[i].handle
    ensures var after := After(tabs, snapshot, monitors, [focus], y).state.windows;
            |after| == |live| && forall j :: 0 <= j < |after| ==> (after[j].focused <==> j == i)
  {
    var ws := y.state.windows;
    assert ws[i].handle == live[i].handle;
    HasIt(ws, i);
    assert FirstWith(ws, live[i].handle) == Some(i);
    AfterStep(tabs, snapshot, monitors, [focus], y);
    hide FindWindow, ClampToMonitors, FirstWith, Has;
    assert [focus][1..] == [];
    var z := ExecuteStep(NullBackend(tabs), snapshot, monitors, focus, y);
    assert After(tabs, snapshot, monitors, [], z) == z;
  }

  /** A selected window that the planner matched and execution did not: another one took its live window. */
  function CountTaken(o: Options, saved: seq<Window>, planned: seq<Option<nat>>, matched: seq<Option<nat>>): nat
    requires |planned| == |matched| == |saved|
  {
    if saved == [] then 0
    else
      (if o.selected(saved[0]) && planned[0].Some? && matched[0].None? then 1 else 0)
      + CountTaken(o, saved[1..], planned[1..], matched[1..])
  }

  /** Places without a live window are those taken away and those that no launch brought. */
  lemma {:induction false} LostSplit(
    o: Options, saved: seq<Window>, planned: seq<Option<nat>>, matched: seq<Option<nat>>, found: seq<Option<nat>>,
    placed: seq<bool>, reached: seq<Option<nat>>)
    requires |planned| == |matched| == |found| == |placed| == |reached| == |saved|
    requires forall k :: 0 <= k < |saved| ==>
               && reached[k] == (if matched[k].Some? then matched[k] else found[k])
               && (placed[k] <==> planned[k].Some? || o.launch)
               && (Launches(o, saved[k], planned[k]) ==> matched[k].None?)
               && (!Launches(o, saved[k], planned[k]) ==> found[k].None?)
    ensures CountLost(o, saved, placed, reached)
            == CountTaken(o, saved, planned, matched) + CountMissing(o, saved, planned, found)
  {
    if saved != [] {
      LostSplit(o, saved[1..], planned[1..], matched[1..], found[1..], placed[1..], reached[1..]);
    }
  }

  lemma LostWindows(sim: Similarity, o: Options, snapshot: Snapshot, s: NullState)
    ensures CountLost(o, snapshot.windows, Placed(sim, o, snapshot, s), Reached(sim, o, snapshot, s))
            == CountTaken(o, snapshot.windows, Planned(sim, o, snapshot, s), Matched(sim, snapshot, s))
               + Missing(sim, o, snapshot, s)
  {
    hide Planned, Matched, Found, Placed, Reached, CountTaken, CountMissing, CountLost, Launches;
    var planned, matched := Planned(sim, o, snapshot, s), Matched(sim, snapshot, s);
    var found, placed, reached := Found(sim, o, snapshot, s), Placed(sim, o, snapshot, s), Reached(sim, o, snapshot, s);
    forall k | 0 <= k < |snapshot.windows|
      ensures reached[k] == if matched[k].Some? then matched[k] else found[k]
      ensures placed[k] <==> planned[k].Some? || o.launch
      ensures Launches(o, snapshot.windows[k], planned[k]) ==> matched[k].None?
      ensures !Launches(o, snapshot.windows[k], planned[k]) ==> found[k].None?
    {
      LaunchedOrMatched(sim, o, snapshot, s, k);
      ReachedAt(sim, o, snapshot, s, k);
      PlacedAt(sim, o, snapshot, s, k);
    }
    LostSplit(o, snapshot.windows, planned, matched, found, placed, reached);
  }

  /**
   * The report: one restored window per selected window with a live one; one failure per launch that shows
   * no window; and a warning for each of those and for each selected window whose live one was taken.
   */
  lemma ReportCountsMatches(
    tabs: Option<Window -> Option<nat>>, sim: Similarity, o: Options, snapshot: Snapshot, s: NullState,
    monitors: seq<Monitor>)
    requires Ready(sim, o, snapshot, s, monitors)
    ensures var saved, report := snapshot.windows, Restored(tabs, sim, o, snapshot, s, monitors);
            var planned, taken := Planned(sim, o, snapshot, s),
                                  CountTaken(o, saved, Planned(sim, o, snapshot, s), Matched(sim, snapshot, s));
            && report.restored == CountDriven(o, saved, Reached(sim, o, snapshot, s))
            && report.launched == CountLaunches(o, saved, planned)
            && report.failed == CountMissing(o, saved, planned, Found(sim, o, snapshot, s))
            && report.errors == Failures(report.failed)
            && NoLive(report.warnings) == taken + report.failed
  {
    hide *;
    Setup(tabs, sim, o, snapshot, s, monitors);
    var x, q := Begun(sim, o, snapshot, s), Settled(tabs, sim, o, snapshot, s, monitors);
    StartFacts(sim, o, snapshot, s);
    PlanMoves(sim, o, snapshot, s, monitors, x.handles);
    RunCounts(tabs, snapshot, monitors, Quieted(sim, o, snapshot, s), x, s.windows, x.handles);
    LostWindows(sim, o, snapshot, s);
    RestoredBesideSettled(tabs, sim, o, snapshot, s, monitors);
    ReportBeside(Restored(tabs, sim, o, snapshot, s, monitors), q, Launched(sim, o, snapshot, s), Missing(sim, o, snapshot, s));
    CountsAre(sim, o, snapshot, s);
  }

  lemma CountsAre(sim: Similarity, o: Options, snapshot: Snapshot, s: NullState)
    ensures NoLive([]) == 0
    ensures Launched(sim, o, snapshot, s) == CountLaunches(o, snapshot.windows, Planned(sim, o, snapshot, s))
    ensures Missing(sim, o, snapshot, s)
            == CountMissing(o, snapshot.windows, Planned(sim, o, snapshot, s), Found(sim, o, snapshot, s))
  {
  }

  lemma ReportBeside(x: Exec<NullState>, q: Exec<NullState>, late: nat, missing: nat)
    requires Beside(x, q, late, missing) && q.errors == [] && q.failed == 0 && q.launched == 0
    ensures x.restored == q.restored && x.launched == late && x.failed == missing && x.warnings == q.warnings
    ensures x.errors == Failures(missing)
  {
    hide Failures;
  }

  lemma PlanMoves(
    sim: Similarity, o: Options, snapshot: Snapshot, s: NullState, monitors: seq<Monitor>, handles: map<Bytes, nat>)
    requires Ready(sim, o, snapshot, s, monitors) && Maps(snapshot.windows, s.windows, Reached(sim, o, snapshot, s), handles)
    ensures var plan := Quieted(sim, o, snapshot, s);
            && CountMoves(plan, handles) == CountDriven(o, snapshot.windows, Reached(sim, o, snapshot, s))
            && CountMisses(plan, handles)
               == CountLost(o, snapshot.windows, Placed(sim, o, snapshot, s), Reached(sim, o, snapshot, s))
            && MovesReach(plan, snapshot, s.windows, handles)
  {
    hide *;
    var c, a := NullCapabilities(s), Placed(sim, o, snapshot, s);
    ReadyParts(sim, o, snapshot, s, monitors);
    var blocks, raises, closing :=
      Placings(o, c, snapshot.windows, a), Raises(o, snapshot, s), ClosingSteps(o, c, snapshot.cursor);
    QuietedIs(sim, o, snapshot, s);
    TailSteps(o, snapshot, s);
    DrivenOnly(sim, o, snapshot, s, handles);
    PlacingsCount(o, c, snapshot.windows, a, Reached(sim, o, snapshot, s), handles);
    CountAppend(blocks + raises, closing, handles);
    CountAppend(blocks, raises, handles);
    TailIsNoMove(raises, handles);
    TailIsNoMove(closing, handles);
    MapsReach(sim, o, snapshot, s, handles, Quieted(sim, o, snapshot, s));
  }

  /** An id is in the map exactly when its window is reached, and then the plan places the window. */
  lemma DrivenOnly(sim: Similarity, o: Options, snapshot: Snapshot, s: NullState, handles: map<Bytes, nat>)
    requires Maps(snapshot.windows, s.windows, Reached(sim, o, snapshot, s), handles) && UniqueIds(snapshot.windows)
    ensures var saved, a := snapshot.windows, Reached(sim, o, snapshot, s);
            forall k :: 0 <= k < |saved| ==>
              && (saved[k].id in handles <==> a[k].Some?)
              && (o.selected(saved[k]) && a[k].Some? ==> Placed(sim, o, snapshot, s)[k])
  {
    hide Reached, Placed, UniqueIds, Maps;
    forall k | 0 <= k < |snapshot.windows|
      ensures snapshot.windows[k].id in handles <==> Reached(sim, o, snapshot, s)[k].Some?
      ensures o.selected(snapshot.windows[k]) && Reached(sim, o, snapshot, s)[k].Some? ==> Placed(sim, o, snapshot, s)[k]
    {
      MapsAt(snapshot.windows, s.windows, Reached(sim, o, snapshot, s), handles, k);
      if Driven(sim, o, snapshot, s, k) {
        SelectedPlaced(sim, o, snapshot, s, k);
      }
    }
  }

  lemma TailIsNoMove(steps: seq<Step>, handles: map<Bytes, nat>)
    requires forall t <- steps :: TailStep(t)
    ensures CountMoves(steps, handles) == 0 && CountMisses(steps, handles) == 0
  {
    NoMoves(steps, handles);
  }

  lemma MapsReach(
    sim: Similarity, o: Options, snapshot: Snapshot, s: NullState, handles: map<Bytes, nat>, steps: seq<Step>)
    requires Maps(snapshot.windows, s.windows, Reached(sim, o, snapshot, s), handles) && UniqueIds(snapshot.windows)
    ensures MovesReach(steps, snapshot, s.windows, handles)
  {
    var a := Reached(sim, o, snapshot, s);
    hide FindWindow, Has, Reached;
    forall t <- steps | Moves(t, handles)
      ensures FindWindow(snapshot.windows, t.target).Some? && Has(s.windows, handles[t.target])
    {
      var k :| 0 <= k < |a| && a[k].Some? && snapshot.windows[k].id == t.target;
      FindById(snapshot.windows, k);
      HasIt(s.windows, a[k].value);
    }
  }

  /** Without launching, or when no live window has a pid yet to be given out, waiting finds nothing. */
  lemma NothingAppears(sim: Similarity, o: Options, snapshot: Snapshot, s: NullState)
    requires !o.launch || forall w <- s.windows :: w.pid <= s.nextPid
    ensures Reached(sim, o, snapshot, s) == Matched(sim, snapshot, s) && Apart(sim, o, snapshot, s)
  {
    hide Matched, Planned, Appearing;
    assert forall i :: 0 <= i < |s.windows| ==> s.windows[i] in s.windows;
    forall k | 0 <= k < |snapshot.windows|
      ensures Found(sim, o, snapshot, s)[k].None?
    {
      if Found(sim, o, snapshot, s)[k].Some? {
        AppearingIsNew(o, snapshot.windows, Planned(sim, o, snapshot, s), s.windows, s.nextPid, k);
      }
    }
  }

  /**
   * What becomes of a selected window whose live one was taken by an earlier one that is not selected: the
   * plan places it, execution leaves the live window alone, and the report holds a warning and no failure.
   */
  lemma TakenWindowIsReported(
    tabs: Option<Window -> Option<nat>>, sim: Similarity, o: Options, snapshot: Snapshot, s: NullState,
    monitors: seq<Monitor>, first: Window, second: Window, only: Window)
    requires Ready(sim, o, snapshot, s, monitors) && snapshot.windows == [first, second] && s.windows == [only]
    requires !o.selected(first) && o.selected(second)
    requires sim.normalize(first.appId) == sim.normalize(second.appId) == sim.normalize(only.appId)
    requires MatchScore(sim, first, only) >= 0.35 && MatchScore(sim, second, only) >= 0.35
    ensures Step(MoveWindow, second.id, false) in PlanOnNull(sim, o, snapshot, s)
    ensures var report := Restored(tabs, sim, o, snapshot, s, monitors);
            && report.restored == 0 && report.failed == 0 && NoLive(report.warnings) == 1
            && |report.state.windows| == 1 && SamePlacement(only, report.state.windows[0])
  {
    hide *;
    TwoForOne(sim, o, first, second, only);
    ReportCountsMatches(tabs, sim, o, snapshot, s, monitors);
    TakenCounts(sim, o, snapshot, s, first, second, only);
    UnmatchedWindowsStay(tabs, sim, o, snapshot, s, monitors, 0);
    Setup(tabs, sim, o, snapshot, s, monitors);
    SameLength(s.windows, Restored(tabs, sim, o, snapshot, s, monitors).state.windows);
    ReadyParts(sim, o, snapshot, s, monitors);
    MoveIsPlanned(sim, o, snapshot, s, first, second);
  }

  lemma TakenCounts(
    sim: Similarity, o: Options, snapshot: Snapshot, s: NullState, first: Window, second: Window, only: Window)
    requires snapshot.windows == [first, second] && s.windows == [only] && !o.selected(first) && o.selected(second)
    requires Intended(sim, o, [first, second], [only], []) == [None, Some(0)]
    requires Assign(sim, [first, second], [only], []) == [Some(0), None]
    ensures var saved, planned, matched := snapshot.windows, Planned(sim, o, snapshot, s), Matched(sim, snapshot, s);
            && CountTaken(o, saved, planned, matched) == 1
            && CountMissing(o, saved, planned, Found(sim, o, snapshot, s)) == 0
            && CountDriven(o, saved, Reached(sim, o, snapshot, s)) == 0
            && Undriven(sim, o, snapshot, s, 0)
  {
    LaunchedOrMatched(sim, o, snapshot, s, 0);
    LaunchedOrMatched(sim, o, snapshot, s, 1);
    ReachedAt(sim, o, snapshot, s, 0);
    ReachedAt(sim, o, snapshot, s, 1);
    hide Intended, Assign, Appearing, Found, Reached, CountTaken, CountMissing, CountDriven;
    CountsOfTwo(o, first, second);
    assert Found(sim, o, snapshot, s) == [None, None] && Reached(sim, o, snapshot, s) == [Some(0), None];
  }

  lemma CountsOfTwo(o: Options, first: Window, second: Window)
    requires !o.selected(first) && o.selected(second)
    ensures CountTaken(o, [first, second], [None, Some(0)], [Some(0), None]) == 1
    ensures CountDriven(o, [first, second], [Some(0), None]) == 0
    ensures CountMissing(o, [first, second], [None, Some(0)], [None, None]) == 0
  {
    assert [first, second][1..] == [second] && [second][1..] == [];
    var planned, matched, found: seq<Option<nat>> := [None, Some(0)], [Some(0), None], [None, None];
    assert planned[1..] == [Some(0)] && matched[1..] == [None] && found[1..] == [None];
    assert CountTaken(o, [second], planned[1..], matched[1..]) == 1;
    assert CountDriven(o, [second], matched[1..]) == 0;
    assert CountMissing(o, [second], planned[1..], found[1..]) == 0;
  }

  lemma MoveIsPlanned(sim: Similarity, o: Options, snapshot: Snapshot, s: NullState, first: Window, second: Window)
    requires NullCapabilities(s).geometry && snapshot.windows == [first, second] && o.selected(second)
    requires Intended(sim, o, snapshot.windows, s.windows, [])[1].Some?
    ensures Step(MoveWindow, second.id, false) in PlanOnNull(sim, o, snapshot, s)
  {
    PlanIs(sim, o, snapshot, s);
    hide Intended, PlanOnNull, Raises, ClosingSteps;
    var c, planned := NullCapabilities(s), Planned(sim, o, snapshot, s);
    var blocks := Blocks(o, c, snapshot.windows, planned);
    assert snapshot.windows[1..] == [second] && planned[1..] == [planned[1]];
    assert Step(MoveWindow, second.id, false) in Block(o, c, second, true);
    assert Step(MoveWindow, second.id, false) in Blocks(o, c, [second], planned[1..]);
  }
}
