/** The in-memory window system (src/hal/common/null_platform.cpp:18-292) that a restore runs against. */
module Desktop {
  import opened Base
  import opened Geometry

  datatype WindowState = Normal | Minimized | Maximized | Fullscreen | Hidden

  datatype Window = Window(
    id: Bytes, handle: nat, pid: nat, appId: Bytes, title: Bytes, frame: Rect, restoredFrame: Rect,
    state: WindowState, zOrder: int, workspace: Option<Bytes>, focused: bool, tabs: nat)

  datatype Cursor = Cursor(x: int, y: int, focusedWindow: Option<Bytes>)

  datatype NullState = NullState(windows: seq<Window>, cursor: Cursor, allowMutation: bool, nextPid: nat)

  /** A call that succeeds or fails, and the state after it. */
  datatype Outcome<+S> = Outcome(state: S, ok: bool)

  /** A call that answers with a number or fails. */
  datatype Answer<+S> = Answer(state: S, value: Option<nat>)

  predicate Has(ws: seq<Window>, h: nat) { exists i :: 0 <= i < |ws| && ws[i].handle == h }

  /** The first window with handle `h` is replaced. */
  function Change(ws: seq<Window>, h: nat, f: Window -> Window): (r: seq<Window>)
    ensures |r| == |ws|
  {
    if ws == [] then []
    else if ws[0].handle == h then [f(ws[0])] + ws[1..]
    else [ws[0]] + Change(ws[1..], h, f)
  }

  lemma {:induction false} ChangeIs(ws: seq<Window>, h: nat, f: Window -> Window, i: nat)
    requires i < |ws| && ws[i].handle == h && forall j :: 0 <= j < i ==> ws[j].handle != h
    ensures Change(ws, h, f) == ws[i := f(ws[i])]
  {
    if i > 0 {
      assert forall j :: 0 <= j < i - 1 ==> ws[1..][j] == ws[j + 1];
      ChangeIs(ws[1..], h, f, i - 1);
    }
  }

  /** The highest z_order, never below 0. */
  function Top(ws: seq<Window>): (z: int)
    ensures z >= 0 && forall w <- ws :: w.zOrder <= z
  {
    if ws == [] then 0 else Max(Top(ws[..|ws| - 1]), ws[|ws| - 1].zOrder)
  }

  function Unfocused(ws: seq<Window>): (r: seq<Window>)
    ensures |r| == |ws|
  {
    seq(|ws|, i requires 0 <= i < |ws| => ws[i].(focused := false))
  }

  function FirstWith(ws: seq<Window>, h: nat): (r: Option<nat>)
    ensures r.Some? <==> Has(ws, h)
    ensures r.Some? ==> r.value < |ws| && ws[r.value].handle == h && forall j :: 0 <= j < r.value ==> ws[j].handle != h
  {
    if ws == [] then None
    else if ws[0].handle == h then Some(0)
    else
      match FirstWith(ws[1..], h)
      case Some(i) => Some(i + 1)
      case None => None
  }

  // ---------------------------------------------------------------- the operations

  predicate Works(s: NullState, h: nat) { s.allowMutation && Has(s.windows, h) }

  function FrameSet(s: NullState, h: nat, r: Rect): Outcome<NullState> {
    if Works(s, h)
    then Outcome(s.(windows := Change(s.windows, h, (w: Window) => w.(frame := r, restoredFrame := r))), true)
    else Outcome(s, false)
  }

  function StateSet(s: NullState, h: nat, state: WindowState): Outcome<NullState> {
    if Works(s, h) then Outcome(s.(windows := Change(s.windows, h, (w: Window) => w.(state := state))), true)
    else Outcome(s, false)
  }

  function WorkspaceSet(s: NullState, h: nat, workspace: Bytes): Outcome<NullState> {
    if Works(s, h)
    then Outcome(s.(windows := Change(s.windows, h, (w: Window) => w.(workspace := Some(workspace)))), true)
    else Outcome(s, false)
  }

  function Raised(s: NullState, h: nat): Outcome<NullState> {
    if Works(s, h)
    then
      var z := Top(s.windows) + 1;
      Outcome(s.(windows := Change(s.windows, h, (w: Window) => w.(zOrder := z))), true)
    else Outcome(s, false)
  }

  function Focused(s: NullState, h: nat): Outcome<NullState> {
    if Works(s, h)
    then
      var i := FirstWith(s.windows, h).value;
      Outcome(s.(windows := Unfocused(s.windows)[i := s.windows[i].(focused := true)],
                 cursor := s.cursor.(focusedWindow := Some(s.windows[i].id))), true)
    else Outcome(s, false)
  }

  function Warped(s: NullState, x: int, y: int): Outcome<NullState> {
    if s.allowMutation then Outcome(s.(cursor := s.cursor.(x := x, y := y)), true) else Outcome(s, false)
  }

  /** The launch is recorded as a synthetic pid. */
  function Launched(s: NullState, w: Window): Answer<NullState> {
    if s.allowMutation then Answer(s.(nextPid := s.nextPid + 1), Some(s.nextPid + 1)) else Answer(s, None)
  }

  predicate Holds(title: Bytes, hint: Bytes) { exists p :: 0 <= p <= |title| && At(title, p, hint) }

  function Awaited(s: NullState, pid: nat, hint: Bytes): Answer<NullState> {
    Answer(s, AwaitIn(s.windows, pid, hint))
  }

  function AwaitIn(ws: seq<Window>, pid: nat, hint: Bytes): Option<nat> {
    if ws == [] then None
    else if (pid == 0 || ws[0].pid == pid) && (hint == [] || Holds(ws[0].title, hint)) then Some(ws[0].handle)
    else AwaitIn(ws[1..], pid, hint)
  }

  // ---------------------------------------------------------------- the platform object

  class NullPlatform {
    var windows: seq<Window>
    var cursor: Cursor
    var nextPid: nat
    const allowMutation: bool

    function State(): NullState
      reads this
    {
      NullState(windows, cursor, allowMutation, nextPid)
    }

    constructor (s: NullState)
      ensures State() == s
    {
      windows, cursor, nextPid, allowMutation := s.windows, s.cursor, s.nextPid, s.allowMutation;
    }

    method Find(h: nat) returns (r: Option<nat>)
      ensures r.Some? <==> Has(windows, h)
      ensures r.Some? ==> r.value < |windows| && windows[r.value].handle == h
                          && forall j :: 0 <= j < r.value ==> windows[j].handle != h
    {
      for i := 0 to |windows|
        invariant forall j :: 0 <= j < i ==> windows[j].handle != h
      {
        if windows[i].handle == h {
          return Some(i);
        }
      }
      return None;
    }

    method SetFrame(h: nat, r: Rect) returns (ok: bool)
      modifies this
      ensures Outcome(State(), ok) == FrameSet(old(State()), h, r)
    {
      var at := Find(h);
      ok := allowMutation && at.Some?;
      if ok {
        ChangeIs(windows, h, (w: Window) => w.(frame := r, restoredFrame := r), at.value);
        windows := windows[at.value := windows[at.value].(frame := r, restoredFrame := r)];
      }
    }

    method SetState(h: nat, state: WindowState) returns (ok: bool)
      modifies this
      ensures Outcome(State(), ok) == StateSet(old(State()), h, state)
    {
      var at := Find(h);
      ok := allowMutation && at.Some?;
      if ok {
        ChangeIs(windows, h, (w: Window) => w.(state := state), at.value);
        windows := windows[at.value := windows[at.value].(state := state)];
      }
    }

    method MoveToWorkspace(h: nat, workspace: Bytes) returns (ok: bool)
      modifies this
      ensures Outcome(State(), ok) == WorkspaceSet(old(State()), h, workspace)
    {
      var at := Find(h);
      ok := allowMutation && at.Some?;
      if ok {
        ChangeIs(windows, h, (w: Window) => w.(workspace := Some(workspace)), at.value);
        windows := windows[at.value := windows[at.value].(workspace := Some(workspace))];
      }
    }

    method FindTop() returns (top: int)
      ensures top == Top(windows)
    {
      top := 0;
      for i := 0 to |windows|
        invariant top == Top(windows[..i])
      {
        assert windows[..i + 1][..i] == windows[..i];
        top := Max(top, windows[i].zOrder);
      }
      assert windows[..|windows|] == windows;
    }

    method Raise(h: nat) returns (ok: bool)
      modifies this
      ensures Outcome(State(), ok) == Raised(old(State()), h)
    {
      hide Top;
      var top := FindTop();
      var at := Find(h);
      ok := allowMutation && at.Some?;
      if ok {
        var z := top + 1;
        ChangeIs(windows, h, (w: Window) => w.(zOrder := z), at.value);
        windows := windows[at.value := windows[at.value].(zOrder := z)];
      }
    }

    method ClearFocus()
      modifies `windows
      ensures windows == Unfocused(old(windows))
    {
      ghost var before := windows;
      for i := 0 to |windows|
        invariant |windows| == |before|
        invariant forall j :: 0 <= j < i ==> windows[j] == before[j].(focused := false)
        invariant forall j :: i <= j < |before| ==> windows[j] == before[j]
      {
        windows := windows[i := windows[i].(focused := false)];
      }
    }

    method Focus(h: nat) returns (ok: bool)
      modifies this
      ensures Outcome(State(), ok) == Focused(old(State()), h)
    {
      var at := Find(h);
      ok := allowMutation && at.Some?;
      if ok {
        ghost var before := windows;
        var id := windows[at.value].id;
        ClearFocus();
        windows := windows[at.value := windows[at.value].(focused := true)];
        cursor := cursor.(focusedWindow := Some(id));
        assert FirstWith(before, h).value == at.value;
      }
    }

    method Warp(x: int, y: int) returns (ok: bool)
      modifies this
      ensures Outcome(State(), ok) == Warped(old(State()), x, y)
    {
      ok := allowMutation;
      if ok {
        cursor := cursor.(x := x, y := y);
      }
    }

    method Launch(w: Window) returns (pid: Option<nat>)
      modifies this
      ensures Answer(State(), pid) == Launched(old(State()), w)
    {
      if !allowMutation {
        return None;
      }
      nextPid := nextPid + 1;
      return Some(nextPid);
    }

    method Await(pid: nat, hint: Bytes) returns (h: Option<nat>)
      ensures h == AwaitIn(windows, pid, hint)
    {
      assert windows[0..] == windows;
      for i := 0 to |windows|
        invariant AwaitIn(windows, pid, hint) == AwaitIn(windows[i..], pid, hint)
      {
        assert windows[i..][1..] == windows[i + 1..];
        if (pid == 0 || windows[i].pid == pid) && (hint == [] || Holds(windows[i].title, hint)) {
          return Some(windows[i].handle);
        }
      }
      return None;
    }
  }

  // ---------------------------------------------------------------- one window at a time

  predicate UniqueHandles(ws: seq<Window>) {
    forall i, j :: 0 <= i < j < |ws| ==> ws[i].handle != ws[j].handle
  }

  /** The windows of two states stand in the same places. */
  predicate SamePlaces(a: seq<Window>, b: seq<Window>) {
    |a| == |b| && forall i :: 0 <= i < |a| ==> a[i].handle == b[i].handle
  }

  /** With unique handles a change touches one window and no other. */
  lemma ChangeTouches(ws: seq<Window>, h: nat, f: Window -> Window, i: nat)
    requires UniqueHandles(ws) && i < |ws|
    ensures Change(ws, h, f)[i] == if ws[i].handle == h then f(ws[i]) else ws[i]
  {
    if Has(ws, h) {
      var k := FirstWith(ws, h).value;
      ChangeIs(ws, h, f, k);
    } else {
      NothingToChange(ws, h, f);
    }
  }

  lemma HasNot(ws: seq<Window>, h: nat)
    requires !Has(ws, h) && ws != []
    ensures ws[0].handle != h && !Has(ws[1..], h)
  {
    assert forall i :: 0 <= i < |ws| - 1 ==> ws[1..][i] == ws[i + 1];
  }

  lemma {:induction false} NothingToChange(ws: seq<Window>, h: nat, f: Window -> Window)
    requires !Has(ws, h)
    ensures Change(ws, h, f) == ws
  {
    if ws != [] {
      HasNot(ws, h);
      hide Has;
      NothingToChange(ws[1..], h, f);
      assert ws == [ws[0]] + ws[1..];
    }
  }
}
