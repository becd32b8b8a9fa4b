/**
 * The two matchings of a restore: plan_restore matches the selected windows only, execute_plan matches
 * them all (src/core/restore_engine.cpp:29-53, 183-192, 284-292).
 */
module RestoreMatching {
  import opened Base
  import opened Geometry
  import opened Desktop
  import opened Restore

  /** What the planner matches: nothing for a window that is not selected. */
  function Intended(sim: Similarity, o: Options, saved: seq<Window>, live: seq<Window>, used: seq<nat>): (a: seq<Option<nat>>)
    ensures |a| == |saved|
    ensures forall k :: 0 <= k < |a| && a[k].Some? ==> a[k].value < |live| && o.selected(saved[k])
  {
    if saved == [] then []
    else if !o.selected(saved[0]) then [None] + Intended(sim, o, saved[1..], live, used)
    else
      var b := BestLiveMatch(sim, saved[0], live, used);
      [b] + Intended(sim, o, saved[1..], live, UsedWith(live, used, b))
  }

  function UsedWith(live: seq<Window>, used: seq<nat>, b: Option<nat>): seq<nat>
    requires b.Some? ==> b.value < |live|
  {
    if b.Some? then used + [live[b.value].handle] else used
  }

  lemma AssignFirst(sim: Similarity, saved: seq<Window>, live: seq<Window>, used: seq<nat>)
    requires saved != []
    ensures var b := BestLiveMatch(sim, saved[0], live, used);
            Assign(sim, saved, live, used) == [b] + Assign(sim, saved[1..], live, UsedWith(live, used, b))
  {
    hide BestLiveMatch;
  }

  /** Matched live windows are none of the used ones, and no two are the same. */
  ghost predicate Distinct(a: seq<Option<nat>>, live: seq<Window>, used: seq<nat>) {
    && (forall k :: 0 <= k < |a| && a[k].Some? ==> a[k].value < |live| && live[a[k].value].handle !in used)
    && (forall k, l :: 0 <= k < l < |a| && a[k].Some? && a[l].Some? ==>
          live[a[k].value].handle != live[a[l].value].handle)
  }

  lemma {:induction false} AssignAvoids(sim: Similarity, saved: seq<Window>, live: seq<Window>, used: seq<nat>)
    ensures Distinct(Assign(sim, saved, live, used), live, used)
    decreases |saved|
  {
    hide BestLiveMatch, IsBestMatch, Distinct;
    if saved != [] {
      var b := BestLiveMatch(sim, saved[0], live, used);
      MatchIsUnused(sim, saved[0], live, used);
      var next := if b.Some? then used + [live[b.value].handle] else used;
      AssignAvoids(sim, saved[1..], live, next);
      OneMore(b, Assign(sim, saved[1..], live, next), live, used, next);
    } else {
      NoneDistinct(live, used);
    }
  }

  lemma NoneDistinct(live: seq<Window>, used: seq<nat>)
    ensures Distinct([], live, used)
  {
  }

  lemma OneMore(b: Option<nat>, rest: seq<Option<nat>>, live: seq<Window>, used: seq<nat>, next: seq<nat>)
    requires b.Some? ==> b.value < |live| && live[b.value].handle !in used
    requires next == if b.Some? then used + [live[b.value].handle] else used
    requires Distinct(rest, live, next)
    ensures Distinct([b] + rest, live, used)
  {
    var a := [b] + rest;
    assert forall k :: 0 < k < |a| ==> a[k] == rest[k - 1];
    assert b.Some? ==> live[b.value].handle in next;
    assert forall h <- used :: h in next;
  }

  lemma MatchIsUnused(sim: Similarity, w: Window, live: seq<Window>, used: seq<nat>)
    ensures var b := BestLiveMatch(sim, w, live, used); b.Some? ==> live[b.value].handle !in used
  {
    hide BestAmong;
  }

  // ---------------------------------------------------------------- the planner matches more

  predicate Within(few: seq<nat>, many: seq<nat>) { forall h <- few :: h in many }

  /** With more windows in use there are fewer candidates, and the best one stays the best while it is free. */
  lemma MoreUsed(sim: Similarity, w: Window, live: seq<Window>, few: seq<nat>, many: seq<nat>)
    requires Within(few, many)
    ensures var p, e := BestLiveMatch(sim, w, live, few), BestLiveMatch(sim, w, live, many);
            && (e.Some? ==> p.Some?)
            && (p.Some? && live[p.value].handle !in many ==> e == p)
  {
    var p, e := BestLiveMatch(sim, w, live, few), BestLiveMatch(sim, w, live, many);
    hide MatchScore, BestLiveMatch;
    if p.Some? && live[p.value].handle !in many {
      assert IsBestMatch(sim, w, live, many, p.value);
    }
    if e.Some? && p.None? {
      AnyCandidateCounts(sim, w, live, few, e.value);
    }
  }

  /** A candidate that is good enough gives a match. */
  lemma AnyCandidateCounts(sim: Similarity, w: Window, live: seq<Window>, used: seq<nat>, i: nat)
    requires i < |live| && Candidate(sim, w, live[i], used) && MatchScore(sim, w, live[i]) >= 0.35
    ensures BestLiveMatch(sim, w, live, used).Some?
  {
    hide MatchScore, Candidate;
  }

  /** A selected window that execution matches was matched by the planner too. */
  lemma {:induction false} MatchedIsIntended(
    sim: Similarity, o: Options, saved: seq<Window>, live: seq<Window>, few: seq<nat>, many: seq<nat>, k: nat)
    requires Within(few, many) && k < |saved| && o.selected(saved[k]) && Assign(sim, saved, live, many)[k].Some?
    ensures Intended(sim, o, saved, live, few)[k].Some?
    decreases |saved|
  {
    hide BestLiveMatch, Assign;
    AssignFirst(sim, saved, live, many);
    var p, e := BestLiveMatch(sim, saved[0], live, few), BestLiveMatch(sim, saved[0], live, many);
    MoreUsed(sim, saved[0], live, few, many);
    if k > 0 {
      assert saved[1..][k - 1] == saved[k];
      var next := if o.selected(saved[0]) then UsedWith(live, few, p) else few;
      MatchedIsIntended(sim, o, saved[1..], live, next, UsedWith(live, many, e), k - 1);
    }
  }

  // ---------------------------------------------------------------- when the two agree

  /** An earlier window that is not selected takes, in execution, the window planned for a later one. */
  ghost predicate Disturbed(o: Options, saved: seq<Window>, live: seq<Window>, planned: seq<Option<nat>>, a: seq<Option<nat>>)
    requires |planned| == |a| == |saved|
    requires forall k :: 0 <= k < |a| && a[k].Some? ==> a[k].value < |live|
    requires forall k :: 0 <= k < |a| && planned[k].Some? ==> planned[k].value < |live|
  {
    exists i, j :: 0 <= i < j < |saved| && !o.selected(saved[i]) && Takes(live, planned, a, i, j)
  }

  predicate Takes(live: seq<Window>, planned: seq<Option<nat>>, a: seq<Option<nat>>, i: nat, j: nat)
    requires i < |a| && j < |planned|
    requires a[i].Some? ==> a[i].value < |live|
    requires planned[j].Some? ==> planned[j].value < |live|
  {
    a[i].Some? && planned[j].Some? && live[a[i].value].handle == live[planned[j].value].handle
  }

  ghost predicate Agree(o: Options, saved: seq<Window>, planned: seq<Option<nat>>, a: seq<Option<nat>>)
    requires |planned| == |a| == |saved|
  {
    forall k :: 0 <= k < |saved| && o.selected(saved[k]) ==> planned[k] == a[k]
  }

  /** No window in `many` but not in `few` is planned for anyone. */
  ghost predicate ExtraUnplanned(live: seq<Window>, few: seq<nat>, many: seq<nat>, planned: seq<Option<nat>>)
    requires forall k :: 0 <= k < |planned| && planned[k].Some? ==> planned[k].value < |live|
  {
    forall k :: 0 <= k < |planned| && planned[k].Some? && live[planned[k].value].handle in many ==>
      live[planned[k].value].handle in few
  }

  lemma {:induction false} UndisturbedAgree(
    sim: Similarity, o: Options, saved: seq<Window>, live: seq<Window>, few: seq<nat>, many: seq<nat>)
    requires Within(few, many)
    requires ExtraUnplanned(live, few, many, Intended(sim, o, saved, live, few))
    requires !Disturbed(o, saved, live, Intended(sim, o, saved, live, few), Assign(sim, saved, live, many))
    ensures Agree(o, saved, Intended(sim, o, saved, live, few), Assign(sim, saved, live, many))
    decreases |saved|
  {
    hide BestLiveMatch, Assign;
    if saved != [] {
      AssignFirst(sim, saved, live, many);
      var p, e := BestLiveMatch(sim, saved[0], live, few), BestLiveMatch(sim, saved[0], live, many);
      MoreUsed(sim, saved[0], live, few, many);
      MatchIsUnused(sim, saved[0], live, few);
      var next := if o.selected(saved[0]) then UsedWith(live, few, p) else few;
      var planned, a := Intended(sim, o, saved, live, few), Assign(sim, saved, live, many);
      var rest, tail := Intended(sim, o, saved[1..], live, next), Assign(sim, saved[1..], live, UsedWith(live, many, e));
      assert planned[1..] == rest && a[1..] == tail;
      assert planned[0] == if o.selected(saved[0]) then p else None;
      assert o.selected(saved[0]) ==> p == e;
      TailUndisturbed(o, saved, live, planned, a);
      IntendedAvoids(sim, o, saved[1..], live, next);
      ExtraStays(o, saved, live, few, many, planned, a, next, UsedWith(live, many, e));
      hide Intended, Agree, Disturbed, ExtraUnplanned;
      UndisturbedAgree(sim, o, saved[1..], live, next, UsedWith(live, many, e));
      AgreeFirst(o, saved, planned, a);
    }
  }

  lemma AgreeFirst(o: Options, saved: seq<Window>, planned: seq<Option<nat>>, a: seq<Option<nat>>)
    requires |planned| == |a| == |saved| && saved != []
    requires o.selected(saved[0]) ==> planned[0] == a[0]
    requires Agree(o, saved[1..], planned[1..], a[1..])
    ensures Agree(o, saved, planned, a)
  {
    assert forall k :: 0 < k < |saved| ==>
             saved[1..][k - 1] == saved[k] && planned[1..][k - 1] == planned[k] && a[1..][k - 1] == a[k];
  }

  lemma TailUndisturbed(o: Options, saved: seq<Window>, live: seq<Window>, planned: seq<Option<nat>>, a: seq<Option<nat>>)
    requires |planned| == |a| == |saved| && saved != []
    requires forall k :: 0 <= k < |a| && a[k].Some? ==> a[k].value < |live|
    requires forall k :: 0 <= k < |a| && planned[k].Some? ==> planned[k].value < |live|
    requires !Disturbed(o, saved, live, planned, a)
    ensures !Disturbed(o, saved[1..], live, planned[1..], a[1..])
  {
    if Disturbed(o, saved[1..], live, planned[1..], a[1..]) {
      var i, j :| 0 <= i < j < |saved[1..]| && !o.selected(saved[1..][i]) && Takes(live, planned[1..], a[1..], i, j);
      assert Takes(live, planned, a, i + 1, j + 1);
    }
  }

  lemma ExtraStays(
    o: Options, saved: seq<Window>, live: seq<Window>, few: seq<nat>, many: seq<nat>,
    planned: seq<Option<nat>>, a: seq<Option<nat>>, next: seq<nat>, more: seq<nat>)
    requires |planned| == |a| == |saved| && saved != []
    requires forall k :: 0 <= k < |a| && a[k].Some? ==> a[k].value < |live|
    requires forall k :: 0 <= k < |a| && planned[k].Some? ==> planned[k].value < |live|
    requires !Disturbed(o, saved, live, planned, a) && ExtraUnplanned(live, few, many, planned)
    requires more == UsedWith(live, many, a[0])
    requires o.selected(saved[0]) ==> next == UsedWith(live, few, a[0])
    requires !o.selected(saved[0]) ==> next == few
    ensures ExtraUnplanned(live, next, more, planned[1..])
  {
    forall k | 0 <= k < |planned[1..]| && planned[1..][k].Some? && live[planned[1..][k].value].handle in more
      ensures live[planned[1..][k].value].handle in next
    {
      assert planned[1..][k] == planned[k + 1];
      if live[planned[k + 1].value].handle !in many && !o.selected(saved[0]) {
        assert Takes(live, planned, a, 0, k + 1);
      }
    }
  }

  /** Planned windows are none of the used ones. */
  lemma {:induction false} IntendedAvoids(sim: Similarity, o: Options, saved: seq<Window>, live: seq<Window>, used: seq<nat>)
    ensures Distinct(Intended(sim, o, saved, live, used), live, used)
    decreases |saved|
  {
    hide BestLiveMatch, IsBestMatch, Distinct;
    if saved == [] {
      NoneDistinct(live, used);
    } else if !o.selected(saved[0]) {
      IntendedAvoids(sim, o, saved[1..], live, used);
      OneMore(None, Intended(sim, o, saved[1..], live, used), live, used, used);
    } else {
      var b := BestLiveMatch(sim, saved[0], live, used);
      MatchIsUnused(sim, saved[0], live, used);
      IntendedAvoids(sim, o, saved[1..], live, UsedWith(live, used, b));
      OneMore(b, Intended(sim, o, saved[1..], live, UsedWith(live, used, b)), live, used, UsedWith(live, used, b));
    }
  }

  /**
   * Planner and executor drive the same live windows exactly when no window that is not selected takes one
   * that the planner gave to a later selected window.
   */
  lemma MatchingsAgree(sim: Similarity, o: Options, saved: seq<Window>, live: seq<Window>)
    ensures var planned, a := Intended(sim, o, saved, live, []), Assign(sim, saved, live, []);
            Agree(o, saved, planned, a) <==> !Disturbed(o, saved, live, planned, a)
  {
    var planned, a := Intended(sim, o, saved, live, []), Assign(sim, saved, live, []);
    AssignAvoids(sim, saved, live, []);
    hide Intended, Assign;
    if !Disturbed(o, saved, live, planned, a) {
      UndisturbedAgree(sim, o, saved, live, [], []);
    }
  }

  /** A single candidate that is good enough is the match. */
  lemma OnlyCandidate(sim: Similarity, w: Window, only: Window, used: seq<nat>)
    ensures BestLiveMatch(sim, w, [only], used)
            == if Candidate(sim, w, only, used) && MatchScore(sim, w, only) >= 0.35 then Some(0) else None
  {
    hide MatchScore, Candidate;
    if Candidate(sim, w, only, used) && MatchScore(sim, w, only) >= 0.35 {
      assert IsBestMatch(sim, w, [only], used, 0);
    }
  }

  /** The matching of two saved windows with one live one, which both would take. */
  lemma TwoForOne(sim: Similarity, o: Options, first: Window, second: Window, only: Window)
    requires !o.selected(first) && o.selected(second)
    requires sim.normalize(first.appId) == sim.normalize(second.appId) == sim.normalize(only.appId)
    requires MatchScore(sim, first, only) >= 0.35 && MatchScore(sim, second, only) >= 0.35
    ensures Intended(sim, o, [first, second], [only], []) == [None, Some(0)]
    ensures Assign(sim, [first, second], [only], []) == [Some(0), None]
  {
    OnlyCandidate(sim, first, only, []);
    OnlyCandidate(sim, second, only, []);
    OnlyCandidate(sim, second, only, [only.handle]);
    hide BestLiveMatch, MatchScore;
    assert [first, second][1..] == [second] && [second][1..] == [] && [] + [only.handle] == [only.handle];
    AssignFirst(sim, [first, second], [only], []);
    AssignFirst(sim, [second], [only], [only.handle]);
  }

  /** They differ when an earlier window that is not selected suits the only live window too. */
  lemma MatchingsDiffer(sim: Similarity, o: Options, first: Window, second: Window, only: Window)
    requires !o.selected(first) && o.selected(second)
    requires sim.normalize(first.appId) == sim.normalize(second.appId) == sim.normalize(only.appId)
    requires MatchScore(sim, first, only) >= 0.35 && MatchScore(sim, second, only) >= 0.35
    ensures var saved, live := [first, second], [only];
            var planned, a := Intended(sim, o, saved, live, []), Assign(sim, saved, live, []);
            planned == [None, Some(0)] && a == [Some(0), None] && !Agree(o, saved, planned, a)
  {
    TwoForOne(sim, o, first, second, only);
    hide Intended, Assign, MatchScore;
    assert [first, second][1] == second;
  }

  /** They agree when no window that is not selected stands before a selected one of the same application. */
  lemma AgreeAcrossApplications(sim: Similarity, o: Options, saved: seq<Window>, live: seq<Window>)
    requires UniqueHandles(live)
    requires forall i, j :: 0 <= i < j < |saved| && !o.selected(saved[i]) && o.selected(saved[j]) ==>
               sim.normalize(saved[i].appId) != sim.normalize(saved[j].appId)
    ensures Agree(o, saved, Intended(sim, o, saved, live, []), Assign(sim, saved, live, []))
  {
    var planned, a := Intended(sim, o, saved, live, []), Assign(sim, saved, live, []);
    MatchingsAgree(sim, o, saved, live);
    SameApplications(sim, saved, live, []);
    PlannedApplications(sim, o, saved, live, []);
    hide Intended, Assign;
    forall i, j | 0 <= i < j < |saved| && !o.selected(saved[i])
      ensures !Takes(live, planned, a, i, j)
    {
      if a[i].Some? && planned[j].Some? && a[i].value != planned[j].value {
        DifferentHandles(live, a[i].value, planned[j].value);
      }
    }
  }

  lemma DifferentHandles(live: seq<Window>, i: nat, j: nat)
    requires UniqueHandles(live) && i < |live| && j < |live| && i != j
    ensures live[i].handle != live[j].handle
  {
  }

  lemma {:induction false} SameApplications(sim: Similarity, saved: seq<Window>, live: seq<Window>, used: seq<nat>)
    ensures var a := Assign(sim, saved, live, used);
            forall k :: 0 <= k < |a| && a[k].Some? ==>
              sim.normalize(live[a[k].value].appId) == sim.normalize(saved[k].appId)
    decreases |saved|
  {
    hide BestLiveMatch, Assign, MatchScore;
    if saved != [] {
      var b := BestLiveMatch(sim, saved[0], live, used);
      AssignFirst(sim, saved, live, used);
      SameApplications(sim, saved[1..], live, UsedWith(live, used, b));
    } else {
      assert |Assign(sim, saved, live, used)| == 0;
    }
  }

  lemma {:induction false} PlannedApplications(sim: Similarity, o: Options, saved: seq<Window>, live: seq<Window>, used: seq<nat>)
    ensures var a := Intended(sim, o, saved, live, used);
            forall k :: 0 <= k < |a| && a[k].Some? ==>
              sim.normalize(live[a[k].value].appId) == sim.normalize(saved[k].appId)
    decreases |saved|
  {
    hide BestLiveMatch, MatchScore;
    if saved != [] {
      var b := BestLiveMatch(sim, saved[0], live, used);
      PlannedApplications(sim, o, saved[1..], live, if o.selected(saved[0]) then UsedWith(live, used, b) else used);
    }
  }

  /** Without selectors the two are one. */
  lemma {:induction false} AllSelectedAgree(sim: Similarity, o: Options, saved: seq<Window>, live: seq<Window>, used: seq<nat>)
    requires forall w <- saved :: o.selected(w)
    ensures Intended(sim, o, saved, live, used) == Assign(sim, saved, live, used)
    decreases |saved|
  {
    hide BestLiveMatch;
    if saved != [] {
      assert saved[0] in saved && saved == [saved[0]] + saved[1..];
      AssignFirst(sim, saved, live, used);
      AllSelectedAgree(sim, o, saved[1..], live, UsedWith(live, used, BestLiveMatch(sim, saved[0], live, used)));
    }
  }
}
