// What operations do to focus, recency and everything that hangs on windows.
module Outcomes {
  import opened Common
  import opened Model
  import opened Raising
  import opened Tiling
  import opened Visibility
  import opened Focus
  import opened Desk
  import opened Operations
  import opened Transfers
  import opened RuleFocus
  import opened Effects
  import opened Families
  import Nav = Navigation

  // ------------------------------------------------------------------
  // Operations on the active workspace: who has the focus afterwards

  // The active workspace is laid out: a visible focus stays, a free one falls to
  // the most recently focused visible window, and only a new focus is remembered.
  ghost predicate Refocused(d: Desk, r: Desk) {
    && d.active < |d.workspaces| && d.active < |r.workspaces| && r.active == d.active
    && FocusFalls(r.workspaces[d.active], d.workspaces[d.active].focusHistory, d.focus, r.focus)
    && Recalls(d.workspaces[d.active].focusHistory, r.workspaces[d.active].focusHistory, d.focus, r.focus)
  }

  lemma RelayRefocuses(d: Desk, w: Workspace)
    requires d.active < |d.workspaces| && w.focusHistory == d.workspaces[d.active].focusHistory
    ensures Refocused(d, Relay(With(d, d.active, w)))
  {
    RelaidSettles(StageOf(With(d, d.active, w)));
  }

  // Minimizing and restoring a window of the active workspace, and expanding one,
  // leave the focus where it is visible, else give it to the newest visible window.
  lemma MinimizedRefocuses(d: Desk, id: nat)
    requires Inv(d) && WorkspaceOf(d.workspaces, id) == Some(d.active)
    ensures var e := Find(d.workspaces[d.active].windows, id).value;
            && (!e.minimized ==> Refocused(d, Minimized(d, id)))
            && (e.minimized ==> Refocused(d, Unminimized(d, id)))
  {
    var w := d.workspaces[d.active];
    var e := Find(w.windows, id).value;
    RelayRefocuses(d, MinimizedIn(w, e));
    RelayRefocuses(d, RestoredIn(w, e));
  }

  lemma SetExpandedRefocuses(d: Desk, id: nat, fullscreen: bool, on: bool)
    requires Inv(d) && WorkspaceOf(d.workspaces, id) == Some(d.active)
    ensures var w, r := d.workspaces[d.active], SetExpanded(d, id, fullscreen, on);
            if on == ((if fullscreen then w.fullscreen else w.maximized) == Some(id)) then r == d else Refocused(d, r)
  {
    RelayRefocuses(d, Expanded(d.workspaces[d.active], id, fullscreen, on));
  }

  // ------------------------------------------------------------------
  // Closing

  // A closed window is gone with its recency, its place on the minimized stack and
  // what it owned; every other window is where it was, and the active workspace
  // is laid out.
  lemma ClosedEffect(d: Desk, id: nat)
    requires Inv(d)
    ensures var r, at := Closed(d, id), WorkspaceOf(d.workspaces, id);
            && WorkspaceOf(r.workspaces, id).None? && OthersStay(d, r, id) && r.active == d.active
            && d.active < |r.workspaces|
            && (at != Some(d.active) ==>
                  Settles(d.workspaces[d.active], d.focus, r.workspaces[d.active], r.focus))
            && (at == Some(d.active) ==>
                  exists rest :: Remains(d.workspaces[d.active], {id}, rest)
                                 && Settles(rest, d.focus, r.workspaces[d.active], r.focus))
            && (at.Some? && at != Some(d.active) && at.value < |r.workspaces| ==>
                  Remains(d.workspaces[at.value], {id}, r.workspaces[at.value]))
  {
    WithoutHomes(d, id);
    ShownAfterTrim(Without(d, id));
    WithoutParts(d, id);
  }

  // The tail trimmed and the active workspace laid out, nothing else.
  ghost predicate Tended(m: Desk, r: Desk) {
    && AllStay(m, r) && r.active == m.active && m.active < |r.workspaces| && m.active < |m.workspaces|
    && Settles(m.workspaces[m.active], m.focus, r.workspaces[m.active], r.focus)
    && forall i :: 0 <= i < |m.workspaces| && i < |r.workspaces| && i != m.active ==>
         r.workspaces[i] == m.workspaces[i]
  }

  lemma ShownAfterTrim(m: Desk)
    requires Inv(m)
    ensures Inv(Trim(m)) && Tended(m, Relay(Trim(m)))
  {
    TrimInv(m);
    TrimHomes(m);
    RelayHomes(Trim(m), true);
    Nav.TrimKeepsUsed(m.workspaces, m.predefined, m.active, Held(m));
    RelaidSettles(StageOf(Trim(m)));
  }

  lemma WithoutParts(d: Desk, id: nat)
    requires Inv(d)
    ensures var m, at := Without(d, id), WorkspaceOf(d.workspaces, id);
            && |m.workspaces| == |d.workspaces| && m.active == d.active && m.focus == d.focus
            && forall i :: 0 <= i < |d.workspaces| ==>
                 if at == Some(i) then Remains(d.workspaces[i], {id}, m.workspaces[i])
                 else m.workspaces[i] == d.workspaces[i]
  {
    var at := WorkspaceOf(d.workspaces, id);
    if at.Some? {
      PartRemains(d.workspaces[at.value], {id});
    }
  }

  lemma WithoutHomes(d: Desk, id: nat)
    requires Inv(d)
    ensures Inv(Without(d, id)) && OthersStay(d, Without(d, id), id)
    ensures WorkspaceOf(Without(d, id).workspaces, id).None?
  {
    var m := Without(d, id);
    WithoutInv(d, id);
    forall x | x != id ensures WorkspaceOf(m.workspaces, x) == WorkspaceOf(d.workspaces, x) {
      WithoutOther(d, id, x);
    }
  }

  lemma WithoutOther(d: Desk, id: nat, x: nat)
    requires Inv(d) && x != id && Inv(Without(d, id))
    ensures WorkspaceOf(Without(d, id).workspaces, x) == WorkspaceOf(d.workspaces, x)
  {
    var at, m := WorkspaceOf(d.workspaces, id), Without(d, id);
    if at.Some? {
      PartIds(d.workspaces[at.value], {id}, false);
      forall i | 0 <= i < |d.workspaces|
        ensures Find(m.workspaces[i].windows, x).Some? == Find(d.workspaces[i].windows, x).Some?
      {
        FoundId(m.workspaces[i].windows, x);
        FoundId(d.workspaces[i].windows, x);
      }
      SameWorkspaceOf(d.workspaces, m.workspaces, x);
    }
  }

  // ------------------------------------------------------------------
  // Switching

  lemma EnsuredSeen(d: Desk, index: nat, i: nat)
    requires Ensured(d, index).Some?
    ensures Seen(d, Ensured(d, index).value, i)
  {
  }

  // The workspaces once the target exists and no swipe is shown.
  function Readied(d: Desk, index: nat): Desk
    requires Ensured(d, index).Some?
  {
    Ensured(SwipeCancelled(Ensured(d, index).value), index).value
  }

  lemma ReadiedKeeps(d: Desk, index: nat)
    requires Inv(d) && Ensured(d, index).Some?
    ensures var e := Readied(d, index);
            && Inv(e) && index < |e.workspaces| && AllStay(d, e) && Found(d, index, e.workspaces[index])
            && e.workspaces[d.active] == d.workspaces[d.active]
            && e == d.(workspaces := e.workspaces, last := e.last, preview := None)
  {
    var d1 := Ensured(d, index).value;
    var d2 := SwipeCancelled(d1);
    EnsuredInv(d, index);
    EnsuredHomes(d, index);
    EnsuredSeen(d, index, index);
    CancelledInv(d1);
    CancelledHomes(d1);
    SwipeSeen(d1, index);
    EnsuredInv(d2, index);
    EnsuredHomes(d2, index);
    EnsuredSeen(d2, index, index);
  }

  lemma SwipeSeen(d: Desk, i: nat)
    requires Inv(d)
    ensures Seen(d, SwipeCancelled(d), i)
    ensures SwipeCancelled(d)
         == d.(workspaces := SwipeCancelled(d).workspaces, last := SwipeCancelled(d).last, preview := None)
  {
    FewerHeld(d, d.(preview := None));
    TrimSeen(d.(preview := None), i);
  }

  // What leaving a workspace does to it: its focus is remembered.
  ghost predicate LeftBehind(w: Workspace, focus: Option<nat>, v: Workspace) {
    && v == w.(focusHistory := v.focusHistory)
    && if focus.Some? then EndsWith(w.focusHistory, v.focusHistory, focus.value) else v == w
  }

  lemma RememberedLeaves(d: Desk, i: nat)
    requires Inv(d) && i < |d.workspaces| && (d.focus.Some? ==> d.focus.value in Ids(d.workspaces[i].windows))
    ensures var r := FocusRemembered(d);
            && r == d.(workspaces := r.workspaces) && |r.workspaces| == |d.workspaces| && AllStay(d, r)
            && LeftBehind(d.workspaces[i], d.focus, r.workspaces[i])
            && forall k :: 0 <= k < |d.workspaces| && k != i ==> r.workspaces[k] == d.workspaces[k]
  {
    if d.focus.Some? {
      FoundId(d.workspaces[i].windows, d.focus.value);
      UniqueHome(d, d.focus.value, i);
      RememberedHomes(d, d.focus.value);
      PickedEndsWith(d.workspaces[i].focusHistory, d.focus.value);
    }
  }

  lemma RememberedHomes(d: Desk, id: nat)
    ensures AllStay(d, RememberedIn(d, id))
  {
    forall x ensures WorkspaceOf(RememberedIn(d, id).workspaces, x) == WorkspaceOf(d.workspaces, x) {
      SameWorkspaceOf(d.workspaces, RememberedIn(d, id).workspaces, x);
    }
  }

  lemma EnteredLeaves(d: Desk, index: nat)
    requires Inv(d) && index < |d.workspaces| && index != d.active
    requires d.focus.Some? ==> d.focus.value in Ids(d.workspaces[d.active].windows)
    ensures var r := Entered(d, index);
            && Inv(r) && AllStay(d, r) && |r.workspaces| == |d.workspaces| && r.active == index
            && r.last == Some(d.active) && r.preview == d.preview && r.tracks == d.tracks
            && LeftBehind(d.workspaces[d.active], d.focus, r.workspaces[d.active])
            && Settles(d.workspaces[index], d.focus, r.workspaces[index], r.focus)
  {
    var m := Entering(d, index);
    RememberedLeaves(d, d.active);
    EnteringInv(d, index);
    EnteredInv(d, index);
    RelayHomes(m, true);
    RelaidSettles(StageOf(m));
  }

  // Another workspace active, with nothing moved: the workspace entered gives its
  // newest visible window the focus, the one left remembers its own, and is the
  // last one while it exists.
  ghost predicate Enters(d: Desk, r: Desk, index: nat)
    requires d.active < |d.workspaces|
  {
    && r.active == index && index < |r.workspaces| && AllStay(d, r) && r.preview.None?
    && (exists into :: Found(d, index, into) && Settles(into, d.focus, r.workspaces[index], r.focus))
    && r.last == (if d.active < |r.workspaces| then Some(d.active) else None)
    && (d.focus.Some? ==> d.active < |r.workspaces|)
    && (d.active < |r.workspaces| ==> LeftBehind(d.workspaces[d.active], d.focus, r.workspaces[d.active]))
  }

  lemma SwitchedEffect(d: Desk, index: nat, animate: bool)
    requires Inv(d) && index != d.active && index < Nav.MAX_WORKSPACES
    requires d.focus.Some? ==> d.focus.value in Ids(d.workspaces[d.active].windows)
    ensures Enters(d, Switched(d, index, animate), index)
  {
    var e := Readied(d, index);
    ReadiedKeeps(d, index);
    EnteredLeaves(e, index);
    var d2 := Entered(e, index);
    assert Enters(d, d2, index);
    if animate {
      AnimatedInv(d2, d.active, index);
      EntersTrimmed(d, d2.(tracks := Animated(d2.tracks, d.active, index)), index);
    } else {
      EntersTrimmed(d, d2, index);
    }
  }

  lemma EntersTrimmed(d: Desk, m: Desk, index: nat)
    requires Inv(d) && Inv(m) && Enters(d, m, index) && d.active < |m.workspaces|
    requires d.focus.Some? ==> d.focus.value in Ids(d.workspaces[d.active].windows)
    ensures Enters(d, Trim(m), index)
  {
    Ending(m);
    if d.focus.Some? {
      StillThere(d, m);
    }
  }

  // Trimming at the end of an operation.
  lemma Ending(d: Desk)
    requires Inv(d)
    ensures var r := Trim(d);
            && Inv(r) && AllStay(d, r) && r.active == d.active && r.focus == d.focus && r.preview == d.preview
            && r.last == (if d.last.Some? && d.last.value >= |r.workspaces| then None else d.last)
            && (forall i :: 0 <= i < |d.workspaces| && i < |r.workspaces| ==> r.workspaces[i] == d.workspaces[i])
            && (forall i :: 0 <= i < |d.workspaces| && d.workspaces[i].windows != [] ==> i < |r.workspaces|)
  {
    TrimInv(d);
    TrimHomes(d);
    Nav.TrimKeepsUsed(d.workspaces, d.predefined, d.active, Held(d));
  }

  lemma StillThere(d: Desk, r: Desk)
    requires Inv(d) && d.focus.Some? && d.focus.value in Ids(d.workspaces[d.active].windows)
    requires AllStay(d, r) && d.active < |r.workspaces|
    ensures r.workspaces[d.active].windows != []
  {
    FoundId(d.workspaces[d.active].windows, d.focus.value);
    UniqueHome(d, d.focus.value, d.active);
    assert WorkspaceOf(r.workspaces, d.focus.value) == Some(d.active);
  }

  // Switching to the active workspace lays it out and keeps the last one.
  lemma SwitchedHere(d: Desk, animate: bool)
    requires Inv(d) && d.active < Nav.MAX_WORKSPACES
    requires d.focus.Some? ==> d.focus.value in Ids(d.workspaces[d.active].windows)
    ensures var r := Switched(d, d.active, animate);
            && r.active == d.active && AllStay(d, r) && (r.last == d.last || r.last.None?)
  {
    var e := Readied(d, d.active);
    ReadiedKeeps(d, d.active);
    RememberedLeaves(e, d.active);
    EnteringInv(e, d.active);
    EnteredInv(e, d.active);
    RelayHomes(Entering(e, d.active), true);
    Ending(Entered(e, d.active));
  }

  // ------------------------------------------------------------------
  // The stack and the tail

  // A relayout brings the stack to the normal form of its weights, in its order.
  lemma RelayNormalizes(d: Desk)
    requires Inv(d)
    ensures var w, v := d.workspaces[d.active].windows, Relay(d).workspaces[d.active].windows;
            && IdsOf(Stack(v)) == IdsOf(Stack(w)) && WeightsOf(Stack(v)) == Normalized(WeightsOf(Stack(w)))
  {
    var w := d.workspaces[d.active];
    var u := NormalizedStack(w.windows);
    ReweighedStack(w.windows, Normalized(WeightsOf(Stack(w.windows))));
    var t := Stage(w.(windows := u), d.focus);
    if !(t.focus.Some? && Visible(t.w, t.focus.value)) && LastVisible(t.w).Some? {
      RaisedWeights(t, LastVisible(t.w).value);
    }
  }

  lemma RaisedWeights(s: Stage, id: nat)
    ensures var r := Focused(s, id, true);
            IdsOf(Stack(r.w.windows)) == IdsOf(Stack(s.w.windows))
            && WeightsOf(Stack(r.w.windows)) == WeightsOf(Stack(s.w.windows))
  {
    var r := Focused(s, id, true).w.windows;
    FocusedFrame(s, id, true);
    assert forall i :: 0 <= i < |r| ==> r[i].stackWeight == s.w.windows[i].stackWeight;
    TilesWeights(s.w.windows, r, |r|);
    assert r[..|r|] == r && s.w.windows[..|r|] == s.w.windows;
    SameStack(s.w.windows, r);
    TailWeights(TilesOf(s.w.windows, s.w.windows), TilesOf(r, r));
  }

  lemma TailWeights(a: seq<Entry>, b: seq<Entry>)
    requires WeightsOf(a) == WeightsOf(b)
    ensures WeightsOf(if a == [] then [] else a[1..]) == WeightsOf(if b == [] then [] else b[1..])
  {
    assert |a| == |b|;
    if a != [] {
      assert WeightsOf(a)[1..] == WeightsOf(a[1..]) && WeightsOf(b)[1..] == WeightsOf(b[1..]);
    }
  }

  lemma {:induction false} TilesWeights(ws: seq<Entry>, vs: seq<Entry>, n: nat)
    requires SameForest(ws, vs) && n <= |ws| && forall i :: 0 <= i < |ws| ==> vs[i].stackWeight == ws[i].stackWeight
    ensures WeightsOf(TilesOf(ws, ws[..n])) == WeightsOf(TilesOf(vs, vs[..n]))
  {
    if n > 0 {
      TilesWeights(ws, vs, n - 1);
      assert ws[..n][..n - 1] == ws[..n - 1] && vs[..n][..n - 1] == vs[..n - 1];
      SameTiled(ws, vs, n - 1);
    }
  }

  // One slot is kept past everything used, and no more (`TrimLeavesOneSlot`).
  ghost predicate OneSpare(d: Desk) {
    var end := Max(Max(Nav.UsedEnd(d.workspaces, Held(d)), d.active + 1), Max(d.predefined, 1));
    |d.workspaces| == Min(end + 1, Nav.MAX_WORKSPACES)
  }

  lemma TrimSpares(d: Desk)
    requires Inv(d)
    ensures OneSpare(Trim(d))
  {
    Nav.TrimLeavesOneSlot(d.workspaces, d.predefined, d.active, Held(d));
    Nav.TrimUse(d.workspaces, d.predefined, d.active, Held(d), Held(d));
  }

  lemma RelaySpares(d: Desk)
    requires d.active < |d.workspaces| && OneSpare(d)
    ensures OneSpare(Relay(d))
  {
    RelaidFrame(StageOf(d));
    SpareKept(d, Relay(d));
  }

  // The tail depends on how many windows each workspace has.
  lemma SpareKept(d: Desk, r: Desk)
    requires OneSpare(d) && r == d.(workspaces := r.workspaces, focus := r.focus)
    requires |r.workspaces| == |d.workspaces|
    requires forall i :: 0 <= i < |d.workspaces| ==> |r.workspaces[i].windows| == |d.workspaces[i].windows|
    ensures OneSpare(r)
  {
    SameUse(d.workspaces, r.workspaces, Held(d));
  }

  lemma SameUse(ws: seq<Workspace>, vs: seq<Workspace>, held: seq<nat>)
    requires |ws| == |vs| && forall i :: 0 <= i < |ws| ==> |ws[i].windows| == |vs[i].windows|
    ensures Nav.UsedEnd(ws, held) == Nav.UsedEnd(vs, held)
  {
  }

  // Closing, moving a family and switching leave the tail trimmed.
  lemma TailsTrimmed(d: Desk, id: nat, target: nat, animate: bool)
    requires Inv(d)
    ensures OneSpare(Closed(d, id))
    ensures FocusedWindow(d).Some? && target != d.active ==> OneSpare(FamilyMoved(d, target))
    ensures target < Nav.MAX_WORKSPACES ==> OneSpare(Switched(d, target, animate))
  {
    WithoutInv(d, id);
    ClosedSpares(Without(d, id));
    if FocusedWindow(d).Some? && target != d.active {
      FamilySpares(d, target);
    }
    if target < Nav.MAX_WORKSPACES {
      SwitchSpares(d, target, animate);
    }
  }

  lemma ClosedSpares(m: Desk)
    requires Inv(m)
    ensures Inv(Trim(m)) && OneSpare(Relay(Trim(m)))
  {
    TrimInv(m);
    TrimSpares(m);
    RelaySpares(Trim(m));
  }

  lemma FamilySpares(d: Desk, target: nat)
    requires Inv(d) && FocusedWindow(d).Some? && target != d.active
    ensures OneSpare(FamilyMoved(d, target))
  {
    if target < Nav.MAX_WORKSPACES {
      FamilyMovedIs(d, target);
      var e := Ensured(Idle(d), target).value;
      var ids := ComponentOf(e.workspaces[e.active].windows, d.focus.value);
      TransferredInv(e, e.active, target, ids);
      ClosedSpares(Transferred(e, e.active, target, ids));
    } else {
      IdleInv(d);
      CancelledInv(d);
      FewerHeld(SwipeCancelled(d), SwipeCancelled(d).(tracks := []));
      TrimSpares(SwipeCancelled(d).(tracks := []));
    }
  }

  lemma SwitchSpares(d: Desk, index: nat, animate: bool)
    requires Inv(d) && index < Nav.MAX_WORKSPACES
    ensures OneSpare(Switched(d, index, animate))
  {
    var e := Readied(d, index);
    ReadiedKeeps(d, index);
    EnteredInv(e, index);
    var d2 := Entered(e, index);
    AnimatedInv(d2, d.active, index);
    TrimSpares(d2);
    TrimSpares(d2.(tracks := Animated(d2.tracks, d.active, index)));
  }

  // So does opening a window, and refreshing one keeps the tail that way.
  lemma RefreshedSpares(d: Desk, id: nat, hints: Hints)
    requires Inv(d) && OneSpare(d)
    ensures OneSpare(Refreshed(d, id, hints))
  {
    var found := WorkspaceOf(d.workspaces, id);
    if found.Some? {
      var index, at := found.value, OrElse(ParentAt(d, id, hints), found.value);
      var d1, e, touched := RefreshSteps(d, id, hints, index, at);
      RehintedSpares(d, d1, index, at, e);
      RelaySpares(Rehinted(d1, index, at, e));
    }
  }

  lemma RehintedSpares(d: Desk, d1: Desk, index: nat, at: nat, e: Entry)
    requires Inv(d1) && at < |d1.workspaces| && index < |d.workspaces| && at < |d.workspaces| && Stored(d1, at, e)
    requires at == index ==> d1 == d && OneSpare(d)
    ensures OneSpare(Rehinted(d1, index, at, e))
  {
    var w := d1.workspaces[at];
    if at != index {
      assert Inv(With(d1, at, WithEntry(w, e))) by {
        assert Find(w.windows, e.id).value in w.windows;
        WithEntryTidy(w, e, d1.census);
        WithInv(d1, at, WithEntry(w, e));
      }
      TrimSpares(With(d1, at, WithEntry(w, e)));
    } else {
      SpareKept(d, With(d1, at, WithEntry(w, e)));
    }
  }

  lemma AddedSpares(d: Desk, child: nat, hints: Hints, takesFocus: bool)
    requires Inv(d)
    ensures OneSpare(Added(d, child, hints, takesFocus))
  {
    var d1 := Launched(d, child);
    LaunchInRange(d, child);
    OpenedInv(d, LaunchIndex(d, child));
    TrimSpares(Opened(d, LaunchIndex(d, child)));
    LaunchedInv(d, child);
    RefreshedInv(d1, d.nextId, hints);
    RefreshedSpares(d1, d.nextId, hints);
    HomeSpares(Refreshed(d1, d.nextId, hints), d.nextId, takesFocus);
  }

  lemma HomeSpares(d: Desk, id: nat, takesFocus: bool)
    requires Inv(d) && OneSpare(d)
    ensures OneSpare(MadeHome(d, id, takesFocus))
  {
    var r := RememberedIn(d, id);
    RememberedInInv(d, id);
    SpareKept(d, r);
    RelaySpares(r);
    FocusSpares(Relay(r), id);
  }

  lemma FocusSpares(d: Desk, id: nat)
    requires d.active < |d.workspaces| && OneSpare(d)
    ensures OneSpare(FocusIn(d, id, true))
  {
    FocusedFrame(StageOf(d), id, true);
    SpareKept(d, FocusIn(d, id, true));
  }
}
