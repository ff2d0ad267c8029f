// Operations that span workspaces: opening, closing, moving families, switching.
module Transfers {
  import opened Common
  import opened Model
  import opened ParentGraph
  import opened Tiling
  import opened Visibility
  import opened Focus
  import opened Cycling
  import opened Ring
  import opened Desk
  import opened Operations
  import opened Sifting
  import Nav = Navigation

  // ------------------------------------------------------------------
  // Opening a window

  function NewEntry(id: nat): Entry {
    Entry(id, id, false, None, None, WEIGHT_UNIT, None, false, None, false, None)
  }

  function Opened(d: Desk, index: nat): Desk
    requires index < |d.workspaces|
  {
    var w := d.workspaces[index];
    With(d, index, w.(windows := w.windows + [NewEntry(d.nextId)])).(nextId := d.nextId + 1,
        census := Joined(d.census, d.nextId))
  }

  lemma OpenedInv(d: Desk, index: nat)
    requires Inv(d) && index < |d.workspaces|
    ensures Inv(Opened(d, index)) && Find(Opened(d, index).workspaces[index].windows, d.nextId).Some?
    ensures index != d.active ==> Opened(d, index).workspaces[d.active] == d.workspaces[d.active]
  {
    var w, r := d.workspaces[index], Opened(d, index);
    var v := r.workspaces[index];
    forall i, x | 0 <= i < |d.workspaces| && x in Ids(d.workspaces[i].windows) ensures x < d.nextId {
      assert Entries(d.workspaces[i], d.census);
    }
    WithNewEntry(w, d.nextId, d.census);
    assert Ids(v.windows) == Ids(w.windows) + {d.nextId};
    forall i | 0 <= i < |d.workspaces| ensures Tidy(r.workspaces[i]) && Entries(r.workspaces[i], r.census) {
      assert Entries(d.workspaces[i], d.census);
    }
  }

  lemma WithNewEntry(w: Workspace, id: nat, census: Census)
    requires Tidy(w) && Entries(w, census) && id !in Ids(w.windows) && |census.alive| <= census.peak
    ensures var v := w.(windows := w.windows + [NewEntry(id)]);
            && Tidy(v) && Entries(v, Joined(census, id)) && Ids(v.windows) == Ids(w.windows) + {id}
            && Find(v.windows, id).Some?
  {
    var e, v := NewEntry(id), w.(windows := w.windows + [NewEntry(id)]);
    assert forall f :: f in v.windows <==> f in w.windows || f == e;
    assert id in Joined(census, id).alive;
    assert |Joined(census, id).alive| >= 1;
  }

  function RememberedIn(d: Desk, id: nat): Desk {
    match WorkspaceOf(d.workspaces, id)
    case None => d
    case Some(i) => With(d, i,
        d.workspaces[i].(focusHistory := PickIds(d.workspaces[i].focusHistory, {id}, false) + [id]))
  }

  lemma RememberedInInv(d: Desk, id: nat)
    requires Inv(d)
    ensures Inv(RememberedIn(d, id))
    ensures SameFrame(d.workspaces[d.active], RememberedIn(d, id).workspaces[d.active])
    ensures FocusOk(d) ==> FocusOk(RememberedIn(d, id))
  {
    var at := WorkspaceOf(d.workspaces, id);
    if at.Some? {
      var w := RememberedIn(d, id).workspaces[at.value];
      assert Tidy(w);
      WithInv(d, at.value, w);
    }
    if FocusOk(d) {
      SoundByFrame(StageOf(d), RememberedIn(d, id).workspaces[d.active]);
    }
  }

  // The launch workspace of a known child process, else the active one.
  function LaunchIndex(d: Desk, child: nat): nat {
    if child < |d.children| then d.children[child] else d.active
  }

  ghost function MadeHome(d: Desk, id: nat, takesFocus: bool): Desk
    requires Inv(d)
  {
    RememberedInInv(d, id);
    var r := RememberedIn(d, id);
    if WorkspaceOf(d.workspaces, id) != Some(d.active) then r
    else if takesFocus then FocusIn(Relay(r), id, true)
    else Relay(r)
  }

  // The window on the workspace it was launched from.
  ghost function Launched(d: Desk, child: nat): Desk
    requires Inv(d)
  {
    LaunchInRange(d, child);
    OpenedInv(d, LaunchIndex(d, child));
    Trim(Opened(d, LaunchIndex(d, child)))
  }

  ghost function Added(d: Desk, child: nat, hints: Hints, takesFocus: bool): Desk
    requires Inv(d)
  {
    LaunchedInv(d, child);
    RefreshedInv(Launched(d, child), d.nextId, hints);
    MadeHome(Refreshed(Launched(d, child), d.nextId, hints), d.nextId, takesFocus)
  }

  lemma LaunchedInv(d: Desk, child: nat)
    requires Inv(d)
    ensures var r, index := Launched(d, child), LaunchIndex(d, child);
            && Inv(r) && index < |r.workspaces| && Find(r.workspaces[index].windows, d.nextId).Some?
            && r.active == d.active && r.focus == d.focus && r.nextId == d.nextId + 1
            && (index != d.active ==> r.workspaces[d.active] == d.workspaces[d.active])
  {
    LaunchInRange(d, child);
    OpenedInv(d, LaunchIndex(d, child));
    TrimInv(Opened(d, LaunchIndex(d, child)));
  }

  lemma LaunchInRange(d: Desk, child: nat)
    requires Inv(d)
    ensures LaunchIndex(d, child) < |d.workspaces|
  {
    if child < |d.children| {
      assert d.children[child] in Held(d);
    }
  }

  lemma MadeHomeInv(d: Desk, id: nat, takesFocus: bool)
    requires Inv(d)
    ensures Inv(MadeHome(d, id, takesFocus))
    ensures FocusOk(d) || WorkspaceOf(d.workspaces, id) == Some(d.active) ==> FocusOk(MadeHome(d, id, takesFocus))
  {
    RememberedInInv(d, id);
    var r := RememberedIn(d, id);
    RelayInv(r);
    FocusInInv(Relay(r), id, true);
  }

  lemma AddedInv(d: Desk, child: nat, hints: Hints, takesFocus: bool)
    requires Inv(d)
    ensures Inv(Added(d, child, hints, takesFocus))
    ensures FocusOk(d) ==> FocusOk(Added(d, child, hints, takesFocus))
  {
    var index, d1 := LaunchIndex(d, child), Launched(d, child);
    LaunchedInv(d, child);
    RefreshedInv(d1, d.nextId, hints);
    if index == d.active {
      UniqueHome(d1, d.nextId, index);
      RefreshedKeepsOrSettles(d1, d.nextId, hints);
    }
    MadeHomeInv(Refreshed(d1, d.nextId, hints), d.nextId, takesFocus);
    if FocusOk(d) && index != d.active {
      SoundByFrame(StageOf(d), d1.workspaces[d.active]);
    }
  }

  lemma UniqueHome(d: Desk, id: nat, i: nat)
    requires Inv(d) && i < |d.workspaces| && Find(d.workspaces[i].windows, id).Some?
    ensures WorkspaceOf(d.workspaces, id) == Some(i)
  {
    var j := WorkspaceOf(d.workspaces, id).value;
    FoundId(d.workspaces[i].windows, id);
    FoundId(d.workspaces[j].windows, id);
    assert !(i < j) && !(j < i);
  }

  // Hints that keep a window of the active workspace in place and its entry as it is.
  predicate Unhinted(d: Desk, id: nat, hints: Hints)
    requires d.active < |d.workspaces| && Find(d.workspaces[d.active].windows, id).Some?
  {
    var e, home := Find(d.workspaces[d.active].windows, id).value, ParentAt(d, id, hints);
    && OrElse(home, d.active) == d.active
    && Hinted(e, hints, if home.Some? then hints.parent else None, d.output) == e
  }

  // Refreshing a window of the active workspace lays it out again, or changes nothing at all.
  lemma RefreshedKeepsOrSettles(d: Desk, id: nat, hints: Hints)
    requires Inv(d) && WorkspaceOf(d.workspaces, id) == Some(d.active)
    ensures if Unhinted(d, id, hints) then Refreshed(d, id, hints) == d else FocusOk(Refreshed(d, id, hints))
  {
    if Unhinted(d, id, hints) {
      SameEntry(d.workspaces[d.active], Find(d.workspaces[d.active].windows, id).value);
    } else {
      RefreshedSettles(d, id, hints);
    }
  }

  lemma RefreshedSettles(d: Desk, id: nat, hints: Hints)
    requires Inv(d) && WorkspaceOf(d.workspaces, id) == Some(d.active) && !Unhinted(d, id, hints)
    ensures FocusOk(Refreshed(d, id, hints))
  {
    var index := d.active;
    var at := OrElse(ParentAt(d, id, hints), index);
    FollowedInv(d, index, at, id);
    var d1 := Followed(d, index, at, id);
    var was := Find(d1.workspaces[at].windows, id).value;
    var e := Hinted(was, hints, if ParentAt(d, id, hints).Some? then hints.parent else None, d.output);
    RehintedInv(d, d1, index, at, was, e);
    RelayInv(Rehinted(d1, index, at, e));
  }

  // ------------------------------------------------------------------
  // Closing a window

  // The desktop without one window and its bookkeeping.
  function Without(d: Desk, id: nat): Desk {
    match WorkspaceOf(d.workspaces, id)
    case None => d
    case Some(i) => With(d, i, Part(d.workspaces[i], {id}, false)).(census := Departed(d.census, id))
  }

  lemma WithoutInv(d: Desk, id: nat)
    requires Inv(d)
    ensures Inv(Without(d, id)) && WorkspaceOf(Without(d, id).workspaces, id).None?
  {
    var at, r := WorkspaceOf(d.workspaces, id), Without(d, id);
    if at.Some? {
      PartTidy(d.workspaces[at.value], {id}, false);
      PartIds(d.workspaces[at.value], {id}, false);
      SubsetCardinality(r.census.alive, d.census.alive);
    }
    forall i | 0 <= i < |d.workspaces| ensures id !in Ids(r.workspaces[i].windows) {
      if Find(d.workspaces[i].windows, id).Some? {
        UniqueHome(d, id, i);
      }
    }
    forall i | 0 <= i < |r.workspaces| ensures Tidy(r.workspaces[i]) && Entries(r.workspaces[i], r.census) {
      assert Tidy(d.workspaces[i]) && Entries(d.workspaces[i], d.census);
      forall e | e in r.workspaces[i].windows ensures e.id in r.census.alive {
        assert e in d.workspaces[i].windows && e.id in Ids(r.workspaces[i].windows);
      }
    }
  }

  ghost function Closed(d: Desk, id: nat): Desk
    requires Inv(d)
  {
    WithoutInv(d, id);
    TrimInv(Without(d, id));
    Relay(Trim(Without(d, id)))
  }

  lemma ClosedInv(d: Desk, id: nat)
    requires Inv(d)
    ensures Inv(Closed(d, id)) && FocusOk(Closed(d, id))
  {
    WithoutInv(d, id);
    TrimInv(Without(d, id));
    RelayInv(Trim(Without(d, id)));
  }

  // ------------------------------------------------------------------
  // Moving the focused window's family

  ghost function ComponentOf(ws: seq<Entry>, start: nat): set<nat> {
    set id | id in Ids(ws) && forall t: set<nat> :: start in t && LinkClosed(ws, t) ==> id in t
  }

  lemma ComponentIsLeast(ws: seq<Entry>, start: nat)
    requires start in Ids(ws)
    ensures IsComponent(ws, start, ComponentOf(ws, start))
  {
  }

  lemma ComponentUnique(ws: seq<Entry>, start: nat, s: set<nat>)
    requires IsComponent(ws, start, s)
    ensures s == ComponentOf(ws, start)
  {
  }

  function SwipeCancelled(d: Desk): Desk {
    if d.preview.Some? then Trim(d.(preview := None)) else d
  }

  function MotionCancelled(d: Desk): Desk {
    Trim(d.(tracks := []))
  }

  lemma FewerHeld(d: Desk, e: Desk)
    requires Inv(d)
             && e == d.(tracks := e.tracks, preview := e.preview, children := e.children, unmanaged := e.unmanaged)
    requires forall h :: h in Held(e) ==> h in Held(d)
    ensures Inv(e)
  {
  }

  lemma CancelledInv(d: Desk)
    requires Inv(d)
    ensures Inv(SwipeCancelled(d)) && SwipeCancelled(d).workspaces[d.active] == d.workspaces[d.active]
    ensures Inv(MotionCancelled(d)) && MotionCancelled(d).workspaces[d.active] == d.workspaces[d.active]
  {
    FewerHeld(d, d.(preview := None));
    TrimInv(d.(preview := None));
    FewerHeld(d, d.(tracks := []));
    TrimInv(d.(tracks := []));
  }

  function Idle(d: Desk): Desk { MotionCancelled(SwipeCancelled(d)) }

  lemma IdleInv(d: Desk)
    requires Inv(d)
    ensures Inv(Idle(d)) && Idle(d).workspaces[d.active] == d.workspaces[d.active]
    ensures Idle(d).active == d.active && Idle(d).focus == d.focus && Idle(d).nextId == d.nextId
    ensures FocusOk(d) ==> FocusOk(Idle(d))
  {
    CancelledInv(d);
    CancelledInv(SwipeCancelled(d));
  }

  // The focused window, when it is managed on the active workspace.
  function FocusedWindow(d: Desk): Option<nat>
    requires d.active < |d.workspaces|
  {
    if d.focus.Some? && Find(d.workspaces[d.active].windows, d.focus.value).Some? then d.focus else None
  }

  // Move windows with everything that hangs on them, keeping override-redirect windows beside their parents.
  function Transferred(d: Desk, source: nat, target: nat, ids: set<nat>): Desk
    requires source < |d.workspaces| && target < |d.workspaces|
  {
    Moved(d, source, target, ids).(unmanaged := Rehosted(d.unmanaged, ids, target))
  }

  lemma TransferredInv(d: Desk, source: nat, target: nat, ids: set<nat>)
    requires Inv(d) && source < |d.workspaces| && target < |d.workspaces| && source != target
    ensures Inv(Transferred(d, source, target, ids)) && Inv(Trim(Transferred(d, source, target, ids)))
  {
    MovedInv(d, source, target, ids);
    var m := Moved(d, source, target, ids);
    RehostedInv(m, ids, target);
    TrimInv(m.(unmanaged := Rehosted(m.unmanaged, ids, target)));
  }

  // The transient component of a window, moved and laid out again.
  ghost function ComponentMoved(d: Desk, target: nat, focused: nat): Desk
    requires Inv(d) && target < |d.workspaces| && target != d.active
  {
    var ids := ComponentOf(d.workspaces[d.active].windows, focused);
    TransferredInv(d, d.active, target, ids);
    Relay(Trim(Transferred(d, d.active, target, ids)))
  }

  lemma ComponentMovedInv(d: Desk, target: nat, focused: nat)
    requires Inv(d) && target < |d.workspaces| && target != d.active
    ensures Inv(ComponentMoved(d, target, focused)) && FocusOk(ComponentMoved(d, target, focused))
  {
    var ids := ComponentOf(d.workspaces[d.active].windows, focused);
    TransferredInv(d, d.active, target, ids);
    RelayInv(Trim(Transferred(d, d.active, target, ids)));
  }

  // The component arrives whole and nothing else does: no parent link of the
  // source workspace is cut, whatever shape the parent graph has.
  lemma ComponentTravelsWhole(d: Desk, target: nat, focused: nat, id: nat)
    requires Inv(d) && target < |d.workspaces| && target != d.active
    requires focused in Ids(d.workspaces[d.active].windows) && id in Ids(d.workspaces[d.active].windows)
    ensures var ws := d.workspaces[d.active].windows;
            var m := Transferred(d, d.active, target, ComponentOf(ws, focused));
            && focused in Ids(m.workspaces[target].windows)
            && (id in Ids(m.workspaces[target].windows) <==> id in ComponentOf(ws, focused))
            && (id in Ids(m.workspaces[d.active].windows) <==> id !in ComponentOf(ws, focused))
            && (forall p :: p in Ids(ws) && ParentOf(ws, id) == Some(p) ==>
                  (id in Ids(m.workspaces[target].windows) <==> p in Ids(m.workspaces[target].windows)))
  {
    var ids := ComponentOf(d.workspaces[d.active].windows, focused);
    ComponentIsLeast(d.workspaces[d.active].windows, focused);
    TransferredIds(d, target, ids, focused);
    TransferredIds(d, target, ids, id);
    forall p | p in Ids(d.workspaces[d.active].windows) && ParentOf(d.workspaces[d.active].windows, id) == Some(p)
      ensures id in Ids(Transferred(d, d.active, target, ids).workspaces[target].windows)
          <==> p in Ids(Transferred(d, d.active, target, ids).workspaces[target].windows)
    {
      TransferredIds(d, target, ids, p);
    }
  }

  // Where a window of the active workspace is after a transfer.
  lemma TransferredIds(d: Desk, target: nat, ids: set<nat>, id: nat)
    requires Inv(d) && target < |d.workspaces| && target != d.active
    requires id in Ids(d.workspaces[d.active].windows)
    ensures var m := Transferred(d, d.active, target, ids);
            && (id in Ids(m.workspaces[target].windows) <==> id in ids)
            && (id in Ids(m.workspaces[d.active].windows) <==> id !in ids)
  {
    var w, v := d.workspaces[d.active], d.workspaces[target];
    PartIds(w, ids, true);
    PartIds(w, ids, false);
    MergedIds(v, Part(w, ids, true));
    assert Ids(w.windows) !! Ids(v.windows);
  }

  // The whole family of the focused window goes to the target.
  ghost function FamilyMoved(d: Desk, target: nat): Desk
    requires Inv(d)
  {
    if FocusedWindow(d).None? || d.active == target then d
    else
      IdleInv(d);
      match Ensured(Idle(d), target)
      case None => Idle(d)
      case Some(e) => EnsuredInv(Idle(d), target); ComponentMoved(e, target, d.focus.value)
  }

  lemma FamilyMovedInv(d: Desk, target: nat)
    requires Inv(d)
    ensures Inv(FamilyMoved(d, target))
    ensures FocusOk(d) ==> FocusOk(FamilyMoved(d, target))
  {
    if FocusedWindow(d).Some? && d.active != target {
      IdleInv(d);
      if Ensured(Idle(d), target).None? {
        assert FamilyMoved(d, target) == Idle(d);
      } else {
        var e := Ensured(Idle(d), target).value;
        MovedFromIdle(Idle(d), target, d.focus.value);
        assert FamilyMoved(d, target) == ComponentMoved(e, target, d.focus.value);
      }
    } else {
      assert FamilyMoved(d, target) == d;
    }
  }

  lemma MovedFromIdle(d: Desk, target: nat, focused: nat)
    requires Inv(d) && target != d.active && Ensured(d, target).Some?
    ensures var e := Ensured(d, target).value;
            && Inv(e) && target < |e.workspaces| && e.active == d.active
            && Inv(ComponentMoved(e, target, focused)) && FocusOk(ComponentMoved(e, target, focused))
  {
    EnsuredInv(d, target);
    ComponentMovedInv(Ensured(d, target).value, target, focused);
  }

  // A transfer conserves entries and their order: the source keeps the windows
  // not among ids, and those among them arrive, in their order, behind the
  // windows already there.
  lemma TransferConserves(d: Desk, source: nat, target: nat, ids: set<nat>)
    requires Inv(d) && source < |d.workspaces| && target < |d.workspaces| && source != target
    ensures var m := Transferred(d, source, target, ids);
            var from, into := d.workspaces[source].windows, d.workspaces[target].windows;
            var left, arrived := m.workspaces[source].windows, m.workspaces[target].windows;
            && multiset(left) + multiset(arrived) == multiset(from) + multiset(into)
            && into <= arrived && Sifted(left, from, MarksOf(from, ids, false))
            && Sifted(arrived[|into|..], from, MarksOf(from, ids, true))
            && (forall i :: 0 <= i < |d.workspaces| && i != source && i != target ==>
                  m.workspaces[i] == d.workspaces[i])
  {
    var from, into := d.workspaces[source].windows, d.workspaces[target].windows;
    PickSplits(from, ids);
    PickSifts(from, ids, false);
    PickSifts(from, ids, true);
    assert (into + Pick(from, ids, true))[|into|..] == Pick(from, ids, true);
  }

  // ------------------------------------------------------------------
  // Switching workspaces

  // The workspaces in motion once a switch starts moving.
  function Animated(tracks: seq<nat>, source: nat, target: nat): seq<nat> {
    [target] + PickIds(if source in tracks then tracks else tracks + [source], {target}, false)
  }

  function FocusRemembered(d: Desk): Desk {
    if d.focus.Some? then RememberedIn(d, d.focus.value) else d
  }

  // The workspace active, before it is laid out.
  function Entering(d: Desk, index: nat): Desk {
    FocusRemembered(d).(last := if index != d.active then Some(d.active) else d.last, active := index)
  }

  lemma EnteringInv(d: Desk, index: nat)
    requires Inv(d) && index < |d.workspaces|
    ensures Inv(Entering(d, index)) && |Entering(d, index).workspaces| == |d.workspaces|
  {
    if d.focus.Some? {
      RememberedInInv(d, d.focus.value);
    }
  }

  ghost function Entered(d: Desk, index: nat): Desk
    requires index < |d.workspaces|
  {
    Relay(Entering(d, index))
  }

  lemma EnteredInv(d: Desk, index: nat)
    requires Inv(d) && index < |d.workspaces|
    ensures Inv(Entered(d, index)) && FocusOk(Entered(d, index)) && Entered(d, index).active == index
    ensures |Entered(d, index).workspaces| == |d.workspaces|
  {
    EnteringInv(d, index);
    RelayInv(Entering(d, index));
  }

  ghost function Switched(d: Desk, index: nat, animate: bool): Desk
    requires Inv(d)
  {
    match Ensured(d, index)
    case None => d
    case Some(d1) =>
      EnsuredInv(d, index);
      CancelledInv(d1);
      EnsuredInv(SwipeCancelled(d1), index);
      var d2 := Entered(Ensured(SwipeCancelled(d1), index).value, index);
      Trim(if d.active != index && animate then d2.(tracks := Animated(d2.tracks, d.active, index)) else d2)
  }

  lemma AnimatedInv(d: Desk, source: nat, target: nat)
    requires Inv(d) && source < |d.workspaces| && target < |d.workspaces|
    ensures Inv(d.(tracks := Animated(d.tracks, source, target)))
  {
    var e := d.(tracks := Animated(d.tracks, source, target));
    forall h | h in Held(e) ensures h < |d.workspaces| {
      if h in e.tracks && h != target && h != source {
        assert h in d.tracks && h in Held(d);
      } else if h !in e.tracks {
        assert h in Held(d);
      }
    }
  }

  lemma SwitchedInv(d: Desk, index: nat, animate: bool)
    requires Inv(d)
    ensures Inv(Switched(d, index, animate))
    ensures index < Nav.MAX_WORKSPACES ==>
            FocusOk(Switched(d, index, animate)) && Switched(d, index, animate).active == index
    ensures index >= Nav.MAX_WORKSPACES ==> Switched(d, index, animate) == d
  {
    if Ensured(d, index).Some? {
      var d1 := Ensured(d, index).value;
      EnsuredInv(d, index);
      CancelledInv(d1);
      EnsuredInv(SwipeCancelled(d1), index);
      var e := Ensured(SwipeCancelled(d1), index).value;
      EnteredInv(e, index);
      var d2 := Entered(e, index);
      var d3 := d2.(tracks := Animated(d2.tracks, d.active, index));
      AnimatedInv(d2, d.active, index);
      TrimInv(d2);
      TrimInv(d3);
    }
  }

  // ------------------------------------------------------------------
  // Focus requests

  // Focusing by id switches to the window's workspace and clears overlays in its way.
  ghost function WindowFocused(d: Desk, id: nat, animate: bool): Desk
    requires Inv(d)
  {
    match WorkspaceOf(d.workspaces, id)
    case None => d
    case Some(i) =>
      if !ShownId(d.workspaces[i].windows, id) then d
      else
        SwitchedInv(d, i, animate);
        var e := if i != d.active then Switched(d, i, animate) else d;
        Staged(e, RevealedFocus(StageOf(e), id, true))
  }

  lemma RevealedInv(d: Desk, id: nat, remember: bool)
    requires Inv(d)
    ensures Inv(Staged(d, RevealedFocus(StageOf(d), id, remember)))
    ensures FocusOk(d) ==> FocusOk(Staged(d, RevealedFocus(StageOf(d), id, remember)))
  {
    if Visible(StageOf(d).w, id) {
      FocusInInv(d, id, remember);
    } else {
      var d1 := Uncovered(d);
      UncoveredInv(d);
      RelayInv(d1);
      FocusInInv(Relay(d1), id, remember);
      UncoveredStage(d, Relaid(Bare(StageOf(d))), Focused(Relaid(Bare(StageOf(d))), id, remember));
    }
  }

  // The active workspace without its overlays.
  ghost function Uncovered(d: Desk): Desk
    requires d.active < |d.workspaces|
  {
    With(d, d.active, Bare(StageOf(d)).w)
  }

  lemma UncoveredInv(d: Desk)
    requires Inv(d)
    ensures Inv(Uncovered(d)) && StageOf(Uncovered(d)) == Bare(StageOf(d))
  {
    assert Tidy(Bare(StageOf(d)).w);
    WithInv(d, d.active, Bare(StageOf(d)).w);
  }

  lemma UncoveredStage(d: Desk, s: Stage, t: Stage)
    requires d.active < |d.workspaces|
    ensures Staged(d, t) == Staged(Staged(Uncovered(d), s), t)
    ensures StageOf(Staged(Uncovered(d), s)) == s
  {
  }

  lemma WindowFocusedInv(d: Desk, id: nat, animate: bool)
    requires Inv(d)
    ensures Inv(WindowFocused(d, id, animate))
    ensures FocusOk(d) ==> FocusOk(WindowFocused(d, id, animate))
  {
    var at := WorkspaceOf(d.workspaces, id);
    if at.Some? && ShownId(d.workspaces[at.value].windows, id) {
      SwitchedInv(d, at.value, animate);
      var e := if at.value != d.active then Switched(d, at.value, animate) else d;
      RevealedInv(e, id, true);
    }
  }

  ghost function FocusCycled(d: Desk, mru: bool, step: Step): Desk
    requires Inv(d)
  {
    Staged(d, Cycled(StageOf(d), mru, step))
  }

  lemma FocusCycledInv(d: Desk, mru: bool, step: Step)
    requires Inv(d)
    ensures Inv(FocusCycled(d, mru, step))
    ensures FocusOk(d) ==> FocusOk(FocusCycled(d, mru, step))
  {
    var s := StageOf(d);
    var target := NextTarget(WalkOrder(s.w, mru), s.focus, step);
    if target.Some? {
      RevealedInv(d, target.value, false);
    } else {
      WithInv(d, d.active, s.w);
    }
  }
}
