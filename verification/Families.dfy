// Where moving the focused window's family to another workspace leaves everything.
module Families {
  import opened Common
  import opened Model
  import opened Focus
  import opened Sifting
  import opened Desk
  import opened Transfers
  import opened Effects
  import Nav = Navigation

  // ------------------------------------------------------------------
  // Where every window is

  // Steps that leave every window where it was.
  ghost predicate AllStay(d: Desk, r: Desk) {
    forall x :: WorkspaceOf(r.workspaces, x) == WorkspaceOf(d.workspaces, x)
  }

  lemma IdleHomes(d: Desk)
    requires Inv(d)
    ensures Inv(Idle(d)) && AllStay(d, Idle(d))
  {
    IdleInv(d);
    CancelledHomes(d);
    CancelledHomes(SwipeCancelled(d));
  }

  lemma CancelledHomes(d: Desk)
    requires Inv(d)
    ensures Inv(SwipeCancelled(d)) && AllStay(d, SwipeCancelled(d)) && AllStay(d, MotionCancelled(d))
  {
    CancelledInv(d);
    FewerHeld(d, d.(preview := None));
    FewerHeld(d, d.(tracks := []));
    TrimHomes(d.(tracks := []));
    if d.preview.Some? {
      TrimHomes(d.(preview := None));
    }
  }

  lemma EnsuredHomes(d: Desk, index: nat)
    requires Inv(d) && Ensured(d, index).Some?
    ensures Inv(Ensured(d, index).value) && AllStay(d, Ensured(d, index).value)
  {
    EnsuredInv(d, index);
    var e := Ensured(d, index).value;
    forall x ensures WorkspaceOf(e.workspaces, x) == WorkspaceOf(d.workspaces, x) {
      var at := WorkspaceOf(d.workspaces, x);
      if at.Some? {
        UniqueHome(e, x, at.value);
      }
    }
  }

  lemma TransferredHome(d: Desk, target: nat, ids: set<nat>, x: nat)
    requires Inv(d) && target < |d.workspaces| && target != d.active
    ensures var m := Transferred(d, d.active, target, ids);
            Inv(m) && WorkspaceOf(m.workspaces, x)
              == if x in Ids(d.workspaces[d.active].windows) then Some(if x in ids then target else d.active)
                 else WorkspaceOf(d.workspaces, x)
  {
    var m := Transferred(d, d.active, target, ids);
    TransferredInv(d, d.active, target, ids);
    if x in Ids(d.workspaces[d.active].windows) {
      TransferredIds(d, target, ids, x);
      UniqueHome(m, x, if x in ids then target else d.active);
    } else {
      OutsiderHome(d, m, target, ids, x);
    }
  }

  lemma OutsiderHome(d: Desk, m: Desk, target: nat, ids: set<nat>, x: nat)
    requires Inv(d) && target < |d.workspaces| && target != d.active && x !in Ids(d.workspaces[d.active].windows)
    requires m == Transferred(d, d.active, target, ids) && Inv(m)
    ensures WorkspaceOf(m.workspaces, x) == WorkspaceOf(d.workspaces, x)
  {
    var w, v, home := d.workspaces[d.active], d.workspaces[target], WorkspaceOf(d.workspaces, x);
    PartIds(w, ids, true);
    PartIds(w, ids, false);
    MergedIds(v, Part(w, ids, true));
    forall i | 0 <= i < |d.workspaces|
      ensures Find(m.workspaces[i].windows, x).Some? == Find(d.workspaces[i].windows, x).Some?
    {
      FoundId(m.workspaces[i].windows, x);
      FoundId(d.workspaces[i].windows, x);
    }
    if home.Some? {
      UniqueHome(m, x, home.value);
    }
  }

  lemma ComponentMovedHome(d: Desk, target: nat, focused: nat, x: nat)
    requires Inv(d) && target < |d.workspaces| && target != d.active
    ensures var ws, r := d.workspaces[d.active].windows, ComponentMoved(d, target, focused);
            r.active == d.active && WorkspaceOf(r.workspaces, x)
              == if x in Ids(ws) then Some(if x in ComponentOf(ws, focused) then target else d.active)
                 else WorkspaceOf(d.workspaces, x)
  {
    var ids := ComponentOf(d.workspaces[d.active].windows, focused);
    var m := Transferred(d, d.active, target, ids);
    TransferredInv(d, d.active, target, ids);
    TransferredHome(d, target, ids, x);
    TrimHomes(m);
    RelayHomes(Trim(m), true);
  }

  // A move spelled out: the target is made sure of, then the component goes there.
  lemma FamilyMovedIs(d: Desk, target: nat)
    requires Inv(d) && FocusedWindow(d).Some? && target != d.active && target < Nav.MAX_WORKSPACES
    ensures Inv(Idle(d)) && Idle(d).active == d.active && Idle(d).focus == d.focus
    ensures Ensured(Idle(d), target).Some?
    ensures var e := Ensured(Idle(d), target).value;
            && Inv(e) && target < |e.workspaces| && e.active == d.active && e.focus == d.focus
            && e.workspaces[d.active] == d.workspaces[d.active] && AllStay(d, e)
            && FamilyMoved(d, target) == ComponentMoved(e, target, d.focus.value)
  {
    IdleInv(d);
    IdleHomes(d);
    EnsuredInv(Idle(d), target);
    EnsuredHomes(Idle(d), target);
  }

  // The focused window's transient component is on the target afterwards, all
  // of it, and every other window is where it was.
  lemma FamilyMovedHomes(d: Desk, target: nat, x: nat)
    requires Inv(d) && FocusedWindow(d).Some? && target != d.active && target < Nav.MAX_WORKSPACES
    ensures var ws, r := d.workspaces[d.active].windows, FamilyMoved(d, target);
            && r.active == d.active && target < |r.workspaces|
            && WorkspaceOf(r.workspaces, d.focus.value) == Some(target)
            && WorkspaceOf(r.workspaces, x)
               == if x in ComponentOf(ws, d.focus.value) then Some(target) else WorkspaceOf(d.workspaces, x)
  {
    FamilyMovedIs(d, target);
    var e, focused := Ensured(Idle(d), target).value, d.focus.value;
    FoundId(d.workspaces[d.active].windows, focused);
    ComponentIsLeast(d.workspaces[d.active].windows, focused);
    ComponentMovedHome(e, target, focused, x);
    ComponentMovedHome(e, target, focused, focused);
    if x in Ids(d.workspaces[d.active].windows) {
      FoundId(d.workspaces[d.active].windows, x);
      UniqueHome(d, x, d.active);
    }
  }

  // Nothing is moved without a managed focus, to the same workspace, or past the cap.
  lemma FamilyStays(d: Desk, target: nat)
    requires Inv(d) && (FocusedWindow(d).None? || target == d.active || target >= Nav.MAX_WORKSPACES)
    ensures AllStay(d, FamilyMoved(d, target)) && FamilyMoved(d, target).focus == d.focus
    ensures FocusedWindow(d).None? || target == d.active ==> FamilyMoved(d, target) == d
    ensures FocusedWindow(d).Some? <==> d.focus.Some? && d.focus.value in Ids(d.workspaces[d.active].windows)
  {
    if d.focus.Some? {
      FoundId(d.workspaces[d.active].windows, d.focus.value);
    }
    if FocusedWindow(d).Some? && target != d.active {
      IdleInv(d);
      IdleHomes(d);
    }
  }

  // ------------------------------------------------------------------
  // What travels with the windows

  // v is into with what the chosen windows of from bring along: their entries,
  // recency, minimized ids and expanded owners, behind what was there.
  ghost predicate Receives(into: Workspace, from: Workspace, ids: set<nat>, v: Workspace) {
    && Appended(into.focusHistory, from.focusHistory, ids, v.focusHistory)
    && Appended(into.minimizedHistory, from.minimizedHistory, ids, v.minimizedHistory)
    && into.windows <= v.windows
    && Sifted(v.windows[|into.windows|..], from.windows, MarksOf(from.windows, ids, true))
    && v.fullscreen == (if OwnedBy(from.fullscreen, ids) then from.fullscreen else into.fullscreen)
    && v.maximized == (if OwnedBy(from.maximized, ids) then from.maximized else into.maximized)
    && v.masterRatio == into.masterRatio
  }

  // v is from without the chosen windows.
  ghost predicate Remains(from: Workspace, ids: set<nat>, v: Workspace) {
    && Sifted(v.windows, from.windows, MarksOf(from.windows, ids, false))
    && Sifted(v.focusHistory, from.focusHistory, Marks(from.focusHistory, ids, false))
    && Sifted(v.minimizedHistory, from.minimizedHistory, Marks(from.minimizedHistory, ids, false))
    && v.fullscreen == (if OwnedBy(from.fullscreen, ids) then None else from.fullscreen)
    && v.maximized == (if OwnedBy(from.maximized, ids) then None else from.maximized)
    && v.masterRatio == from.masterRatio
  }

  ghost predicate OwnedBy(owner: Option<nat>, ids: set<nat>) {
    owner.Some? && owner.value in ids
  }

  // now is before followed by the chosen ids of another list, in their order.
  ghost predicate Appended(before: seq<nat>, other: seq<nat>, ids: set<nat>, now: seq<nat>) {
    before <= now && Sifted(now[|before|..], other, Marks(other, ids, true))
  }

  lemma PickAppended(before: seq<nat>, other: seq<nat>, ids: set<nat>)
    ensures Appended(before, other, ids, before + PickIds(other, ids, true))
  {
    PickIdsSifts(other, ids, true);
    assert (before + PickIds(other, ids, true))[|before|..] == PickIds(other, ids, true);
  }

  lemma MergedReceives(into: Workspace, from: Workspace, ids: set<nat>)
    ensures Receives(into, from, ids, Merged(into, Part(from, ids, true)))
  {
    PickAppended(into.focusHistory, from.focusHistory, ids);
    PickAppended(into.minimizedHistory, from.minimizedHistory, ids);
    PickSifts(from.windows, ids, true);
    assert (into.windows + Pick(from.windows, ids, true))[|into.windows|..] == Pick(from.windows, ids, true);
  }

  lemma PartRemains(from: Workspace, ids: set<nat>)
    ensures Remains(from, ids, Part(from, ids, false))
  {
    PickSifts(from.windows, ids, false);
    PickIdsSifts(from.focusHistory, ids, false);
    PickIdsSifts(from.minimizedHistory, ids, false);
  }

  // What the move finds at its target: the workspace that is there, or an empty
  // one where there is none or a windowless one was trimmed.
  ghost predicate Found(d: Desk, target: nat, into: Workspace) {
    || (target < |d.workspaces| && into == d.workspaces[target])
    || (into == EMPTY_WORKSPACE && (target < |d.workspaces| ==> d.workspaces[target].windows == []))
  }

  // Override-redirect windows follow the windows they belong to.
  ghost predicate Escorted(was: seq<Unmanaged>, now: seq<Unmanaged>, ids: set<nat>, target: nat) {
    |now| == |was|
    && forall i :: 0 <= i < |was| ==>
         now[i] == if OwnedBy(was[i].parent, ids) then was[i].(workspace := target) else was[i]
  }

  // Workspace i after some steps that only trim and grow the list.
  ghost predicate Seen(d: Desk, r: Desk, i: nat) {
    if i < |r.workspaces| then Found(d, i, r.workspaces[i])
    else i < |d.workspaces| ==> d.workspaces[i].windows == []
  }

  lemma SeenAgain(a: Desk, b: Desk, c: Desk, i: nat)
    requires Seen(a, b, i) && Seen(b, c, i)
    ensures Seen(a, c, i)
  {
  }

  lemma TrimSeen(d: Desk, i: nat)
    requires Inv(d)
    ensures Seen(d, Trim(d), i)
  {
    Nav.TrimKeepsUsed(d.workspaces, d.predefined, d.active, Held(d));
  }

  lemma IdleSeen(d: Desk, i: nat)
    requires Inv(d)
    ensures Seen(d, Idle(d), i)
  {
    var s := SwipeCancelled(d);
    CancelledInv(d);
    FewerHeld(d, d.(preview := None));
    FewerHeld(s, s.(tracks := []));
    TrimSeen(d.(preview := None), i);
    TrimSeen(s.(tracks := []), i);
    SeenAgain(d, s, Idle(d), i);
  }

  lemma TransferTravels(d: Desk, source: nat, target: nat, ids: set<nat>)
    requires source < |d.workspaces| && target < |d.workspaces| && target != source
    ensures var m, from := Transferred(d, source, target, ids), d.workspaces[source];
            && Receives(d.workspaces[target], from, ids, m.workspaces[target])
            && Remains(from, ids, m.workspaces[source]) && Escorted(d.unmanaged, m.unmanaged, ids, target)
  {
    MergedReceives(d.workspaces[target], d.workspaces[source], ids);
    PartRemains(d.workspaces[source], ids);
  }

  // Trimming and laying out keep what arrived on another workspace.
  lemma ArrivalKept(m: Desk, target: nat)
    requires Inv(m) && target < |m.workspaces| && target != m.active && m.workspaces[target].windows != []
    ensures var r := Relay(Trim(m));
            && target < |r.workspaces| && m.active < |r.workspaces| && r.workspaces[target] == m.workspaces[target]
            && Settles(m.workspaces[m.active], m.focus, r.workspaces[m.active], r.focus)
            && r.unmanaged == m.unmanaged && r.tracks == m.tracks && r.preview == m.preview
  {
    TrimInv(m);
    TrimKeepsWindows(m, target);
    RelaidSettles(StageOf(Trim(m)));
  }

  lemma ComponentTravels(d: Desk, target: nat, focused: nat)
    requires Inv(d) && target < |d.workspaces| && target != d.active
    requires focused in Ids(d.workspaces[d.active].windows)
    ensures var from, r := d.workspaces[d.active], ComponentMoved(d, target, focused);
            var ids := ComponentOf(from.windows, focused);
            && target < |r.workspaces| && d.active < |r.workspaces| && r.tracks == d.tracks && r.preview == d.preview
            && Escorted(d.unmanaged, r.unmanaged, ids, target)
            && Receives(d.workspaces[target], from, ids, r.workspaces[target])
            && (exists rest :: Remains(from, ids, rest) && Settles(rest, d.focus, r.workspaces[d.active], r.focus))
  {
    var ids := ComponentOf(d.workspaces[d.active].windows, focused);
    var m := Transferred(d, d.active, target, ids);
    TransferredInv(d, d.active, target, ids);
    assert m.workspaces[target].windows != [] by {
      ComponentIsLeast(d.workspaces[d.active].windows, focused);
      TransferredIds(d, target, ids, focused);
    }
    ArrivalKept(m, target);
    TransferTravels(d, d.active, target, ids);
    assert Remains(d.workspaces[d.active], ids, m.workspaces[d.active]);
  }

  // The component takes its bookkeeping along, in order; what stays is laid out
  // again, and the newest visible window left behind gets the focus.
  lemma FamilyMovedContents(d: Desk, target: nat)
    requires Inv(d) && FocusedWindow(d).Some? && target != d.active && target < Nav.MAX_WORKSPACES
    ensures var from, r := d.workspaces[d.active], FamilyMoved(d, target);
            var ids := ComponentOf(from.windows, d.focus.value);
            && target < |r.workspaces| && d.active < |r.workspaces| && r.tracks == [] && r.preview == None
            && Escorted(d.unmanaged, r.unmanaged, ids, target)
            && (exists into :: Found(d, target, into) && Receives(into, from, ids, r.workspaces[target]))
            && (exists rest :: Remains(from, ids, rest) && Settles(rest, d.focus, r.workspaces[d.active], r.focus))
  {
    FamilyMovedIs(d, target);
    var e, from := Ensured(Idle(d), target).value, d.workspaces[d.active];
    assert Found(d, target, e.workspaces[target]) by { IdleSeen(d, target); }
    FoundId(from.windows, d.focus.value);
    ComponentTravels(e, target, d.focus.value);
  }
}
