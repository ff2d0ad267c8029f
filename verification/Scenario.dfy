// Small sessions followed step by step: two workspaces without minimized or
// expanded windows, described by their windows' links and recency lists.
module Scenario {
  import opened Common
  import opened Model
  import opened Raising
  import opened Visibility
  import opened Focus
  import opened Cycling
  import opened Desk
  import opened Operations
  import opened Transfers
  import opened Effects
  import Nav = Navigation

  // A window's links, its mode, and whether rules were applied to it.
  datatype Bone = Bone(id: nat, parent: Option<nat>, floats: bool, ruled: bool)

  // Under other hints: children float.
  function Linked(bone: Bone, parent: Option<nat>): Bone {
    bone.(parent := parent, floats := parent.Some?)
  }

  function BoneIds(bones: seq<Bone>): (r: seq<nat>)
    ensures |r| == |bones| && forall k :: 0 <= k < |r| ==> r[k] == bones[k].id
  {
    seq(|bones|, k requires 0 <= k < |bones| => bones[k].id)
  }

  ghost predicate Fleshed(e: Entry, bone: Bone) {
    && e.id == bone.id && e.parent == bone.parent && e.floating.Some? == bone.floats
    && !e.minimized && e.floatingOverride.None? && e.rulesApplied == bone.ruled
  }

  ghost predicate Plain(w: Workspace, bones: seq<Bone>, history: seq<nat>) {
    && |w.windows| == |bones| && (forall k :: 0 <= k < |bones| ==> Fleshed(w.windows[k], bones[k]))
    && UniqueIds(w.windows) && w.focusHistory == history && w.fullscreen.None? && w.maximized.None?
  }

  // Two windows lists that differ in weights and stacking only.
  ghost predicate Dressed(ws: seq<Entry>, vs: seq<Entry>) {
    |ws| == |vs|
    && forall k :: 0 <= k < |ws| ==>
         vs[k] == ws[k].(stackWeight := vs[k].stackWeight, stackingOrder := vs[k].stackingOrder)
  }

  lemma DressedTransitive(a: seq<Entry>, b: seq<Entry>, c: seq<Entry>)
    requires Dressed(a, b) && Dressed(b, c)
    ensures Dressed(a, c)
  {
  }

  lemma PlainDressed(w: Workspace, v: Workspace, bones: seq<Bone>, history: seq<nat>)
    requires Plain(w, bones, history) && Dressed(w.windows, v.windows)
    requires v.fullscreen.None? && v.maximized.None?
    ensures Plain(v, bones, v.focusHistory)
  {
    SameAcyclic(w.windows, v.windows);
  }

  lemma PlainVisible(w: Workspace, bones: seq<Bone>, history: seq<nat>, id: nat)
    requires Plain(w, bones, history)
    ensures Visible(w, id) <==> id in BoneIds(bones)
    ensures ShownId(w.windows, id) <==> id in BoneIds(bones)
    ensures Find(w.windows, id).Some? <==> id in BoneIds(bones)
  {
    if id in BoneIds(bones) {
      var k :| 0 <= k < |bones| && BoneIds(bones)[k] == id;
      assert Shown(w.windows, w.windows[k]) && w.windows[k] in w.windows;
      FindUnique(w.windows, w.windows[k]);
    }
    forall e | e in w.windows ensures e.id in BoneIds(bones) {
      var k :| 0 <= k < |w.windows| && w.windows[k] == e;
      assert BoneIds(bones)[k] == e.id;
    }
  }

  lemma PlainFocused(s: Stage, bones: seq<Bone>, history: seq<nat>, id: nat, remember: bool)
    requires Plain(s.w, bones, history) && id in BoneIds(bones)
    ensures var r := Focused(s, id, remember);
            && r.focus == Some(id) && Plain(r.w, bones, Recalled(history, id, remember))
            && Dressed(s.w.windows, r.w.windows)
  {
    PlainVisible(s.w, bones, history, id);
    FocusedLands(s, id, remember);
    PlainDressed(s.w, Focused(s, id, remember).w, bones, history);
  }

  // A relayout keeps a focus on the workspace, else falls back on recency.
  lemma PlainRelaid(s: Stage, bones: seq<Bone>, history: seq<nat>)
    requires Plain(s.w, bones, history)
    ensures var r, ids := Relaid(s), BoneIds(bones);
            && Dressed(s.w.windows, r.w.windows)
            && (s.focus.Some? && s.focus.value in ids ==> r.focus == s.focus && Plain(r.w, bones, history))
            && (bones == [] ==> r.focus.None? && Plain(r.w, bones, history))
            && (history != [] && history[|history| - 1] in ids && !(s.focus.Some? && s.focus.value in ids) ==>
                  r.focus == Some(history[|history| - 1])
                  && Plain(r.w, bones, Recalled(history, history[|history| - 1], true)))
  {
    var t := Renormalized(s);
    PlainDressed(s.w, t.w, bones, history);
    if s.focus.Some? {
      PlainVisible(t.w, bones, history, s.focus.value);
    }
    if LastVisible(t.w).Some? {
      PlainVisible(t.w, bones, history, LastVisible(t.w).value);
      PlainFocused(t, bones, history, LastVisible(t.w).value, true);
      DressedTransitive(s.w.windows, t.w.windows, Focused(t, LastVisible(t.w).value, true).w.windows);
    }
    if history != [] {
      PlainVisible(t.w, bones, history, history[|history| - 1]);
    }
  }

  // ------------------------------------------------------------------
  // Desks with two plain workspaces

  datatype View = View(bones: seq<Bone>, history: seq<nat>)

  ghost predicate Shows(w: Workspace, view: View) {
    Plain(w, view.bones, view.history)
  }

  // Two plain workspaces, the active one and the other, and nothing else in play.
  ghost predicate Stands(d: Desk, active: nat, focus: Option<nat>, here: View, there: View) {
    && active < 2 && |d.workspaces| >= 2 && d.active == active && d.focus == focus
    && Shows(d.workspaces[active], here) && Shows(d.workspaces[1 - active], there)
    && Held(d) == [] && d.preview.None?
  }

  // Ids go on being handed out and the output stays.
  ghost predicate Follows(d: Desk, r: Desk, spent: nat) {
    r.nextId == d.nextId + spent && r.output == d.output
  }

  lemma StandsTrimmed(d: Desk, active: nat, focus: Option<nat>, here: View, there: View)
    requires Inv(d) && Stands(d, active, focus, here, there)
    ensures Inv(Trim(d)) && Stands(Trim(d), active, focus, here, there) && Follows(d, Trim(d), 0)
  {
    TrimInv(d);
    Nav.TrimKeepsUsed(d.workspaces, d.predefined, d.active, Held(d));
  }

  lemma StandsHome(d: Desk, active: nat, focus: Option<nat>, here: View, there: View, id: nat)
    requires Inv(d) && Stands(d, active, focus, here, there)
    ensures id in BoneIds(here.bones) ==> WorkspaceOf(d.workspaces, id) == Some(active)
    ensures id in BoneIds(there.bones) ==> WorkspaceOf(d.workspaces, id) == Some(1 - active)
  {
    PlainVisible(d.workspaces[active], here.bones, here.history, id);
    PlainVisible(d.workspaces[1 - active], there.bones, there.history, id);
    if id in BoneIds(here.bones) {
      UniqueHome(d, id, active);
    }
    if id in BoneIds(there.bones) {
      UniqueHome(d, id, 1 - active);
    }
  }

  lemma StandsRelaid(d: Desk, active: nat, focus: Option<nat>, here: View, there: View)
    requires Inv(d) && Stands(d, active, focus, here, there) && focus.Some? && focus.value in BoneIds(here.bones)
    ensures Inv(Relay(d)) && Stands(Relay(d), active, focus, here, there) && Follows(d, Relay(d), 0)
  {
    assert Inv(Relay(d)) by { RelayInv(d); }
    PlainRelaid(StageOf(d), here.bones, here.history);
    StandsStaged(d, active, focus, here, there, Relaid(StageOf(d)), here);
  }

  // ------------------------------------------------------------------
  // Opening a window on the active workspace

  lemma StandsOpened(d: Desk, active: nat, focus: Option<nat>, here: View, there: View)
    requires Inv(d) && Stands(d, active, focus, here, there)
    ensures var r := Opened(d, active);
            && Inv(r) && Follows(d, r, 1)
            && Stands(r, active, focus, View(here.bones + [Bone(d.nextId, None, false, false)], here.history), there)
  {
    OpenedInv(d, active);
    assert Tidy(Opened(d, active).workspaces[active]);
  }

  lemma PlainReplaced(w: Workspace, before: seq<Bone>, history: seq<nat>, k: nat, e: Entry, bones: seq<Bone>)
    requires Plain(w, before, history) && k < |before| == |bones| && bones == before[k := bones[k]]
    requires Fleshed(e, bones[k]) && e.id == w.windows[k].id
    ensures Plain(WithEntry(w, e), bones, history)
  {
    FindUnique(w.windows, w.windows[k]);
    FindIsIndex(w.windows, e.id);
    assert IndexOf(w.windows, e.id).value == k;
    assert WithEntry(w, e).windows == w.windows[k := e];
  }

  // Storing a changed entry and laying the active workspace out.
  lemma StandsRehinted(d: Desk, active: nat, focus: Option<nat>, here: View, there: View, k: nat, e: Entry,
                       bones: seq<Bone>)
    requires Inv(d) && Stands(d, active, focus, here, there) && focus.Some? && focus.value in BoneIds(bones)
    requires k < |here.bones| == |bones| && bones == here.bones[k := bones[k]] && Fleshed(e, bones[k])
    requires e.id == d.workspaces[active].windows[k].id && e.stackWeight == d.workspaces[active].windows[k].stackWeight
    ensures var r := RelayIf(Rehinted(d, active, active, e), true);
            && Inv(r) && Follows(d, r, 0) && Stands(r, active, focus, View(bones, here.history), there)
  {
    var w := d.workspaces[active];
    FindUnique(w.windows, w.windows[k]);
    WithEntryTidy(w, e, d.census);
    WithInv(d, active, WithEntry(w, e));
    PlainReplaced(w, here.bones, here.history, k, e, bones);
    StandsRelaid(With(d, active, WithEntry(w, e)), active, focus, View(bones, here.history), there);
  }

  // Refreshing the window at k, whose parent is at home on the active workspace or not named.
  lemma StandsRefreshed(d: Desk, active: nat, focus: Option<nat>, here: View, there: View, k: nat, hints: Hints)
    requires Inv(d) && Stands(d, active, focus, here, there) && k < |here.bones| && !hints.floats
    requires hints.parent.Some? ==> hints.parent.value in BoneIds(here.bones) && hints.parent.value != here.bones[k].id
    requires focus.Some? && focus.value in BoneIds(here.bones)
    ensures var id := here.bones[k].id;
            var r := Refreshed(d, id, hints);
            && Inv(r) && Follows(d, r, 0)
            && Stands(r, active, focus, View(here.bones[k := Linked(here.bones[k], hints.parent)], here.history), there)
  {
    var bones, was := here.bones[k := Linked(here.bones[k], hints.parent)], d.workspaces[active].windows[k];
    var e := Hinted(was, hints, hints.parent, d.output);
    RefreshedHere(d, active, focus, here, there, k, hints);
    if e == was {
      assert bones == here.bones by { assert Linked(here.bones[k], hints.parent) == here.bones[k]; }
    } else {
      SameBoneIds(here.bones, k, Linked(here.bones[k], hints.parent));
      assert bones[k] == Linked(here.bones[k], hints.parent) && bones == here.bones[k := bones[k]];
      StandsRehinted(d, active, focus, here, there, k, e, bones);
    }
  }

  lemma SameBoneIds(bones: seq<Bone>, k: nat, bone: Bone)
    requires k < |bones| && bone.id == bones[k].id
    ensures BoneIds(bones[k := bone]) == BoneIds(bones)
  {
  }

  lemma RefreshedHere(d: Desk, active: nat, focus: Option<nat>, here: View, there: View, k: nat, hints: Hints)
    requires Inv(d) && Stands(d, active, focus, here, there) && k < |here.bones| && !hints.floats
    requires hints.parent.Some? ==> hints.parent.value in BoneIds(here.bones) && hints.parent.value != here.bones[k].id
    ensures var id, was := here.bones[k].id, d.workspaces[active].windows[k];
            var e := Hinted(was, hints, hints.parent, d.output);
            && e.id == id == was.id && Fleshed(was, here.bones[k]) && Fleshed(e, Linked(here.bones[k], hints.parent))
            && active < |Rehinted(d, active, active, e).workspaces| && Rehinted(d, active, active, e).active == active
            && Refreshed(d, id, hints) == if e == was then d else RelayIf(Rehinted(d, active, active, e), true)
  {
    var id, was := here.bones[k].id, d.workspaces[active].windows[k];
    assert BoneIds(here.bones)[k] == id;
    StandsHome(d, active, focus, here, there, id);
    if hints.parent.Some? {
      StandsHome(d, active, focus, here, there, hints.parent.value);
    }
    assert Find(d.workspaces[active].windows, id) == Some(was) by { FindUnique(d.workspaces[active].windows, was); }
    if Hinted(was, hints, hints.parent, d.output) == was {
      RefreshedKeepsOrSettles(d, id, hints);
    }
  }

  // A new window without a parent needs no relayout, whatever has focus.
  lemma StandsUnhinted(d: Desk, active: nat, focus: Option<nat>, here: View, there: View, k: nat, hints: Hints)
    requires Inv(d) && Stands(d, active, focus, here, there) && k < |here.bones| && !hints.floats && hints.parent.None?
    requires here.bones[k].parent.None? && !here.bones[k].floats
    ensures Refreshed(d, here.bones[k].id, hints) == d
  {
    var id, w := here.bones[k].id, d.workspaces[active];
    assert BoneIds(here.bones)[k] == id;
    StandsHome(d, active, focus, here, there, id);
    FindUnique(w.windows, w.windows[k]);
    RefreshedKeepsOrSettles(d, id, hints);
  }

  lemma StandsRemembered(d: Desk, active: nat, focus: Option<nat>, here: View, there: View, id: nat)
    requires Inv(d) && Stands(d, active, focus, here, there) && id in BoneIds(here.bones)
    ensures var r := RememberedIn(d, id);
            && Inv(r) && Follows(d, r, 0)
            && Stands(r, active, focus, View(here.bones, Recalled(here.history, id, true)), there)
  {
    StandsHome(d, active, focus, here, there, id);
    RememberedInInv(d, id);
  }

  lemma StandsFocused(d: Desk, active: nat, focus: Option<nat>, here: View, there: View, id: nat)
    requires Inv(d) && Stands(d, active, focus, here, there) && id in BoneIds(here.bones)
    ensures var r := FocusIn(d, id, true);
            && Inv(r) && Follows(d, r, 0)
            && Stands(r, active, Some(id), View(here.bones, Recalled(here.history, id, true)), there)
  {
    var s, view := StageOf(d), View(here.bones, Recalled(here.history, id, true));
    assert Inv(FocusIn(d, id, true)) by { FocusInInv(d, id, true); }
    assert Focused(s, id, true).focus == Some(id) && Shows(Focused(s, id, true).w, view) by {
      PlainFocused(s, here.bones, here.history, id, true);
    }
    StandsStaged(d, active, focus, here, there, Focused(s, id, true), view);
  }

  // Laid out with a focus elsewhere, a workspace gives it to the last in recency.
  lemma StandsRestored(d: Desk, active: nat, focus: Option<nat>, here: View, there: View)
    requires Inv(d) && Stands(d, active, focus, here, there)
    requires here.history != [] && here.history[|here.history| - 1] in BoneIds(here.bones)
    requires !(focus.Some? && focus.value in BoneIds(here.bones))
    ensures var last := here.history[|here.history| - 1];
            && Inv(Relay(d)) && Follows(d, Relay(d), 0)
            && Stands(Relay(d), active, Some(last), View(here.bones, Recalled(here.history, last, true)), there)
  {
    RelayInv(d);
    PlainRelaid(StageOf(d), here.bones, here.history);
    StandsStaged(d, active, focus, here, there, Relaid(StageOf(d)),
                 View(here.bones, Recalled(here.history, here.history[|here.history| - 1], true)));
  }

  lemma StandsStaged(d: Desk, active: nat, focus: Option<nat>, here: View, there: View, s: Stage, view: View)
    requires Stands(d, active, focus, here, there) && Shows(s.w, view)
    ensures Stands(Staged(d, s), active, s.focus, view, there)
  {
  }

  lemma StandsMadeHome(d: Desk, active: nat, focus: Option<nat>, here: View, there: View, id: nat)
    requires Inv(d) && Stands(d, active, focus, here, there) && id in BoneIds(here.bones) && id !in here.history
    requires focus.Some? ==> focus.value in BoneIds(here.bones)
    ensures var r := MadeHome(d, id, true);
            Inv(r) && Follows(d, r, 0) && Stands(r, active, Some(id), View(here.bones, here.history + [id]), there)
  {
    var d1, view := RememberedIn(d, id), View(here.bones, here.history + [id]);
    StandsHome(d, active, focus, here, there, id);
    PickNothing(here.history, id);
    PickLast(here.history, id);
    StandsRemembered(d, active, focus, here, there, id);
    if focus.Some? {
      StandsRelaid(d1, active, focus, view, there);
      StandsFocused(Relay(d1), active, focus, view, there, id);
    } else {
      StandsRestored(d1, active, focus, view, there);
      StandsFocused(Relay(d1), active, Some(id), view, there, id);
    }
  }

  // A new window, a child of an open one if the hints name one there.
  lemma StandsAdded(d: Desk, active: nat, focus: Option<nat>, here: View, there: View, hints: Hints)
    requires Inv(d) && Stands(d, active, focus, here, there) && !hints.floats && d.nextId !in here.history
    requires focus.Some? ==> focus.value in BoneIds(here.bones)
    requires hints.parent.Some? ==> hints.parent.value in BoneIds(here.bones) && focus.Some?
    ensures var id, r := d.nextId, Added(d, 0, hints, true);
            && Inv(r) && Follows(d, r, 1)
            && Stands(r, active, Some(id),
                      View(here.bones + [Bone(id, hints.parent, hints.parent.Some?, false)], here.history + [id]),
                          there)
  {
    var id, k := d.nextId, |here.bones|;
    var bones := here.bones + [Bone(id, hints.parent, hints.parent.Some?, false)];
    var d1 := Launched(d, 0);
    LaunchedInv(d, 0);
    assert LaunchIndex(d, 0) == active;
    StandsHinted(d, active, focus, here, there, hints);
    if focus.Some? {
      MoreBones(here.bones, bones[k], focus.value);
    }
    assert BoneIds(bones)[k] == id;
    StandsMadeHome(Refreshed(d1, id, hints), active, focus, View(bones, here.history), there, id);
  }

  lemma StandsHinted(d: Desk, active: nat, focus: Option<nat>, here: View, there: View, hints: Hints)
    requires Inv(d) && Stands(d, active, focus, here, there) && !hints.floats
    requires focus.Some? ==> focus.value in BoneIds(here.bones)
    requires hints.parent.Some? ==> hints.parent.value in BoneIds(here.bones) && focus.Some?
    ensures Inv(Launched(d, 0))
    ensures var id, r := d.nextId, Refreshed(Launched(d, 0), d.nextId, hints);
            && Inv(r) && Follows(d, r, 1)
            && Stands(r, active, focus,
                View(here.bones + [Bone(id, hints.parent, hints.parent.Some?, false)], here.history), there)
  {
    var id, k := d.nextId, |here.bones|;
    var bare := View(here.bones + [Bone(id, None, false, false)], here.history);
    var d1 := Launched(d, 0);
    StandsLaunched(d, active, focus, here, there);
    if hints.parent.None? {
      StandsUnhinted(d1, active, focus, bare, there, k, hints);
    } else {
      NewId(d, active, focus, here, there);
      StandsAttached(d1, active, focus, here, there, bare.bones[k], hints);
    }
  }

  lemma StandsAttached(d: Desk, active: nat, focus: Option<nat>, here: View, there: View, bone: Bone, hints: Hints)
    requires Inv(d) && Stands(d, active, focus, View(here.bones + [bone], here.history), there) && !hints.floats
    requires focus.Some? && focus.value in BoneIds(here.bones) && bone.id !in BoneIds(here.bones)
    requires hints.parent.Some? && hints.parent.value in BoneIds(here.bones)
    ensures var r := Refreshed(d, bone.id, hints);
            && Inv(r) && Follows(d, r, 0)
            && Stands(r, active, focus, View(here.bones + [Linked(bone, hints.parent)], here.history), there)
  {
    var k, bare := |here.bones|, View(here.bones + [bone], here.history);
    MoreBones(here.bones, bone, hints.parent.value);
    MoreBones(here.bones, bone, focus.value);
    assert bare.bones[k] == bone;
    assert bare.bones[k := Linked(bone, hints.parent)] == here.bones + [Linked(bone, hints.parent)];
    StandsRefreshed(d, active, focus, bare, there, k, hints);
  }

  lemma StandsLaunched(d: Desk, active: nat, focus: Option<nat>, here: View, there: View)
    requires Inv(d) && Stands(d, active, focus, here, there)
    ensures var r := Launched(d, 0);
            && Inv(r) && Follows(d, r, 1)
            && Stands(r, active, focus, View(here.bones + [Bone(d.nextId, None, false, false)], here.history), there)
  {
    var bare := View(here.bones + [Bone(d.nextId, None, false, false)], here.history);
    StandsOpened(d, active, focus, here, there);
    StandsTrimmed(Opened(d, active), active, focus, bare, there);
    assert LaunchIndex(d, 0) == active;
  }

  lemma MoreBones(bones: seq<Bone>, bone: Bone, id: nat)
    requires id in BoneIds(bones)
    ensures id in BoneIds(bones + [bone])
  {
    var k :| 0 <= k < |bones| && BoneIds(bones)[k] == id;
    assert BoneIds(bones + [bone])[k] == id;
  }

  lemma NewId(d: Desk, active: nat, focus: Option<nat>, here: View, there: View)
    requires Inv(d) && Stands(d, active, focus, here, there)
    ensures d.nextId !in BoneIds(here.bones)
  {
    forall k | 0 <= k < |here.bones| ensures BoneIds(here.bones)[k] != d.nextId {
      assert d.workspaces[active].windows[k] in d.workspaces[active].windows;
    }
  }

  // ------------------------------------------------------------------
  // Switching to the other workspace

  // An entered workspace gives the focus to its last in recency, if it has any window.
  ghost predicate Enterable(view: View) {
    view.bones == [] || (view.history != [] && view.history[|view.history| - 1] in BoneIds(view.bones))
  }

  function EnteredFocus(view: View): Option<nat> {
    if view.bones == [] || view.history == [] then None else Some(view.history[|view.history| - 1])
  }

  function EnteredView(view: View): View {
    if view.bones == [] || view.history == [] then view
    else View(view.bones, Recalled(view.history, view.history[|view.history| - 1], true))
  }

  // The workspace left remembers its focus.
  lemma StandsSwitched(d: Desk, active: nat, focus: Option<nat>, here: View, there: View)
    requires Inv(d) && Stands(d, active, focus, here, there) && focus.Some? && focus.value in BoneIds(here.bones)
    requires Enterable(there)
    ensures var r, left := Switched(d, 1 - active, false), View(here.bones, Recalled(here.history, focus.value, true));
            Inv(r) && Follows(d, r, 0) && Stands(r, 1 - active, EnteredFocus(there), EnteredView(there), left)
  {
    var left := View(here.bones, Recalled(here.history, focus.value, true));
    var d1 := Entering(d, 1 - active);
    assert Stands(d1, 1 - active, focus, there, left) && Follows(d, d1, 0) by {
      StandsRemembered(d, active, focus, here, there, focus.value);
    }
    assert focus.value !in BoneIds(there.bones) by {
      NotThere(d, active, focus, here, there, focus.value);
    }
    assert Inv(d1) by { EnteringInv(d, 1 - active); }
    assert Switched(d, 1 - active, false) == Trim(Entered(d, 1 - active)) by { StayingPut(d, 1 - active); }
    StandsEntering(d1, 1 - active, focus, there, left);
  }

  // Without a preview and with the workspace there, a switch only enters it.
  lemma StayingPut(d: Desk, index: nat)
    requires Inv(d) && index < |d.workspaces| && index != d.active && d.preview.None?
    ensures Switched(d, index, false) == Trim(Entered(d, index))
  {
    assert Ensured(d, index) == Some(d) by { AlreadyThere(d, index); }
    assert SwipeCancelled(d) == d;
  }

  lemma AlreadyThere(d: Desk, index: nat)
    requires Inv(d) && index < |d.workspaces|
    ensures Ensured(d, index) == Some(d)
  {
    assert index + 1 <= Nav.MAX_WORKSPACES;
  }

  lemma StandsEntering(d: Desk, active: nat, focus: Option<nat>, here: View, there: View)
    requires Inv(d) && Stands(d, active, focus, here, there) && focus.Some? && focus.value !in BoneIds(here.bones)
    requires Enterable(here)
    ensures Inv(Trim(Relay(d))) && Follows(d, Trim(Relay(d)), 0)
    ensures Stands(Trim(Relay(d)), active, EnteredFocus(here), EnteredView(here), there)
  {
    RelayInv(d);
    if here.bones == [] {
      PlainRelaid(StageOf(d), here.bones, here.history);
      StandsStaged(d, active, focus, here, there, Relaid(StageOf(d)), here);
    } else {
      StandsRestored(d, active, focus, here, there);
    }
    StandsTrimmed(Relay(d), active, EnteredFocus(here), EnteredView(here), there);
  }

  lemma NotThere(d: Desk, active: nat, focus: Option<nat>, here: View, there: View, id: nat)
    requires Inv(d) && Stands(d, active, focus, here, there) && id in BoneIds(here.bones)
    ensures id !in BoneIds(there.bones)
  {
    StandsHome(d, active, focus, here, there, id);
  }

  // ------------------------------------------------------------------
  // Moving a window to the active workspace

  lemma {:induction false} PickOut(ws: seq<Entry>, k: nat)
    requires UniqueIds(ws) && k < |ws|
    ensures Pick(ws, {ws[k].id}, true) == [ws[k]] && Pick(ws, {ws[k].id}, false) == ws[..k] + ws[k + 1..]
  {
    if k == 0 {
      PickKeeps(ws[1..], ws[0].id);
    } else {
      var rest := ws[1..];
      assert rest[k - 1] == ws[k] && UniqueIds(rest);
      PickOut(rest, k - 1);
      PickPast(ws, {ws[k].id});
      HeadRejoined(ws, k);
    }
  }

  lemma PickPast(ws: seq<Entry>, ids: set<nat>)
    requires ws != [] && ws[0].id !in ids
    ensures Pick(ws, ids, true) == Pick(ws[1..], ids, true)
            && Pick(ws, ids, false) == [ws[0]] + Pick(ws[1..], ids, false)
  {
  }

  lemma HeadRejoined(ws: seq<Entry>, k: nat)
    requires 0 < k < |ws|
    ensures [ws[0]] + (ws[1..][..k - 1] + ws[1..][k..]) == ws[..k] + ws[k + 1..]
  {
    assert ws[..k] == [ws[0]] + ws[1..][..k - 1] && ws[k + 1..] == ws[1..][k..];
  }

  lemma {:induction false} PickKeeps(ws: seq<Entry>, id: nat)
    requires forall i :: 0 <= i < |ws| ==> ws[i].id != id
    ensures Pick(ws, {id}, true) == [] && Pick(ws, {id}, false) == ws
  {
    if ws != [] {
      PickKeeps(ws[1..], id);
      PickPast(ws, {id});
      assert ws == [ws[0]] + ws[1..];
    }
  }

  function WithoutBone(bones: seq<Bone>, k: nat): seq<Bone>
    requires k < |bones|
  {
    bones[..k] + bones[k + 1..]
  }

  lemma PlainParted(w: Workspace, bones: seq<Bone>, history: seq<nat>, k: nat, left: seq<nat>)
    requires Plain(w, bones, history) && k < |bones|
    ensures var id := bones[k].id;
            && Plain(Part(w, {id}, false).(focusHistory := left), WithoutBone(bones, k), left)
            && Part(w, {id}, true).windows == [w.windows[k]]
            && Part(w, {id}, true).fullscreen.None? && Part(w, {id}, true).maximized.None?
  {
    PickOut(w.windows, k);
    PickUnique(w.windows, {bones[k].id}, false);
  }

  lemma PlainMerged(w: Workspace, bones: seq<Bone>, history: seq<nat>, part: Workspace, bone: Bone)
    requires Plain(w, bones, history) && |part.windows| == 1 && Fleshed(part.windows[0], bone)
    requires part.fullscreen.None? && part.maximized.None? && bone.id !in BoneIds(bones)
    ensures Plain(Merged(w, part), bones + [bone], history + part.focusHistory)
  {
    forall k | 0 <= k < |bones| ensures w.windows[k].id != bone.id {
      assert BoneIds(bones)[k] == w.windows[k].id;
    }
  }

  // A child on the other workspace follows its parent to the active one, and
  // leaves its recency id behind.
  lemma StandsFollowed(d: Desk, active: nat, focus: Option<nat>, here: View, there: View, k: nat, hints: Hints)
    requires Inv(d) && Stands(d, active, focus, here, there) && k < |there.bones| && !hints.floats
    requires hints.parent.Some? && hints.parent.value in BoneIds(here.bones) && hints.parent.value != there.bones[k].id
    requires focus.Some? && focus.value in BoneIds(here.bones)
    ensures var id := there.bones[k].id;
            var r := Refreshed(d, id, hints);
            && Inv(r) && Follows(d, r, 0)
            && Stands(r, active, focus, View(here.bones + [Linked(there.bones[k], hints.parent)], here.history),
                      View(WithoutBone(there.bones, k), there.history))
  {
    var was := d.workspaces[1 - active].windows[k];
    var d1 := Adopted(d, 1 - active, active, was.id);
    AdoptsHere(d, active, focus, here, there, k, hints);
    RefreshedAdopts(d, d1, active, was, hints);
    FollowedLands(d1, active, focus, here, View(WithoutBone(there.bones, k), there.history), there.bones[k], was,
        hints);
  }

  // The other workspace's window was follows its parent to the active one.
  ghost predicate Adopts(d: Desk, d1: Desk, active: nat, was: Entry, hints: Hints) {
    && active < 2 <= |d.workspaces| && Inv(d) && Inv(d1) && d.active == active
    && WorkspaceOf(d.workspaces, was.id) == Some(1 - active) && ParentAt(d, was.id, hints) == Some(active)
    && d1 == Adopted(d, 1 - active, active, was.id) && Find(d1.workspaces[active].windows, was.id) == Some(was)
  }

  lemma AdoptsHere(d: Desk, active: nat, focus: Option<nat>, here: View, there: View, k: nat, hints: Hints)
    requires Inv(d) && Stands(d, active, focus, here, there) && k < |there.bones|
    requires hints.parent.Some? && hints.parent.value in BoneIds(here.bones) && hints.parent.value != there.bones[k].id
    ensures var was := d.workspaces[1 - active].windows[k];
            var d1 := Adopted(d, 1 - active, active, was.id);
            && was.id == there.bones[k].id && Adopts(d, d1, active, was, hints) && Follows(d, d1, 0)
            && Stands(d1, active, focus, View(here.bones + [there.bones[k]], here.history),
                      View(WithoutBone(there.bones, k), there.history))
            && d1.workspaces[active].windows[|here.bones|] == was
  {
    FollowedPlaces(d, active, focus, here, there, k, hints);
    HomedAdopted(d, 1 - active, active, there.bones[k].id);
    FoundAdopted(d, active, focus, here, there, k);
  }

  lemma HomedAdopted(d: Desk, home: nat, active: nat, id: nat)
    requires Inv(d) && WorkspaceOf(d.workspaces, id) == Some(home) && active < |d.workspaces| && home != active
    ensures Inv(Adopted(d, home, active, id))
  {
    AdoptedInv(d, home, active, id);
  }

  lemma FoundAdopted(d: Desk, active: nat, focus: Option<nat>, here: View, there: View, k: nat)
    requires Stands(d, active, focus, here, there) && k < |there.bones| && there.bones[k].id !in BoneIds(here.bones)
    ensures var id, was := there.bones[k].id, d.workspaces[1 - active].windows[k];
            var r := Adopted(d, 1 - active, active, id);
            && Follows(d, r, 0)
            && Stands(r, active, focus, View(here.bones + [there.bones[k]], here.history),
                      View(WithoutBone(there.bones, k), there.history))
            && Find(r.workspaces[active].windows, id) == Some(was) && r.workspaces[active].windows[|here.bones|] == was
  {
    var id, was := there.bones[k].id, d.workspaces[1 - active].windows[k];
    StandsAdopted(d, active, focus, here, there, k, was);
    AdoptedFound(Adopted(d, 1 - active, active, id).workspaces[active], here.bones + [there.bones[k]], here.history,
                 |here.bones|, was);
  }

  lemma FollowedLands(d: Desk, active: nat, focus: Option<nat>, here: View, there: View, bone: Bone, was: Entry,
                      hints: Hints)
    requires Inv(d) && Stands(d, active, focus, View(here.bones + [bone], here.history), there)
    requires d.workspaces[active].windows[|here.bones|] == was && hints.parent.Some?
    requires focus.Some? && focus.value in BoneIds(here.bones)
    ensures var r := RelayIf(Rehinted(d, 1 - active, active, Hinted(was, hints, hints.parent, d.output)), true);
            && Inv(r) && Follows(d, r, 0)
            && Stands(r, active, focus, View(here.bones + [Linked(bone, hints.parent)], here.history), there)
  {
    var bones, after := here.bones + [bone], here.bones + [Linked(bone, hints.parent)];
    MoreBones(here.bones, bone, focus.value);
    assert after == bones[|here.bones| := after[|here.bones|]];
    StandsMovedIn(d, active, focus, View(bones, here.history), there, |here.bones|,
                  Hinted(was, hints, hints.parent, d.output), after);
  }

  lemma FollowedPlaces(d: Desk, active: nat, focus: Option<nat>, here: View, there: View, k: nat, hints: Hints)
    requires Inv(d) && Stands(d, active, focus, here, there) && k < |there.bones|
    requires hints.parent.Some? && hints.parent.value in BoneIds(here.bones) && hints.parent.value != there.bones[k].id
    ensures var id := there.bones[k].id;
            && WorkspaceOf(d.workspaces, id) == Some(1 - active) && ParentAt(d, id, hints) == Some(active)
            && id !in BoneIds(here.bones)
  {
    assert BoneIds(there.bones)[k] == there.bones[k].id;
    StandsHome(d, active, focus, here, there, there.bones[k].id);
    StandsHome(d, active, focus, here, there, hints.parent.value);
  }

  lemma AdoptedFound(w: Workspace, bones: seq<Bone>, history: seq<nat>, n: nat, was: Entry)
    requires Plain(w, bones, history) && n < |bones| && w.windows[n] == was
    ensures Find(w.windows, bones[n].id) == Some(was)
  {
    FindUnique(w.windows, was);
  }

  lemma RefreshedAdopts(d: Desk, d1: Desk, active: nat, was: Entry, hints: Hints)
    requires Adopts(d, d1, active, was, hints)
    ensures var r := Rehinted(d1, 1 - active, active, Hinted(was, hints, hints.parent, d.output));
            && active < |r.workspaces| && r.active == active && Refreshed(d, was.id, hints) == RelayIf(r, true)
  {
    RefreshedIs(d, was.id, hints, 1 - active, active, was, Hinted(was, hints, hints.parent, d.output), true);
  }

  ghost predicate EntryAt(ws: seq<Workspace>, i: nat, n: nat, e: Entry) {
    i < |ws| && n < |ws[i].windows| && ws[i].windows[n] == e
  }

  lemma StandsAdopted(d: Desk, active: nat, focus: Option<nat>, here: View, there: View, k: nat, was: Entry)
    requires Stands(d, active, focus, here, there) && k < |there.bones| && there.bones[k].id !in BoneIds(here.bones)
    requires EntryAt(d.workspaces, 1 - active, k, was)
    ensures var id, home := there.bones[k].id, 1 - active;
            var r := Adopted(d, home, active, id);
            && Follows(d, r, 0)
            && Stands(r, active, focus, View(here.bones + [there.bones[k]], here.history),
                      View(WithoutBone(there.bones, k), there.history))
            && EntryAt(r.workspaces, active, |here.bones|, was)
  {
    var id, home := there.bones[k].id, 1 - active;
    var r, w := Adopted(d, home, active, id), d.workspaces[home];
    assert r.workspaces[home] == Part(w, {id}, false).(focusHistory := w.focusHistory);
    assert r.workspaces[active] == Merged(d.workspaces[active], Part(w, {id}, true).(focusHistory := []));
    ShowsAdopted(d.workspaces[active], w, here, there, k);
  }

  lemma ShowsAdopted(into: Workspace, from: Workspace, here: View, there: View, k: nat)
    requires Shows(into, here) && Shows(from, there) && k < |there.bones| && there.bones[k].id !in BoneIds(here.bones)
    ensures var id := there.bones[k].id;
            var r := Merged(into, Part(from, {id}, true).(focusHistory := []));
            && Shows(Part(from, {id}, false).(focusHistory := from.focusHistory),
                View(WithoutBone(there.bones, k), there.history))
            && Shows(r, View(here.bones + [there.bones[k]], here.history)) && r.windows[|here.bones|] == from.windows[k]
  {
    var part := Part(from, {there.bones[k].id}, true).(focusHistory := []);
    PlainParted(from, there.bones, there.history, k, there.history);
    PlainMerged(into, here.bones, here.history, part, there.bones[k]);
    assert here.history + [] == here.history;
  }

  lemma NotHere(d: Desk, active: nat, focus: Option<nat>, here: View, there: View, id: nat)
    requires Inv(d) && Stands(d, active, focus, here, there) && id in BoneIds(there.bones)
    ensures id !in BoneIds(here.bones)
  {
    StandsHome(d, active, focus, here, there, id);
  }

  // Storing the moved window's entry, trimming and laying out.
  lemma StandsMovedIn(d: Desk, active: nat, focus: Option<nat>, here: View, there: View, k: nat, e: Entry,
                      bones: seq<Bone>)
    requires Inv(d) && Stands(d, active, focus, here, there) && focus.Some? && focus.value in BoneIds(here.bones)
    requires k < |here.bones| == |bones| && bones == here.bones[k := bones[k]] && Fleshed(e, bones[k])
    requires e.id == d.workspaces[active].windows[k].id && e.stackWeight == d.workspaces[active].windows[k].stackWeight
    ensures var r := RelayIf(Rehinted(d, 1 - active, active, e), true);
            && Inv(r) && Follows(d, r, 0) && Stands(r, active, focus, View(bones, here.history), there)
  {
    var w := d.workspaces[active];
    FindUnique(w.windows, w.windows[k]);
    WithEntryTidy(w, e, d.census);
    WithInv(d, active, WithEntry(w, e));
    PlainReplaced(w, here.bones, here.history, k, e, bones);
    assert BoneIds(bones) == BoneIds(here.bones);
    StandsTrimmed(With(d, active, WithEntry(w, e)), active, focus, View(bones, here.history), there);
    StandsRelaid(Trim(With(d, active, WithEntry(w, e))), active, focus, View(bones, here.history), there);
  }

  // ------------------------------------------------------------------
  // Focusing, and placing by a rule

  lemma StandsWindowFocused(d: Desk, active: nat, focus: Option<nat>, here: View, there: View, id: nat)
    requires Inv(d) && Stands(d, active, focus, here, there) && id in BoneIds(here.bones)
    ensures var r := WindowFocused(d, id, false);
            && Inv(r) && Follows(d, r, 0)
            && Stands(r, active, Some(id), View(here.bones, Recalled(here.history, id, true)), there)
  {
    StandsHome(d, active, focus, here, there, id);
    PlainVisible(d.workspaces[active], here.bones, here.history, id);
    WindowFocusedInv(d, id, false);
    StandsFocused(d, active, focus, here, there, id);
  }

  // A rule brings a window of the second workspace to the first, recency id and all.
  lemma StandsPlaced(d: Desk, focus: Option<nat>, here: View, there: View, k: nat, hints: Hints)
    requires Inv(d) && Stands(d, 0, focus, here, there) && k < |there.bones| && !there.bones[k].ruled
    requires focus.Some? && focus.value in BoneIds(here.bones) && !hints.floats && hints.parent.None?
    ensures var id := there.bones[k].id;
            var r := RulesApplied(d, id, TO_FIRST, hints);
            && Inv(r) && Follows(d, r, 0)
            && Stands(r, 0, focus,
                      View(here.bones + [Bone(id, None, false, true)],
                          here.history + PickIds(there.history, {id}, true)),
                      View(WithoutBone(there.bones, k), PickIds(there.history, {id}, false)))
  {
    var id, ruled := there.bones[k].id, there.bones[k].(ruled := true);
    var marked := View(there.bones[k := ruled], there.history);
    var d1 := WithRules(d, 1, d.workspaces[1].windows[k], TO_FIRST);
    assert Stands(d1, 0, focus, here, marked) && Follows(d, d1, 0) by {
      StandsRuled(d, focus, here, there, k);
    }
    assert Inv(d1) && Inv(Placed(d1, id, 1, 0))
           && RulesApplied(d, id, TO_FIRST, hints) == Refreshed(Placed(d1, id, 1, 0), id, hints) by {
      RulesAre(d, focus, here, there, k, hints);
    }
    var d2, arrived := Placed(d1, id, 1, 0),
        View(here.bones + [ruled], here.history + PickIds(there.history, {id}, true));
    var left := View(WithoutBone(there.bones, k), PickIds(there.history, {id}, false));
    assert Stands(d2, 0, focus, arrived, left) && Follows(d1, d2, 0) by {
      StandsBrought(d1, focus, here, marked, k);
      assert WithoutBone(marked.bones, k) == WithoutBone(there.bones, k);
    }
    StandsUnlinked(d2, focus, here.bones, ruled, arrived.history, left, hints);
  }

  // The last window of the first workspace loses its link and floats no more.
  lemma StandsUnlinked(d: Desk, focus: Option<nat>, bones: seq<Bone>, last: Bone, history: seq<nat>, there: View,
                       hints: Hints)
    requires Inv(d) && Stands(d, 0, focus, View(bones + [last], history), there)
    requires focus.Some? && focus.value in BoneIds(bones) && !hints.floats && hints.parent.None?
    ensures var r := Refreshed(d, last.id, hints);
            && Inv(r) && Follows(d, r, 0)
            && Stands(r, 0, focus, View(bones + [Bone(last.id, None, false, last.ruled)], history), there)
  {
    var here := View(bones + [last], history);
    assert here.bones[|bones|] == last;
    assert here.bones[|bones| := Linked(last, None)] == bones + [Bone(last.id, None, false, last.ruled)];
    MoreBones(bones, last, focus.value);
    StandsRefreshed(d, 0, focus, here, there, |bones|, hints);
  }

  // Rules that only name the first workspace.
  const TO_FIRST := Rules(None, None, None, Some(1))

  lemma StandsRuled(d: Desk, focus: Option<nat>, here: View, there: View, k: nat)
    requires Stands(d, 0, focus, here, there) && k < |there.bones|
    ensures var d1 := WithRules(d, 1, d.workspaces[1].windows[k], TO_FIRST);
            && Follows(d, d1, 0)
            && Stands(d1, 0, focus, here, View(there.bones[k := there.bones[k].(ruled := true)], there.history))
  {
    PlainReplaced(d.workspaces[1], there.bones, there.history, k, Ruled(d.workspaces[1].windows[k], TO_FIRST),
                  there.bones[k := there.bones[k].(ruled := true)]);
  }

  lemma RulesAre(d: Desk, focus: Option<nat>, here: View, there: View, k: nat, hints: Hints)
    requires Inv(d) && Stands(d, 0, focus, here, there) && k < |there.bones| && !there.bones[k].ruled
    ensures var id, was := there.bones[k].id, d.workspaces[1].windows[k];
            var d1 := WithRules(d, 1, was, TO_FIRST);
            && Inv(d1) && |d1.workspaces| == |d.workspaces| && Inv(Placed(d1, id, 1, 0))
            && Inv(RulesApplied(d, id, TO_FIRST, hints))
            && RulesApplied(d, id, TO_FIRST, hints) == Refreshed(Placed(d1, id, 1, 0), id, hints)
  {
    var id, was := there.bones[k].id, d.workspaces[1].windows[k];
    assert WorkspaceOf(d.workspaces, id) == Some(1) by {
      assert BoneIds(there.bones)[k] == id;
      StandsHome(d, 0, focus, here, there, id);
    }
    assert Find(d.workspaces[1].windows, id) == Some(was) by {
      FindUnique(d.workspaces[1].windows, was);
    }
    RuledInv(d, 1, was, TO_FIRST);
    var d1 := WithRules(d, 1, was, TO_FIRST);
    assert Ensured(d1, 1) == Some(d1);
    assert RulePlaced(d1, id, 1, 0) == Some(Placed(d1, id, 1, 0));
    PlacedInv(d1, id, 1, 0);
    RulesAppliedInv(d, id, TO_FIRST, hints);
  }

  lemma StandsBrought(d: Desk, focus: Option<nat>, here: View, there: View, k: nat)
    requires Inv(d) && Stands(d, 0, focus, here, there) && k < |there.bones|
    requires focus.Some? && focus.value in BoneIds(here.bones)
    ensures var id := there.bones[k].id;
            var r := Placed(d, id, 1, 0);
            && Inv(r) && Follows(d, r, 0)
            && Stands(r, 0, focus,
                      View(here.bones + [there.bones[k]], here.history + PickIds(there.history, {id}, true)),
                      View(WithoutBone(there.bones, k), PickIds(there.history, {id}, false)))
  {
    var id := there.bones[k].id;
    var m, arrived := Brought(d, id, 1),
        View(here.bones + [there.bones[k]], here.history + PickIds(there.history, {id}, true));
    var left := View(WithoutBone(there.bones, k), PickIds(there.history, {id}, false));
    assert Stands(m, 0, focus, arrived, left) && Follows(d, m, 0) by {
      assert BoneIds(there.bones)[k] == id;
      NotHere(d, 0, focus, here, there, id);
      StandsMoved(d, 0, focus, here, there, k);
    }
    assert focus.value in BoneIds(arrived.bones) by {
      MoreBones(here.bones, there.bones[k], focus.value);
    }
    assert Inv(m) && Placed(d, id, 1, 0) == Relay(Trim(m)) by {
      PlacedIs(d, id, 1);
    }
    StandsTrimmed(m, 0, focus, arrived, left);
    StandsRelaid(Trim(m), 0, focus, arrived, left);
  }

  function Brought(d: Desk, id: nat, home: nat): Desk
    requires home < |d.workspaces| && d.active < |d.workspaces|
  {
    Moved(d, home, d.active, {id}).(unmanaged := Rehosted(d.unmanaged, {id}, d.active))
  }

  lemma PlacedIs(d: Desk, id: nat, home: nat)
    requires Inv(d) && home < |d.workspaces| && home != d.active
    ensures Inv(Brought(d, id, home)) && Placed(d, id, home, d.active) == Relay(Trim(Brought(d, id, home)))
  {
    PlacedInRange(d, id, home, d.active);
  }

  lemma StandsMoved(d: Desk, active: nat, focus: Option<nat>, here: View, there: View, k: nat)
    requires Stands(d, active, focus, here, there) && k < |there.bones| && there.bones[k].id !in BoneIds(here.bones)
    ensures var id := there.bones[k].id;
            var r := Moved(d, 1 - active, active, {id}).(unmanaged := Rehosted(d.unmanaged, {id}, active));
            && Follows(d, r, 0)
            && Stands(r, active, focus,
                      View(here.bones + [there.bones[k]], here.history + PickIds(there.history, {id}, true)),
                      View(WithoutBone(there.bones, k), PickIds(there.history, {id}, false)))
  {
    var id, home := there.bones[k].id, 1 - active;
    var r, w := Moved(d, home, active, {id}), d.workspaces[home];
    assert d.unmanaged == [] by {
      assert |Held(d)| >= |d.unmanaged|;
    }
    assert r.workspaces[home] == Part(w, {id}, false);
    assert r.workspaces[active] == Merged(d.workspaces[active], Part(w, {id}, true));
    ShowsMoved(d.workspaces[active], w, here, there, k);
  }

  lemma ShowsMoved(into: Workspace, from: Workspace, here: View, there: View, k: nat)
    requires Shows(into, here) && Shows(from, there) && k < |there.bones| && there.bones[k].id !in BoneIds(here.bones)
    ensures var id := there.bones[k].id;
            && Shows(Part(from, {id}, false), View(WithoutBone(there.bones, k), PickIds(there.history, {id}, false)))
            && Shows(Merged(into, Part(from, {id}, true)),
                     View(here.bones + [there.bones[k]], here.history + PickIds(there.history, {id}, true)))
  {
    var id := there.bones[k].id;
    var part, left := Part(from, {id}, true), PickIds(there.history, {id}, false);
    PlainParted(from, there.bones, there.history, k, left);
    assert Part(from, {id}, false).(focusHistory := left) == Part(from, {id}, false);
    assert Plain(Merged(into, part), here.bones + [there.bones[k]], here.history + part.focusHistory) by {
      PlainMerged(into, here.bones, here.history, part, there.bones[k]);
    }
  }
}
