// What the operations on single windows achieve, beyond keeping the invariant.
module Effects {
  import opened Common
  import opened Model
  import opened ParentGraph
  import opened Stacking
  import opened Raising
  import opened Geometry
  import opened Visibility
  import opened Focus
  import opened Cycling
  import opened Desk
  import opened Operations
  import opened Transfers
  import opened RuleFocus
  import Nav = Navigation

  // Only workspace i differs.
  ghost predicate Elsewhere(d: Desk, r: Desk, i: nat) {
    |r.workspaces| == |d.workspaces| && r.active == d.active && r.nextId == d.nextId
    && forall j :: 0 <= j < |d.workspaces| && j != i ==> r.workspaces[j] == d.workspaces[j]
  }

  // A relayout keeps every mark of the workspace it touches.
  lemma RelayIfMarks(d: Desk, i: nat, w: Workspace)
    requires d.active < |d.workspaces| && i < |d.workspaces|
    ensures var r := RelayIf(With(d, i, w), i == d.active);
            Elsewhere(d, r, i) && SameFrame(w, r.workspaces[i])
  {
    if i == d.active {
      RelaidFrame(StageOf(With(d, i, w)));
    }
  }

  // ------------------------------------------------------------------
  // Minimizing and restoring

  // Window id is minimized or not as told; every other mark is as before.
  ghost predicate Marked(w: Workspace, v: Workspace, id: nat, minimized: bool) {
    && |v.windows| == |w.windows| && v.fullscreen == w.fullscreen && v.maximized == w.maximized
    && forall k :: 0 <= k < |w.windows| ==>
         && v.windows[k].id == w.windows[k].id && v.windows[k].parent == w.windows[k].parent
         && v.windows[k].floating.Some? == w.windows[k].floating.Some?
         && v.windows[k].minimized == if w.windows[k].id == id then minimized else w.windows[k].minimized
  }

  lemma ReplaceMarks(w: Workspace, e: Entry, minimized: bool)
    requires UniqueIds(w.windows) && Find(w.windows, e.id) == Some(e)
    ensures Marked(w, WithEntry(w, e.(minimized := minimized)), e.id, minimized)
  {
    FindIsIndex(w.windows, e.id);
    var k := IndexOf(w.windows, e.id).value;
    assert forall j :: 0 <= j < |w.windows| && j != k ==> w.windows[j].id != w.windows[k].id;
  }

  lemma FrameMarks(w: Workspace, u: Workspace, v: Workspace, id: nat, minimized: bool)
    requires Marked(w, u, id, minimized) && SameFrame(u, v)
    ensures Marked(w, v, id, minimized)
  {
  }

  // Minimizing puts the window on top of its workspace's minimized stack and
  // takes the focus from it; it touches no other window's marks and no other workspace.
  lemma MinimizedEffect(d: Desk, id: nat)
    requires Inv(d) && WorkspaceOf(d.workspaces, id).Some?
    ensures var i, r := WorkspaceOf(d.workspaces, id).value, Minimized(d, id);
            var was := Find(d.workspaces[i].windows, id).value;
            if was.minimized then r == d
            else
              && Elsewhere(d, r, i) && Marked(d.workspaces[i], r.workspaces[i], id, true)
              && r.workspaces[i].minimizedHistory == d.workspaces[i].minimizedHistory + [id]
              && (i == d.active ==> r.focus != Some(id))
  {
    var i := WorkspaceOf(d.workspaces, id).value;
    var w := d.workspaces[i];
    var e := Find(w.windows, id).value;
    if !e.minimized {
      NotListed(w, e);
      ReplaceMarks(w, e, true);
      RelayIfMarks(d, i, MinimizedIn(w, e));
      FrameMarks(w, MinimizedIn(w, e), Minimized(d, id).workspaces[i], id, true);
      if i == d.active {
        MinimizingTidy(w, e, d.census);
        WithInv(d, i, MinimizedIn(w, e));
        RelayInv(With(d, i, MinimizedIn(w, e)));
        MinimizedHides(w, Minimized(d, id).workspaces[i], id);
      }
    }
  }

  lemma NotListed(w: Workspace, e: Entry)
    requires Tidy(w) && Find(w.windows, e.id) == Some(e) && !e.minimized
    ensures e.id !in w.minimizedHistory && PickIds(w.minimizedHistory, {e.id}, false) == w.minimizedHistory
  {
    if f :| f in w.windows && f.id == e.id && f.minimized {
      OnlyEntry(w.windows, e);
    }
    PickNothing(w.minimizedHistory, e.id);
  }

  lemma {:induction false} PickNothing(s: seq<nat>, x: nat)
    requires x !in s
    ensures PickIds(s, {x}, false) == s
  {
    if s != [] {
      assert s[0] != x && x !in s[1..];
      PickNothing(s[1..], x);
      assert s == [s[0]] + s[1..];
    }
  }

  lemma {:induction false} PickLast(s: seq<nat>, x: nat)
    requires x !in s
    ensures PickIds(s + [x], {x}, false) == s
  {
    if s != [] {
      assert s[0] != x && x !in s[1..];
      assert (s + [x])[1..] == s[1..] + [x];
      PickLast(s[1..], x);
      assert s == [s[0]] + s[1..];
    } else {
      assert ([] + [x])[1..] == [];
    }
  }

  lemma MinimizedHides(w: Workspace, v: Workspace, id: nat)
    requires Marked(w, v, id, true)
    ensures !Visible(v, id)
  {
    forall e | e in v.windows && e.id == id ensures e.minimized {
      var k :| 0 <= k < |v.windows| && v.windows[k] == e;
    }
  }

  // Restoring takes the window off the stack and brings it back.
  lemma UnminimizedEffect(d: Desk, id: nat)
    requires Inv(d) && WorkspaceOf(d.workspaces, id).Some?
    ensures var i, r := WorkspaceOf(d.workspaces, id).value, Unminimized(d, id);
            var was := Find(d.workspaces[i].windows, id).value;
            if !was.minimized then r == d
            else
              && Elsewhere(d, r, i) && Marked(d.workspaces[i], r.workspaces[i], id, false)
              && r.workspaces[i].minimizedHistory == PickIds(d.workspaces[i].minimizedHistory, {id}, false)
  {
    var i := WorkspaceOf(d.workspaces, id).value;
    var w := d.workspaces[i];
    var e := Find(w.windows, id).value;
    if e.minimized {
      ReplaceMarks(w, e, false);
      RelayIfMarks(d, i, RestoredIn(w, e));
      FrameMarks(w, RestoredIn(w, e), Unminimized(d, id).workspaces[i], id, false);
    }
  }

  // Restoring the last minimized window undoes the latest minimization on the
  // active workspace, up to focus, weights and stacking.
  lemma RestoreUndoesMinimize(d: Desk, id: nat)
    requires Inv(d) && WorkspaceOf(d.workspaces, id) == Some(d.active)
    requires !Find(d.workspaces[d.active].windows, id).value.minimized
    ensures Inv(Minimized(d, id))
    ensures var r := LastUnminimized(Minimized(d, id));
            Elsewhere(d, r, d.active) && SameMarks(d.workspaces[d.active], r.workspaces[d.active])
  {
    MinimizedInv(d, id);
    MinimizedEffect(d, id);
    var m, w := Minimized(d, id), d.workspaces[d.active];
    var v := m.workspaces[d.active];
    NotListed(w, Find(w.windows, id).value);
    PickLast(w.minimizedHistory, id);
    MarkedFind(w, v, id, true);
    UniqueHome(m, id, d.active);
    UnminimizedEffect(m, id);
    MarkedBack(w, v, LastUnminimized(m).workspaces[d.active], id);
  }

  lemma MarkedFind(w: Workspace, v: Workspace, id: nat, minimized: bool)
    requires Marked(w, v, id, minimized) && Find(w.windows, id).Some? && UniqueIds(v.windows)
    ensures Find(v.windows, id).Some? && Find(v.windows, id).value.minimized == minimized
  {
    var k :| 0 <= k < |w.windows| && w.windows[k] == Find(w.windows, id).value;
    FindUnique(v.windows, v.windows[k]);
  }

  lemma MarkedBack(w: Workspace, v: Workspace, u: Workspace, id: nat)
    requires UniqueIds(w.windows) && Find(w.windows, id).Some? && !Find(w.windows, id).value.minimized
    requires Marked(w, v, id, true) && Marked(v, u, id, false)
    ensures SameForest(w.windows, u.windows) && u.fullscreen == w.fullscreen && u.maximized == w.maximized
  {
    forall k | 0 <= k < |w.windows| ensures SameNode(w.windows[k], u.windows[k]) {
      if w.windows[k].id == id {
        OnlyEntry(w.windows, w.windows[k]);
      }
    }
  }

  // ------------------------------------------------------------------
  // Fullscreen, maximize and floating

  // Afterwards the window owns the state exactly as asked, nothing else about
  // its workspace or another one changes, and a shown fullscreen owner covers it.
  lemma SetExpandedEffect(d: Desk, id: nat, fullscreen: bool, on: bool)
    requires Inv(d) && WorkspaceOf(d.workspaces, id).Some?
    ensures var i, r := WorkspaceOf(d.workspaces, id).value, SetExpanded(d, id, fullscreen, on);
            var w, v := d.workspaces[i], r.workspaces[i];
            && Elsewhere(d, r, i) && SameForest(w.windows, v.windows) && v.minimizedHistory == w.minimizedHistory
            && (if fullscreen then v.maximized == w.maximized else v.fullscreen == w.fullscreen)
            && ((if fullscreen then v.fullscreen else v.maximized)
                == if on then Some(id)
                   else if (if fullscreen then w.fullscreen else w.maximized) == Some(id) then None
                   else if fullscreen then w.fullscreen else w.maximized)
            && (fullscreen && on && ShownId(w.windows, id) ==> Exclusive(v) == Some(id) && Visible(v, id))
  {
    var i := WorkspaceOf(d.workspaces, id).value;
    var w := d.workspaces[i];
    RelayIfMarks(d, i, Expanded(w, id, fullscreen, on));
    var v := SetExpanded(d, id, fullscreen, on).workspaces[i];
    if ShownId(w.windows, id) {
      SameShown(w.windows, v.windows, id);
      if fullscreen && on {
        SomethingVisible(v, id);
      }
    }
  }

  // Only window id changes between floating and tiled.
  ghost predicate Flipped(ws: seq<Entry>, vs: seq<Entry>, id: nat) {
    SameTree(ws, vs)
    && forall k :: 0 <= k < |ws| ==> (vs[k].floating.Some? != ws[k].floating.Some? <==> ws[k].id == id)
  }

  // A toggle turns the focused window's mode over; it keeps the focus unless it
  // stops floating above an expanded window.
  lemma FloatingToggledEffect(d: Desk, usable: Rect, min: Size, max: Size)
    requires Inv(d) && FocusOk(d) && d.focus.Some?
    requires d.workspaces[d.active].fullscreen != d.focus && d.workspaces[d.active].maximized != d.focus
    ensures var id, w, r := d.focus.value, d.workspaces[d.active], FloatingToggled(d, usable, min, max);
            && Elsewhere(d, r, d.active) && Flipped(w.windows, r.workspaces[d.active].windows, id)
            && (r.focus == Some(id) <==> !(Floating(w.windows, id) && Overlaid(w, id)))
            && (r.focus == Some(id) ==> Newest(r.workspaces[d.active], id))
  {
    var w := d.workspaces[d.active];
    var was := Find(w.windows, d.focus.value).value;
    ModeSetEffect(d, was, Toggled(was, usable, d.output, min, max));
  }

  lemma ModeSetEffect(d: Desk, was: Entry, e: Entry)
    requires Inv(d) && d.focus == Some(e.id) && Visible(d.workspaces[d.active], e.id)
    requires Find(d.workspaces[d.active].windows, e.id) == Some(was)
    requires SameLink(was, e) && was.floating.Some? != e.floating.Some? && e.stackWeight == was.stackWeight
    ensures var w, r := d.workspaces[d.active], ModeSet(d, e);
            && Elsewhere(d, r, d.active) && Flipped(w.windows, r.workspaces[d.active].windows, e.id)
            && (r.focus == Some(e.id) <==> !(Floating(w.windows, e.id) && Overlaid(w, e.id)))
            && (r.focus == Some(e.id) ==> Newest(r.workspaces[d.active], e.id))
  {
    var w := d.workspaces[d.active];
    var u := WithEntry(w, e);
    assert Tidy(u) && Inv(With(d, d.active, u)) by {
      WithEntryTidy(w, e, d.census);
      WithInv(d, d.active, u);
    }
    assert Visible(u, e.id) <==> !(was.floating.Some? && Overlaid(w, e.id)) by { ToggledVisible(w, was, e); }
    ModeFocus(With(d, d.active, u), e.id);
    assert Flipped(w.windows, ModeSet(d, e).workspaces[d.active].windows, e.id) by {
      ReplaceFlips(w, was, e);
      FlippedForest(w.windows, u.windows, ModeSet(d, e).workspaces[d.active].windows, e.id);
    }
  }

  lemma ReplaceFlips(w: Workspace, was: Entry, e: Entry)
    requires UniqueIds(w.windows) && Find(w.windows, e.id) == Some(was)
    requires SameLink(was, e) && was.floating.Some? != e.floating.Some?
    ensures Flipped(w.windows, WithEntry(w, e).windows, e.id)
  {
    FindIsIndex(w.windows, e.id);
    var k := IndexOf(w.windows, e.id).value;
    assert forall j :: 0 <= j < |w.windows| && j != k ==> w.windows[j].id != w.windows[k].id;
  }

  lemma FlippedForest(ws: seq<Entry>, us: seq<Entry>, vs: seq<Entry>, id: nat)
    requires Flipped(ws, us, id) && SameForest(us, vs)
    ensures Flipped(ws, vs, id)
  {
  }

  lemma ToggledVisible(w: Workspace, was: Entry, e: Entry)
    requires Tidy(w) && Tidy(WithEntry(w, e)) && Find(w.windows, e.id) == Some(was) && Visible(w, e.id)
    requires SameLink(was, e) && was.floating.Some? != e.floating.Some?
    ensures Visible(WithEntry(w, e), e.id) <==> !(was.floating.Some? && Overlaid(w, e.id))
  {
    if was.floating.Some? {
      VisibleUnfloated(w, e, e.id);
    } else {
      var u := WithEntry(w, e);
      FindIsIndex(w.windows, e.id);
      TreeLinks(w.windows, u.windows);
      FoundInPlace(w, e);
      LinkedVisible(w, u, e.id);
    }
  }

  // A window that was focused keeps the focus through a relayout and a focus
  // request exactly when it is still visible.
  lemma ModeFocus(d: Desk, id: nat)
    requires Inv(d) && d.focus == Some(id)
    ensures var r := FocusIn(Relay(d), id, true);
            && Elsewhere(d, r, d.active) && SameForest(d.workspaces[d.active].windows, r.workspaces[d.active].windows)
            && (r.focus == Some(id) <==> Visible(d.workspaces[d.active], id))
            && (r.focus == Some(id) ==> Newest(r.workspaces[d.active], id))
  {
    RelayInv(d);
    RelaidThenFocused(StageOf(d), id);
  }

  lemma RelaidThenFocused(s: Stage, id: nat)
    requires FocusSound(Relaid(s))
    ensures var r := Focused(Relaid(s), id, true);
            && SameForest(s.w.windows, r.w.windows) && (Visible(s.w, id) ==> r.focus == Some(id))
            && (r.focus == Some(id) ==> Visible(s.w, id) && Newest(r.w, id))
  {
    var t := Relaid(s);
    RelaidFrame(s);
    SameVisible(s.w, t.w, id);
    FocusedFrame(t, id, true);
    FrameTransitive(s.w, t.w, Focused(t, id, true).w);
    if Visible(t.w, id) {
      FocusedLands(t, id, true);
    }
  }

  // ------------------------------------------------------------------
  // Opening and focusing

  // A shown window that is asked for gets the focus, on its own workspace, is
  // visible there and last in recency.
  lemma WindowFocusedEffect(d: Desk, id: nat, animate: bool)
    requires Inv(d) && WorkspaceOf(d.workspaces, id).Some?
    requires ShownId(d.workspaces[WorkspaceOf(d.workspaces, id).value].windows, id)
    ensures var i, r := WorkspaceOf(d.workspaces, id).value, WindowFocused(d, id, animate);
            && r.focus == Some(id) && r.active == i && i < |r.workspaces| && Visible(r.workspaces[i], id)
            && SameForest(d.workspaces[i].windows, r.workspaces[i].windows)
            && Newest(r.workspaces[i], id)
  {
    var i := WorkspaceOf(d.workspaces, id).value;
    SwitchedInv(d, i, animate);
    if i != d.active {
      SwitchedKeeps(d, i, animate);
      SameShown(d.workspaces[i].windows, Switched(d, i, animate).workspaces[i].windows, id);
    }
    var e := if i != d.active then Switched(d, i, animate) else d;
    RevealFocuses(StageOf(e), id, true);
    ForestTransitive(d.workspaces[i].windows, e.workspaces[i].windows,
                     RevealedFocus(StageOf(e), id, true).w.windows);
  }

  lemma ForestTransitive(a: seq<Entry>, b: seq<Entry>, c: seq<Entry>)
    requires SameForest(a, b) && SameForest(b, c)
    ensures SameForest(a, c)
  {
  }

  // Switching keeps a workspace that holds windows, mark by mark.
  lemma SwitchedKeeps(d: Desk, i: nat, animate: bool)
    requires Inv(d) && i < |d.workspaces| && i != d.active && d.workspaces[i].windows != []
    ensures var r := Switched(d, i, animate);
            r.active == i && i < |r.workspaces| && SameForest(d.workspaces[i].windows, r.workspaces[i].windows)
  {
    var d1 := Ensured(d, i).value;
    EnsuredInv(d, i);
    CancelledInv(d1);
    SwipeKeeps(d1, i);
    EnsuredInv(SwipeCancelled(d1), i);
    ArrivedKeeps(Ensured(SwipeCancelled(d1), i).value, i, d.active, animate);
  }

  lemma ArrivedKeeps(d: Desk, i: nat, source: nat, animate: bool)
    requires Inv(d) && i < |d.workspaces| && source < |d.workspaces| && d.workspaces[i].windows != []
    ensures var e := Entered(d, i);
            var r := Trim(if animate then e.(tracks := Animated(e.tracks, source, i)) else e);
            r.active == i && i < |r.workspaces| && SameForest(d.workspaces[i].windows, r.workspaces[i].windows)
  {
    EnteredInv(d, i);
    EnteredKeeps(d, i);
    AnimatedInv(Entered(d, i), source, i);
    TrimKeepsWindows(Entered(d, i), i);
    TrimKeepsWindows(Entered(d, i).(tracks := Animated(Entered(d, i).tracks, source, i)), i);
  }

  lemma TrimKeepsWindows(d: Desk, i: nat)
    requires Inv(d) && i < |d.workspaces| && d.workspaces[i].windows != []
    ensures i < |Trim(d).workspaces| && Trim(d).workspaces[i] == d.workspaces[i]
  {
    Nav.TrimKeepsUsed(d.workspaces, d.predefined, d.active, Held(d));
  }

  lemma SwipeKeeps(d: Desk, i: nat)
    requires Inv(d) && i < |d.workspaces| && d.workspaces[i].windows != []
    ensures i < |SwipeCancelled(d).workspaces| && SwipeCancelled(d).workspaces[i] == d.workspaces[i]
    ensures SwipeCancelled(d).active == d.active
  {
  }

  lemma EnteredKeeps(d: Desk, i: nat)
    requires Inv(d) && i < |d.workspaces|
    ensures i < |Entered(d, i).workspaces| && SameForest(d.workspaces[i].windows, Entered(d, i).workspaces[i].windows)
  {
    var d1 := Entering(d, i);
    EnteringInv(d, i);
    RelaidFrame(StageOf(d1));
    ForestTransitive(d.workspaces[i].windows, d1.workspaces[i].windows, Relay(d1).workspaces[i].windows);
  }

  // ------------------------------------------------------------------
  // Hints and opening

  // Every window but one is where it was.
  ghost predicate OthersStay(d: Desk, r: Desk, id: nat) {
    forall x :: x != id ==> WorkspaceOf(r.workspaces, x) == WorkspaceOf(d.workspaces, x)
  }

  lemma TrimHomes(d: Desk)
    requires Inv(d) && Inv(Trim(d))
    ensures forall x :: WorkspaceOf(Trim(d).workspaces, x) == WorkspaceOf(d.workspaces, x)
  {
    forall x ensures WorkspaceOf(Trim(d).workspaces, x) == WorkspaceOf(d.workspaces, x) {
      var at := WorkspaceOf(d.workspaces, x);
      if at.Some? {
        assert d.workspaces[at.value].windows != [];
        UniqueHome(Trim(d), x, at.value);
      }
    }
  }

  lemma RelayHomes(d: Desk, touched: bool)
    requires Inv(d)
    ensures forall x :: WorkspaceOf(RelayIf(d, touched).workspaces, x) == WorkspaceOf(d.workspaces, x)
  {
    if touched {
      RelaidFrame(StageOf(d));
      StagedHomes(d, Relaid(StageOf(d)));
    }
  }

  lemma StagedHomes(d: Desk, s: Stage)
    requires d.active < |d.workspaces| && SameForest(d.workspaces[d.active].windows, s.w.windows)
    ensures forall x :: WorkspaceOf(Staged(d, s).workspaces, x) == WorkspaceOf(d.workspaces, x)
  {
    forall x ensures WorkspaceOf(Staged(d, s).workspaces, x) == WorkspaceOf(d.workspaces, x) {
      SameFind(d.workspaces[d.active].windows, s.w.windows, x);
      SameWorkspaceOf(d.workspaces, Staged(d, s).workspaces, x);
    }
  }

  // The entry of a window with a given parent after its client's hints: it floats
  // as its override says, else by its parent and its hints, where it floated
  // before, else where its client starts it, within its limits.
  ghost predicate Heeds(was: Entry, hints: Hints, parent: Option<nat>, output: Size, e: Entry) {
    && e.parent == parent
    && e.floating.Some? == (if was.floatingOverride.Some? then was.floatingOverride.value
                            else parent.Some? || hints.floats)
    && (e.floating.Some? ==>
          e.floating.value == Constrain(if was.floating.Some? then was.floating.value else hints.start,
                                        output, hints.min, hints.max))
    && SameBut(was.(parent := e.parent, floating := e.floating), e)
  }

  lemma HintedHeeds(was: Entry, hints: Hints, parent: Option<nat>, output: Size, e: Entry)
    requires SameBut(Hinted(was, hints, parent, output), e)
    ensures Heeds(was, hints, parent, output, e)
  {
  }

  // A refresh leaves the window on its parent's workspace, else its own, linked
  // and floating as its hints and overrides say; no other window moves.
  lemma RefreshedEffect(d: Desk, id: nat, hints: Hints)
    requires Inv(d) && WorkspaceOf(d.workspaces, id).Some?
    ensures var home, r := OrElse(ParentAt(d, id, hints), WorkspaceOf(d.workspaces, id).value), Refreshed(d, id, hints);
            && WorkspaceOf(r.workspaces, id) == Some(home) && OthersStay(d, r, id) && r.nextId == d.nextId
            && r.active == d.active
            && var was, e := Find(d.workspaces[WorkspaceOf(d.workspaces, id).value].windows, id).value,
                             Find(r.workspaces[home].windows, id).value;
               Heeds(was, hints, if ParentAt(d, id, hints).Some? then hints.parent else None, d.output, e)
  {
    var index := WorkspaceOf(d.workspaces, id).value;
    var at := OrElse(ParentAt(d, id, hints), index);
    RefreshedStands(d, id, hints, index, at);
  }

  lemma RefreshedStands(d: Desk, id: nat, hints: Hints, index: nat, at: nat)
    requires Inv(d) && WorkspaceOf(d.workspaces, id) == Some(index) && at == OrElse(ParentAt(d, id, hints), index)
    ensures var r := Refreshed(d, id, hints);
            && WorkspaceOf(r.workspaces, id) == Some(at) && OthersStay(d, r, id) && r.nextId == d.nextId
            && r.active == d.active
            && Heeds(Find(d.workspaces[index].windows, id).value, hints,
                     if ParentAt(d, id, hints).Some? then hints.parent else None, d.output,
                     Find(r.workspaces[at].windows, id).value)
  {
    FollowedInv(d, index, at, id);
    FollowedHomes(d, index, at, id);
    FollowedEntry(d, index, at, id);
    var d1 := Followed(d, index, at, id);
    var was := Find(d.workspaces[index].windows, id).value;
    var e := Hinted(was, hints, if ParentAt(d, id, hints).Some? then hints.parent else None, d.output);
    var touched := (at != index || e != was) && (at == d.active || index == d.active);
    RehintedInv(d, d1, index, at, was, e);
    ShownHinted(d1, index, at, was, e, touched);
    RefreshedIs(d, id, hints, index, at, was, e, touched);
    HintedHeeds(was, hints, e.parent, d.output, Find(Refreshed(d, id, hints).workspaces[at].windows, id).value);
  }

  // Recency lists stay with their workspaces, so the id of a window that moved
  // stays behind; a restored focus is remembered on the active one.
  ghost predicate HistoriesStay(d: Desk, r: Desk) {
    forall i :: 0 <= i < |d.workspaces| && i < |r.workspaces| ==>
      || r.workspaces[i].focusHistory == d.workspaces[i].focusHistory
      || (i == r.active && r.focus.Some? && r.focus != d.focus
          && r.workspaces[i].focusHistory == Recalled(d.workspaces[i].focusHistory, r.focus.value, true))
  }

  lemma RefreshedKeepsHistories(d: Desk, id: nat, hints: Hints)
    requires Inv(d)
    ensures HistoriesStay(d, Refreshed(d, id, hints))
  {
    var found := WorkspaceOf(d.workspaces, id);
    if found.Some? {
      var index, at := found.value, OrElse(ParentAt(d, id, hints), found.value);
      var d1, e, touched := RefreshSteps(d, id, hints, index, at);
      RehintedHistories(d1, index, at, e);
      FollowedHistories(d, index, at, id);
      HistoriesChain(d, d1, Rehinted(d1, index, at, e));
      ShownHistories(d, Rehinted(d1, index, at, e), touched);
    }
  }

  lemma HistoriesChain(a: Desk, b: Desk, c: Desk)
    requires |a.workspaces| == |b.workspaces| && HistoriesAre(a, b) && HistoriesAre(b, c)
    ensures HistoriesAre(a, c)
  {
  }

  lemma FollowedHistories(d: Desk, index: nat, at: nat, id: nat)
    requires index < |d.workspaces| && at < |d.workspaces|
    ensures HistoriesAre(d, Followed(d, index, at, id)) && |Followed(d, index, at, id).workspaces| == |d.workspaces|
  {
    forall i | 0 <= i < |d.workspaces|
      ensures Followed(d, index, at, id).workspaces[i].focusHistory == d.workspaces[i].focusHistory
    {
      assert d.workspaces[i].focusHistory + [] == d.workspaces[i].focusHistory;
    }
  }

  ghost predicate HistoriesAre(d: Desk, r: Desk) {
    r.active == d.active && r.focus == d.focus
    && forall i :: 0 <= i < |d.workspaces| && i < |r.workspaces| ==>
         r.workspaces[i].focusHistory == d.workspaces[i].focusHistory
  }

  // The window where it follows its parent to, and its entry under the hints.
  lemma RefreshSteps(d: Desk, id: nat, hints: Hints, index: nat, at: nat) returns (d1: Desk, e: Entry, touched: bool)
    requires Inv(d) && WorkspaceOf(d.workspaces, id) == Some(index) && at == OrElse(ParentAt(d, id, hints), index)
    ensures d1 == Followed(d, index, at, id) && Inv(d1) && at < |d1.workspaces| && Stored(d1, at, e)
    ensures d1.active == d.active && d1.focus == d.focus
    ensures Rehinted(d1, index, at, e).active < |Rehinted(d1, index, at, e).workspaces|
    ensures Refreshed(d, id, hints) == RelayIf(Rehinted(d1, index, at, e), touched)
  {
    FollowedInv(d, index, at, id);
    d1 := Followed(d, index, at, id);
    var was := Find(d1.workspaces[at].windows, id).value;
    e := Hinted(was, hints, if ParentAt(d, id, hints).Some? then hints.parent else None, d.output);
    touched := (at != index || e != was) && (at == d.active || index == d.active);
    RefreshedIs(d, id, hints, index, at, was, e, touched);
  }

  // e changes an entry of a workspace but not its mark and weight.
  ghost predicate Stored(d: Desk, at: nat, e: Entry)
    requires at < |d.workspaces|
  {
    var was := Find(d.workspaces[at].windows, e.id);
    was.Some? && e.minimized == was.value.minimized && e.stackWeight == was.value.stackWeight
  }

  lemma RehintedHistories(d1: Desk, index: nat, at: nat, e: Entry)
    requires Inv(d1) && at < |d1.workspaces| && Stored(d1, at, e)
    ensures HistoriesAre(d1, Rehinted(d1, index, at, e)) && d1.active < |Rehinted(d1, index, at, e).workspaces|
  {
    var d2 := With(d1, at, WithEntry(d1.workspaces[at], e));
    assert Find(d1.workspaces[at].windows, e.id).value in d1.workspaces[at].windows;
    WithEntryTidy(d1.workspaces[at], e, d1.census);
    WithInv(d1, at, WithEntry(d1.workspaces[at], e));
    Nav.TrimKeepsUsed(d2.workspaces, d2.predefined, d2.active, Held(d2));
  }

  lemma ShownHistories(d: Desk, e: Desk, touched: bool)
    requires HistoriesAre(d, e) && e.active < |e.workspaces| && e.active < |d.workspaces|
    ensures HistoriesStay(d, RelayIf(e, touched))
  {
    RelaidHistory(StageOf(e));
  }

  lemma RelaidHistory(s: Stage)
    ensures var r := Relaid(s);
            || r.w.focusHistory == s.w.focusHistory
            || (r.focus.Some? && r.focus != s.focus
                && r.w.focusHistory == Recalled(s.w.focusHistory, r.focus.value, true))
  {
    var t := s.(w := s.w.(windows := NormalizedStack(s.w.windows)));
    if !(s.focus.Some? && Visible(t.w, s.focus.value)) && LastVisible(t.w).Some? {
      FocusedLands(t, LastVisible(t.w).value, true);
    }
  }

  // A window that moves keeps its entry.
  lemma FollowedEntry(d: Desk, index: nat, at: nat, id: nat)
    requires Inv(d) && index < |d.workspaces| && at < |d.workspaces| && Find(d.workspaces[index].windows, id).Some?
    requires Inv(Followed(d, index, at, id))
    ensures Find(Followed(d, index, at, id).workspaces[at].windows, id) == Find(d.workspaces[index].windows, id)
  {
    if at != index {
      var e := Find(d.workspaces[index].windows, id).value;
      var ws := Followed(d, index, at, id).workspaces[at].windows;
      assert e in Pick(d.workspaces[index].windows, {id}, true);
      assert e in ws;
      OnlyEntry(ws, e);
    }
  }

  lemma ShownHinted(d1: Desk, index: nat, at: nat, was: Entry, e: Entry, touched: bool)
    requires Inv(d1) && at < |d1.workspaces| && Find(d1.workspaces[at].windows, e.id) == Some(was)
    requires e.minimized == was.minimized && e.stackWeight == was.stackWeight && Inv(Rehinted(d1, index, at, e))
    ensures var r := RelayIf(Rehinted(d1, index, at, e), touched);
            && (forall x :: WorkspaceOf(r.workspaces, x) == WorkspaceOf(d1.workspaces, x))
            && at < |r.workspaces| && Find(r.workspaces[at].windows, e.id).Some?
            && SameBut(e, Find(r.workspaces[at].windows, e.id).value)
  {
    WithEntryTidy(d1.workspaces[at], e, d1.census);
    WithInv(d1, at, WithEntry(d1.workspaces[at], e));
    RehintedHomes(d1, index, at, e);
    RelayHomes(Rehinted(d1, index, at, e), touched);
    RehintedEntry(d1, index, at, e, touched);
  }

  lemma FollowedHomes(d: Desk, index: nat, at: nat, id: nat)
    requires Inv(d) && WorkspaceOf(d.workspaces, id) == Some(index) && at < |d.workspaces|
    requires Inv(Followed(d, index, at, id))
    ensures WorkspaceOf(Followed(d, index, at, id).workspaces, id) == Some(at)
    ensures OthersStay(d, Followed(d, index, at, id), id)
  {
    if at != index {
      var r := Adopted(d, index, at, id);
      FollowedInv(d, index, at, id);
      UniqueHome(r, id, at);
      forall x | x != id ensures WorkspaceOf(r.workspaces, x) == WorkspaceOf(d.workspaces, x) {
        AdoptedOther(d, index, at, id, x);
      }
    }
  }

  lemma AdoptedIds(d: Desk, index: nat, at: nat, id: nat)
    requires index < |d.workspaces| && at < |d.workspaces| && index != at
    ensures var r, moved := Adopted(d, index, at, id).workspaces, Ids(d.workspaces[index].windows) * {id};
            && Ids(r[index].windows) == Ids(d.workspaces[index].windows) - {id}
            && Ids(r[at].windows) == Ids(d.workspaces[at].windows) + moved
  {
    PartIds(d.workspaces[index], {id}, false);
    PartIds(d.workspaces[index], {id}, true);
    MergedIds(d.workspaces[at], Part(d.workspaces[index], {id}, true).(focusHistory := []));
  }

  lemma AdoptedOther(d: Desk, index: nat, at: nat, id: nat, x: nat)
    requires Inv(d) && index < |d.workspaces| && at < |d.workspaces| && index != at && x != id
    requires Inv(Adopted(d, index, at, id))
    ensures WorkspaceOf(Adopted(d, index, at, id).workspaces, x) == WorkspaceOf(d.workspaces, x)
  {
    var r, home := Adopted(d, index, at, id), WorkspaceOf(d.workspaces, x);
    AdoptedIds(d, index, at, id);
    if home.Some? {
      FoundId(d.workspaces[home.value].windows, x);
      FoundId(r.workspaces[home.value].windows, x);
      UniqueHome(r, x, home.value);
    } else {
      forall i | 0 <= i < |r.workspaces| ensures Find(r.workspaces[i].windows, x).None? {
        FoundId(r.workspaces[i].windows, x);
        FoundId(d.workspaces[i].windows, x);
        FoundId(d.workspaces[index].windows, x);
      }
    }
  }

  lemma RehintedHomes(d1: Desk, index: nat, at: nat, e: Entry)
    requires Inv(d1) && at < |d1.workspaces| && Find(d1.workspaces[at].windows, e.id).Some?
    requires Inv(With(d1, at, WithEntry(d1.workspaces[at], e))) && Inv(Rehinted(d1, index, at, e))
    ensures forall x :: WorkspaceOf(Rehinted(d1, index, at, e).workspaces, x) == WorkspaceOf(d1.workspaces, x)
  {
    SameHomes(d1, at, e);
    if at != index {
      TrimHomes(With(d1, at, WithEntry(d1.workspaces[at], e)));
    }
  }

  lemma RehintedEntry(d1: Desk, index: nat, at: nat, e: Entry, touched: bool)
    requires Inv(d1) && at < |d1.workspaces| && Find(d1.workspaces[at].windows, e.id).Some?
    requires Inv(With(d1, at, WithEntry(d1.workspaces[at], e))) && Inv(Rehinted(d1, index, at, e))
    ensures var r := RelayIf(Rehinted(d1, index, at, e), touched);
            at < |r.workspaces| && Find(r.workspaces[at].windows, e.id).Some?
            && SameBut(e, Find(r.workspaces[at].windows, e.id).value)
  {
    var r := Rehinted(d1, index, at, e);
    FoundInPlace(d1.workspaces[at], e);
    assert WithEntry(d1.workspaces[at], e).windows != [];
    TrimKeepsWindows(With(d1, at, WithEntry(d1.workspaces[at], e)), at);
    if touched {
      RelayedEntry(r, at, e);
    }
  }

  lemma RelayedEntry(d: Desk, at: nat, e: Entry)
    requires d.active < |d.workspaces| && at < |d.workspaces| && Find(d.workspaces[at].windows, e.id) == Some(e)
    ensures Find(Relay(d).workspaces[at].windows, e.id).Some?
    ensures SameBut(e, Find(Relay(d).workspaces[at].windows, e.id).value)
  {
    RelaidEntries(StageOf(d));
    if at == d.active {
      FindRanked(d.workspaces[at].windows, Relaid(StageOf(d)).w.windows, e.id);
    }
  }

  // A new window has the next id and stands on its parent's workspace, else the
  // one it was launched from; no other window moves.
  lemma AddedEffect(d: Desk, child: nat, hints: Hints, takesFocus: bool)
    requires Inv(d)
    ensures var id, r := d.nextId, Added(d, child, hints, takesFocus);
            && WorkspaceOf(d.workspaces, id).None? && r.nextId == id + 1 && r.active == d.active
            && WorkspaceOf(r.workspaces, id)
               == Some(OrElse(ParentAt(d, id, hints), if child < |d.children| then d.children[child] else d.active))
            && OthersStay(d, r, id) && Welcomed(d, r, id, takesFocus)
  {
    var id, index := d.nextId, LaunchIndex(d, child);
    var d1 := Launched(d, child);
    LaunchedInv(d, child);
    LaunchedHomes(d, child);
    RefreshedInv(d1, id, hints);
    RefreshedEffect(d1, id, hints);
    MadeHomeEffect(Refreshed(d1, id, hints), id, takesFocus);
  }

  // Otherwise a focus that stays visible stays, and on the active workspace the
  // focus is sound whatever happens.
  lemma AddedFocus(d: Desk, child: nat, hints: Hints, takesFocus: bool)
    requires Inv(d)
    ensures var r := Added(d, child, hints, takesFocus);
            var here := WorkspaceOf(r.workspaces, d.nextId) == Some(d.active);
            && d.active < |r.workspaces| && (here ==> FocusOk(r))
            && (!(here && takesFocus) && d.focus.Some? && Visible(r.workspaces[d.active], d.focus.value) ==>
                r.focus == d.focus)
  {
    var id, d1 := d.nextId, Launched(d, child);
    assert Inv(d1) && d1.active == d.active && d1.focus == d.focus by { LaunchedInv(d, child); }
    var d2 := Refreshed(d1, id, hints);
    assert Inv(d2) by { RefreshedInv(d1, id, hints); }
    RefreshedKeepsActive(d1, id, hints);
    HomeFocus(d2, id, takesFocus, OrElse(d.focus, 0));
    if d.focus.Some? && Visible(d2.workspaces[d.active], d.focus.value) {
      RefreshedFocus(d1, id, hints, d.focus.value);
    }
  }

  lemma HomeFocus(d: Desk, id: nat, takesFocus: bool, f: nat)
    requires Inv(d)
    ensures var r := MadeHome(d, id, takesFocus);
            var here := WorkspaceOf(r.workspaces, id) == Some(d.active);
            && d.active < |r.workspaces| && (here ==> FocusOk(r))
            && (!(here && takesFocus) && Visible(r.workspaces[d.active], f) ==>
                  Visible(d.workspaces[d.active], f) && (d.focus == Some(f) ==> r.focus == Some(f)))
  {
    MadeHomeInv(d, id, takesFocus);
    MadeHomeHome(d, id, takesFocus);
    if !(WorkspaceOf(d.workspaces, id) == Some(d.active) && takesFocus) {
      assert MadeHome(d, id, takesFocus) == MadeHome(d, id, false);
      if Visible(MadeHome(d, id, false).workspaces[d.active], f) {
        MadeHomeFocus(d, id, f);
      }
    }
  }

  lemma MadeHomeHome(d: Desk, id: nat, takesFocus: bool)
    requires Inv(d)
    ensures var r := MadeHome(d, id, takesFocus);
            r.active == d.active && WorkspaceOf(r.workspaces, id) == WorkspaceOf(d.workspaces, id)
  {
    if WorkspaceOf(d.workspaces, id).Some? {
      MadeHomeEffect(d, id, takesFocus);
    }
  }

  lemma RefreshedKeepsActive(d: Desk, id: nat, hints: Hints)
    requires Inv(d)
    ensures Refreshed(d, id, hints).active == d.active
  {
    if WorkspaceOf(d.workspaces, id).Some? {
      RefreshedEffect(d, id, hints);
    }
  }

  // A relayout keeps a focus that is visible afterwards.
  lemma RelayKeepsFocus(d: Desk, touched: bool, f: nat)
    requires d.active < |d.workspaces| && Visible(RelayIf(d, touched).workspaces[d.active], f)
    ensures Visible(d.workspaces[d.active], f)
    ensures d.focus == Some(f) ==> RelayIf(d, touched).focus == Some(f)
  {
    var s := StageOf(d);
    RelaidFrame(s);
    SameVisible(s.w, RelayIf(d, touched).workspaces[d.active], f);
    var w := s.w.(windows := NormalizedStack(s.w.windows));
    SameVisible(s.w, w, f);
  }

  lemma MadeHomeFocus(d: Desk, id: nat, f: nat)
    requires Inv(d) && d.active < |MadeHome(d, id, false).workspaces|
    requires Visible(MadeHome(d, id, false).workspaces[d.active], f)
    ensures Visible(d.workspaces[d.active], f)
    ensures d.focus == Some(f) ==> MadeHome(d, id, false).focus == Some(f)
  {
    var r := RememberedIn(d, id);
    RememberedInInv(d, id);
    RelayKeepsFocus(r, WorkspaceOf(d.workspaces, id) == Some(d.active), f);
    SameVisible(d.workspaces[d.active], r.workspaces[d.active], f);
  }

  lemma RefreshedFocus(d: Desk, id: nat, hints: Hints, f: nat)
    requires Inv(d) && d.active < |Refreshed(d, id, hints).workspaces|
    requires Visible(Refreshed(d, id, hints).workspaces[d.active], f) && d.focus == Some(f)
    ensures Refreshed(d, id, hints).focus == Some(f)
  {
    var found := WorkspaceOf(d.workspaces, id);
    if found.Some? {
      var index, at := found.value, OrElse(ParentAt(d, id, hints), found.value);
      var d1, e, touched := RefreshSteps(d, id, hints, index, at);
      RehintedHistories(d1, index, at, e);
      RelayKeepsFocus(Rehinted(d1, index, at, e), touched, f);
    }
  }

  lemma LaunchedHomes(d: Desk, child: nat)
    requires Inv(d)
    ensures var r := Launched(d, child);
            && WorkspaceOf(d.workspaces, d.nextId).None?
            && WorkspaceOf(r.workspaces, d.nextId) == Some(LaunchIndex(d, child))
            && OthersStay(d, r, d.nextId)
  {
    var index := LaunchIndex(d, child);
    LaunchInRange(d, child);
    OpenedInv(d, index);
    OpenedHomes(d, index);
    TrimInv(Opened(d, index));
    TrimHomes(Opened(d, index));
  }

  lemma OpenedHomes(d: Desk, index: nat)
    requires Inv(d) && index < |d.workspaces| && Inv(Opened(d, index))
    ensures WorkspaceOf(d.workspaces, d.nextId).None?
            && WorkspaceOf(Opened(d, index).workspaces, d.nextId) == Some(index)
    ensures OthersStay(d, Opened(d, index), d.nextId)
  {
    var r, w := Opened(d, index), d.workspaces[index];
    OpenedInv(d, index);
    UniqueHome(r, d.nextId, index);
    forall x | x != d.nextId ensures WorkspaceOf(r.workspaces, x) == WorkspaceOf(d.workspaces, x) {
      FoundAppended(w.windows, NewEntry(d.nextId), x);
      SameWorkspaceOf(d.workspaces, r.workspaces, x);
    }
  }

  lemma {:induction false} FoundAppended(ws: seq<Entry>, e: Entry, x: nat)
    requires x != e.id
    ensures Find(ws + [e], x) == Find(ws, x)
  {
    if ws == [] {
      assert (ws + [e])[1..] == [];
    } else {
      assert (ws + [e])[1..] == ws[1..] + [e];
      FoundAppended(ws[1..], e, x);
    }
  }

  // Elsewhere the window is last in recency. On the active workspace it takes the
  // focus when it asks for it and is visible, and is last in recency then.
  ghost predicate Welcomed(d: Desk, r: Desk, id: nat, takesFocus: bool) {
    && d.active < |r.workspaces|
    && match WorkspaceOf(r.workspaces, id)
       case None => false
       case Some(i) =>
         if i != d.active then Newest(r.workspaces[i], id)
         else takesFocus ==>
                && (r.focus == Some(id) <==> Visible(r.workspaces[i], id))
                && (r.focus == Some(id) ==> Newest(r.workspaces[i], id))
  }

  lemma MadeHomeEffect(d: Desk, id: nat, takesFocus: bool)
    requires Inv(d) && WorkspaceOf(d.workspaces, id).Some?
    ensures var r := MadeHome(d, id, takesFocus);
            && r.nextId == d.nextId && r.active == d.active
            && (forall x :: WorkspaceOf(r.workspaces, x) == WorkspaceOf(d.workspaces, x))
            && Welcomed(d, r, id, takesFocus)
  {
    RememberedInInv(d, id);
    var r, i := RememberedIn(d, id), WorkspaceOf(d.workspaces, id).value;
    forall x ensures WorkspaceOf(r.workspaces, x) == WorkspaceOf(d.workspaces, x) {
      SameWorkspaceOf(d.workspaces, r.workspaces, x);
    }
    if i == d.active {
      HomeShown(r, id);
    } else {
      assert Newest(r.workspaces[i], id);
    }
  }

  lemma HomeShown(d: Desk, id: nat)
    requires Inv(d)
    ensures var m, r := Relay(d), FocusIn(Relay(d), id, true);
            && m.nextId == d.nextId && m.active == d.active && r.nextId == d.nextId && r.active == d.active
            && (forall x :: WorkspaceOf(m.workspaces, x) == WorkspaceOf(d.workspaces, x))
            && (forall x :: WorkspaceOf(r.workspaces, x) == WorkspaceOf(d.workspaces, x))
            && d.active < |m.workspaces| && d.active < |r.workspaces|
            && (r.focus == Some(id) <==> Visible(r.workspaces[d.active], id))
            && (r.focus == Some(id) ==> Newest(r.workspaces[d.active], id))
  {
    RelayHomes(d, true);
    var s := StageOf(Relay(d));
    FocusedFrame(s, id, true);
    StagedHomes(Relay(d), Focused(s, id, true));
    RelayInv(d);
    FocusInInv(Relay(d), id, true);
    if Visible(s.w, id) {
      FocusedLands(s, id, true);
    }
  }
}
