// No operation loses a window: the windows on the workspaces are the ones that
// were opened and not closed.
module Conservation {
  import opened Common
  import opened Model
  import opened Raising
  import opened Visibility
  import opened Focus
  import opened Cycling
  import opened Ring
  import opened Desk
  import opened Operations
  import opened Transfers
  import opened DeskDrags
  import Drag
  import Nav = Navigation

  // The windows on the workspaces.
  ghost function Everyone(ws: seq<Workspace>): set<nat> {
    set i, e | 0 <= i < |ws| && e in ws[i].windows :: e.id
  }

  // Nobody counted is missing.
  ghost predicate AllHome(d: Desk) {
    d.census.alive <= Everyone(d.workspaces)
  }

  ghost predicate Conserves(d: Desk, r: Desk) {
    r.census == d.census && r.nextId == d.nextId && Everyone(d.workspaces) <= Everyone(r.workspaces)
  }

  // With the invariant, the windows are exactly the counted ones.
  lemma EveryoneCounted(d: Desk)
    requires Inv(d)
    ensures Everyone(d.workspaces) <= d.census.alive
  {
    forall id | id in Everyone(d.workspaces) ensures id in d.census.alive {
      var i, e :| 0 <= i < |d.workspaces| && e in d.workspaces[i].windows && e.id == id;
      assert Entries(d.workspaces[i], d.census);
    }
  }

  lemma HomeOf(ws: seq<Workspace>, id: nat)
    ensures WorkspaceOf(ws, id).Some? <==> id in Everyone(ws)
  {
    if id in Everyone(ws) {
      var i, e :| 0 <= i < |ws| && e in ws[i].windows && e.id == id;
      assert Find(ws[i].windows, id).Some?;
    }
    if WorkspaceOf(ws, id).Some? {
      var i := WorkspaceOf(ws, id).value;
      assert Find(ws[i].windows, id).value in ws[i].windows;
    }
  }

  // ------------------------------------------------------------------
  // Steps

  lemma UpdateKeeps(ws: seq<Workspace>, i: nat, w: Workspace)
    requires i < |ws| && Ids(ws[i].windows) <= Ids(w.windows)
    ensures Everyone(ws) <= Everyone(ws[i := w])
  {
    forall id | id in Everyone(ws) ensures id in Everyone(ws[i := w]) {
      var k, e :| 0 <= k < |ws| && e in ws[k].windows && e.id == id;
      if k == i {
        assert id in Ids(ws[i].windows);
        var f :| f in w.windows && f.id == id;
        assert f in ws[i := w][i].windows;
      } else {
        assert e in ws[i := w][k].windows;
      }
    }
  }

  lemma ForestIds(ws: seq<Entry>, vs: seq<Entry>)
    requires SameForest(ws, vs)
    ensures Ids(ws) <= Ids(vs)
  {
    forall e | e in ws ensures e.id in Ids(vs) {
      var i :| 0 <= i < |ws| && ws[i] == e;
      assert SameNode(ws[i], vs[i]) && vs[i] in vs;
    }
  }

  lemma WithConserves(d: Desk, i: nat, w: Workspace)
    requires i < |d.workspaces| && Ids(d.workspaces[i].windows) <= Ids(w.windows)
    ensures Conserves(d, With(d, i, w))
  {
    UpdateKeeps(d.workspaces, i, w);
  }

  lemma StagedConserves(d: Desk, s: Stage)
    requires d.active < |d.workspaces| && SameForest(d.workspaces[d.active].windows, s.w.windows)
    ensures Conserves(d, Staged(d, s))
  {
    ForestIds(d.workspaces[d.active].windows, s.w.windows);
    UpdateKeeps(d.workspaces, d.active, s.w);
  }

  lemma RelayConserves(d: Desk, touched: bool)
    requires d.active < |d.workspaces|
    ensures Conserves(d, Relay(d)) && Conserves(d, RelayIf(d, touched))
  {
    RelaidFrame(StageOf(d));
    StagedConserves(d, Relaid(StageOf(d)));
  }

  lemma FocusInConserves(d: Desk, id: nat)
    requires d.active < |d.workspaces|
    ensures Conserves(d, FocusIn(d, id, true))
  {
    FocusedFrame(StageOf(d), id, true);
    StagedConserves(d, Focused(StageOf(d), id, true));
  }

  lemma RevealConserves(d: Desk, id: nat, remember: bool)
    requires d.active < |d.workspaces|
    ensures Conserves(d, Staged(d, RevealedFocus(StageOf(d), id, remember)))
  {
    var s := StageOf(d);
    var t := if Visible(s.w, id) then s else Relaid(Bare(s));
    RelaidFrame(Bare(s));
    FocusedFrame(t, id, remember);
    SameForestTwice(s.w.windows, t.w.windows, Focused(t, id, remember).w.windows);
    StagedConserves(d, RevealedFocus(s, id, remember));
  }

  // Only empty workspaces are trimmed.
  lemma TrimConserves(d: Desk)
    requires Inv(d)
    ensures Conserves(d, Trim(d))
  {
    Nav.TrimKeepsUsed(d.workspaces, d.predefined, d.active, Held(d));
    var ws := Trim(d).workspaces;
    forall id | id in Everyone(d.workspaces) ensures id in Everyone(ws) {
      var i, e :| 0 <= i < |d.workspaces| && e in d.workspaces[i].windows && e.id == id;
      assert i < |ws| && e in ws[i].windows;
    }
  }

  lemma EnsuredConserves(d: Desk, index: nat)
    requires Ensured(d, index).Some?
    ensures Conserves(d, Ensured(d, index).value)
  {
    var ws := Ensured(d, index).value.workspaces;
    forall id | id in Everyone(d.workspaces) ensures id in Everyone(ws) {
      var i, e :| 0 <= i < |d.workspaces| && e in d.workspaces[i].windows && e.id == id;
      assert e in ws[i].windows;
    }
  }

  // What leaves one workspace arrives on the other.
  lemma SharedOut(ws: seq<Workspace>, i: nat, w: Workspace, j: nat, v: Workspace)
    requires i < |ws| && j < |ws| && i != j
    requires Ids(ws[i].windows) + Ids(ws[j].windows) <= Ids(w.windows) + Ids(v.windows)
    ensures Everyone(ws) <= Everyone(ws[i := w][j := v])
  {
    var vs := ws[i := w][j := v];
    forall id | id in Everyone(ws) ensures id in Everyone(vs) {
      var k, e :| 0 <= k < |ws| && e in ws[k].windows && e.id == id;
      if k == i || k == j {
        assert id in Ids(ws[k].windows);
        if id in Ids(w.windows) {
          var f :| f in w.windows && f.id == id;
          assert f in vs[i].windows;
        } else {
          var f :| f in v.windows && f.id == id;
          assert f in vs[j].windows;
        }
      } else {
        assert e in vs[k].windows;
      }
    }
  }

  lemma MovedConserves(d: Desk, source: nat, target: nat, ids: set<nat>)
    requires source < |d.workspaces| && target < |d.workspaces| && source != target
    ensures Conserves(d, Moved(d, source, target, ids))
  {
    var a, b := d.workspaces[source], d.workspaces[target];
    PartIds(a, ids, true);
    PartIds(a, ids, false);
    MergedIds(b, Part(a, ids, true));
    SharedOut(d.workspaces, source, Part(a, ids, false), target, Merged(b, Part(a, ids, true)));
  }

  lemma FollowedConserves(d: Desk, index: nat, at: nat, id: nat)
    requires index < |d.workspaces| && at < |d.workspaces|
    ensures Conserves(d, Followed(d, index, at, id))
  {
    if at != index {
      var a, b := d.workspaces[index], d.workspaces[at];
      PartIds(a, {id}, true);
      PartIds(a, {id}, false);
      MergedIds(b, Part(a, {id}, true).(focusHistory := []));
      SharedOut(d.workspaces, index, Part(a, {id}, false).(focusHistory := a.focusHistory),
                at, Merged(b, Part(a, {id}, true).(focusHistory := [])));
    }
  }

  lemma EntryConserves(d: Desk, i: nat, e: Entry)
    requires i < |d.workspaces| && UniqueIds(d.workspaces[i].windows) && Find(d.workspaces[i].windows, e.id).Some?
    ensures Conserves(d, With(d, i, WithEntry(d.workspaces[i], e)))
  {
    ReplaceMembers(d.workspaces[i].windows, e);
    WithConserves(d, i, WithEntry(d.workspaces[i], e));
  }

  lemma RememberedConserves(d: Desk, id: nat)
    ensures Conserves(d, RememberedIn(d, id))
  {
    var at := WorkspaceOf(d.workspaces, id);
    if at.Some? {
      WithConserves(d, at.value, RememberedIn(d, id).workspaces[at.value]);
    }
  }

  // ------------------------------------------------------------------
  // Operations

  lemma MinimizedConserves(d: Desk, id: nat)
    requires Inv(d)
    ensures Conserves(d, Minimized(d, id)) && Conserves(d, Unminimized(d, id))
  {
    var at := WorkspaceOf(d.workspaces, id);
    if at.Some? {
      var i, w := at.value, d.workspaces[at.value];
      var e := Find(w.windows, id).value;
      ReplaceMembers(w.windows, e.(minimized := true));
      ReplaceMembers(w.windows, e.(minimized := false));
      WithConserves(d, i, MinimizedIn(w, e));
      WithConserves(d, i, RestoredIn(w, e));
      RelayConserves(With(d, i, MinimizedIn(w, e)), i == d.active);
      RelayConserves(With(d, i, RestoredIn(w, e)), i == d.active);
    }
  }

  lemma LastUnminimizedConserves(d: Desk)
    requires Inv(d)
    ensures Conserves(d, LastUnminimized(d))
  {
    var stack := d.workspaces[d.active].minimizedHistory;
    if stack != [] {
      MinimizedConserves(d, stack[|stack| - 1]);
    }
  }

  lemma SetExpandedConserves(d: Desk, id: nat, fullscreen: bool, on: bool)
    requires Inv(d)
    ensures Conserves(d, SetExpanded(d, id, fullscreen, on))
  {
    var at := WorkspaceOf(d.workspaces, id);
    if at.Some? {
      var w := Expanded(d.workspaces[at.value], id, fullscreen, on);
      WithConserves(d, at.value, w);
      RelayConserves(With(d, at.value, w), at.value == d.active);
    }
  }

  lemma FloatingToggledConserves(d: Desk, usable: Rect, min: Size, max: Size)
    requires Inv(d)
    ensures Conserves(d, FloatingToggled(d, usable, min, max))
  {
    var w := d.workspaces[d.active];
    if !(d.focus.None? || !Visible(w, d.focus.value) || w.fullscreen == d.focus || w.maximized == d.focus) {
      var e := Toggled(Find(w.windows, d.focus.value).value, usable, d.output, min, max);
      var t := With(d, d.active, WithEntry(w, e));
      EntryConserves(d, d.active, e);
      RelayConserves(t, true);
      FocusInConserves(Relay(t), e.id);
    }
  }

  lemma RefreshedConserves(d: Desk, id: nat, hints: Hints)
    requires Inv(d)
    ensures Conserves(d, Refreshed(d, id, hints))
  {
    var found := WorkspaceOf(d.workspaces, id);
    if found.Some? {
      var index := found.value;
      var at := OrElse(ParentAt(d, id, hints), index);
      var d1 := Followed(d, index, at, id);
      FollowedInv(d, index, at, id);
      FollowedConserves(d, index, at, id);
      var was := Find(d1.workspaces[at].windows, id).value;
      var e := Hinted(was, hints, if ParentAt(d, id, hints).Some? then hints.parent else None, d.output);
      var touched := (at != index || e != was) && (at == d.active || index == d.active);
      assert Refreshed(d, id, hints) == RelayIf(Rehinted(d1, index, at, e), touched) by {
        RefreshedIs(d, id, hints, index, at, was, e, touched);
      }
      RehintedConserves(d1, index, at, e, d.active, touched, was);
    }
  }

  lemma RehintedConserves(d1: Desk, index: nat, at: nat, e: Entry, active: nat, touched: bool, was: Entry)
    requires Inv(d1) && at < |d1.workspaces| && Find(d1.workspaces[at].windows, e.id) == Some(was)
             && d1.active == active
    requires e.minimized == was.minimized && e.stackWeight == was.stackWeight
    ensures active < |Rehinted(d1, index, at, e).workspaces| && Rehinted(d1, index, at, e).active == active
    ensures Conserves(d1, RelayIf(Rehinted(d1, index, at, e), touched))
  {
    var w := d1.workspaces[at];
    assert was in w.windows;
    WithEntryTidy(w, e, d1.census);
    WithInv(d1, at, WithEntry(w, e));
    EntryConserves(d1, at, e);
    TrimInv(With(d1, at, WithEntry(w, e)));
    TrimConserves(With(d1, at, WithEntry(w, e)));
    RelayConserves(Rehinted(d1, index, at, e), touched);
  }

  lemma PlacedConserves(d: Desk, id: nat, index: nat, target: nat)
    requires Inv(d) && index < |d.workspaces| && target < |d.workspaces| && index != target
    ensures Conserves(d, Placed(d, id, index, target))
  {
    var d1 := Moved(d, index, target, {id}).(unmanaged := Rehosted(d.unmanaged, {id}, target));
    MovedConserves(d, index, target, {id});
    PlacedInRange(d, id, index, target);
    TrimConserves(d1);
    RelayConserves(Trim(d1), index == d.active || target == d.active);
  }

  lemma RulesAppliedConserves(d: Desk, id: nat, rules: Rules, hints: Hints)
    requires Inv(d)
    ensures Conserves(d, RulesApplied(d, id, rules, hints))
  {
    var found := WorkspaceOf(d.workspaces, id);
    if found.Some? && !Find(d.workspaces[found.value].windows, id).value.rulesApplied {
      var index := found.value;
      var was, target := Find(d.workspaces[index].windows, id).value, RuleTarget(rules, index);
      var d1 := WithRules(d, index, was, rules);
      RuledInv(d, index, was, rules);
      EntryConserves(d, index, Ruled(was, rules));
      RulePlacedInv(d1, id, index, target);
      RulePlacedConserves(d1, id, index, target);
      if RulePlaced(d1, id, index, target).Some? {
        RefreshedConserves(RulePlaced(d1, id, index, target).value, id, hints);
      }
    }
  }

  lemma RulePlacedConserves(d: Desk, id: nat, index: nat, target: nat)
    requires Inv(d) && index < |d.workspaces|
    ensures RulePlaced(d, id, index, target).Some? ==> Conserves(d, RulePlaced(d, id, index, target).value)
  {
    if target != index && Ensured(d, target + 1).Some? {
      EnsuredInv(d, target + 1);
      EnsuredConserves(d, target + 1);
      PlacedConserves(Ensured(d, target + 1).value, id, index, target);
    }
  }

  lemma CancelledConserves(d: Desk)
    requires Inv(d)
    ensures Conserves(d, SwipeCancelled(d)) && Conserves(d, MotionCancelled(d))
  {
    FewerHeld(d, d.(preview := None));
    TrimConserves(d.(preview := None));
    FewerHeld(d, d.(tracks := []));
    TrimConserves(d.(tracks := []));
  }

  lemma FamilyMovedConserves(d: Desk, target: nat)
    requires Inv(d)
    ensures Conserves(d, FamilyMoved(d, target))
  {
    if FocusedWindow(d).Some? && d.active != target {
      IdleConserves(d);
      if Ensured(Idle(d), target).Some? {
        EnsuredInv(Idle(d), target);
        EnsuredConserves(Idle(d), target);
        ComponentMovedConserves(Ensured(Idle(d), target).value, target, d.focus.value);
      }
    }
  }

  lemma IdleConserves(d: Desk)
    requires Inv(d)
    ensures Inv(Idle(d)) && Idle(d).active == d.active && Conserves(d, Idle(d))
  {
    IdleInv(d);
    CancelledInv(d);
    CancelledConserves(d);
    CancelledConserves(SwipeCancelled(d));
  }

  lemma ComponentMovedConserves(d: Desk, target: nat, focused: nat)
    requires Inv(d) && target < |d.workspaces| && target != d.active
    ensures Conserves(d, ComponentMoved(d, target, focused))
  {
    var ids := ComponentOf(d.workspaces[d.active].windows, focused);
    TransferredInv(d, d.active, target, ids);
    MovedConserves(d, d.active, target, ids);
    TrimConserves(Transferred(d, d.active, target, ids));
    RelayConserves(Trim(Transferred(d, d.active, target, ids)), true);
  }

  lemma EnteredConserves(d: Desk, index: nat)
    requires Inv(d) && index < |d.workspaces|
    ensures Conserves(d, Entered(d, index))
  {
    if d.focus.Some? {
      RememberedConserves(d, d.focus.value);
    }
    EnteringInv(d, index);
    RelayConserves(Entering(d, index), true);
  }

  lemma SwitchedConserves(d: Desk, index: nat, animate: bool)
    requires Inv(d)
    ensures Conserves(d, Switched(d, index, animate))
  {
    if Ensured(d, index).Some? {
      var d1 := Ensured(d, index).value;
      EnsuredInv(d, index);
      EnsuredConserves(d, index);
      CancelledInv(d1);
      CancelledConserves(d1);
      EnsuredInv(SwipeCancelled(d1), index);
      EnsuredConserves(SwipeCancelled(d1), index);
      ArrivalConserves(d, Ensured(SwipeCancelled(d1), index).value, index, animate);
    }
  }

  lemma ArrivalConserves(d: Desk, e: Desk, index: nat, animate: bool)
    requires Inv(d) && Inv(e) && index < |e.workspaces| && d.active < |e.workspaces|
    ensures var d2 := Entered(e, index);
            Conserves(e,
                Trim(if d.active != index && animate then d2.(tracks := Animated(d2.tracks, d.active, index)) else d2))
  {
    var d2 := Entered(e, index);
    EnteredInv(e, index);
    EnteredConserves(e, index);
    AnimatedInv(d2, d.active, index);
    TrimConserves(d2);
    TrimConserves(d2.(tracks := Animated(d2.tracks, d.active, index)));
  }

  lemma WindowFocusedConserves(d: Desk, id: nat, animate: bool)
    requires Inv(d)
    ensures Conserves(d, WindowFocused(d, id, animate))
  {
    var at := WorkspaceOf(d.workspaces, id);
    if at.Some? && ShownId(d.workspaces[at.value].windows, id) {
      SwitchedInv(d, at.value, animate);
      SwitchedConserves(d, at.value, animate);
      RevealConserves(if at.value != d.active then Switched(d, at.value, animate) else d, id, true);
    }
  }

  lemma FocusCycledConserves(d: Desk, mru: bool, step: Step)
    requires Inv(d)
    ensures Conserves(d, FocusCycled(d, mru, step))
  {
    var s := StageOf(d);
    match NextTarget(SequenceOf(s.w.focusHistory, Candidates(s.w), mru), s.focus, step)
    case Some(target) => RevealConserves(d, target, false);
    case None => StagedConserves(d, s);
  }

  // ------------------------------------------------------------------
  // Drags

  lemma MappedConserves(d: Desk, v: Workspace)
    requires d.active < |d.workspaces| && SameForest(d.workspaces[d.active].windows, v.windows)
    ensures var m := v.(windows := NormalizedStack(v.windows));
            Conserves(d, With(d, d.active, v)) && Conserves(d, With(d, d.active, m))
  {
    ForestIds(d.workspaces[d.active].windows, v.windows);
    WithConserves(d, d.active, v);
    ForestIds(v.windows, NormalizedStack(v.windows));
    WithConserves(d, d.active, v.(windows := NormalizedStack(v.windows)));
  }

  lemma RatioSetConserves(d: Desk, screen: Drag.Screen, ratio: Option<nat>)
    requires Inv(d)
    ensures Conserves(d, RatioSet(d, screen, ratio))
  {
    var w := d.workspaces[d.active];
    var v := w.(masterRatio := if ratio.Some? then Some(Clamp(ratio.value, 1000, 9000)) else None);
    MappedConserves(d, v);
    assert d.workspaces[d.active := v][d.active := v.(windows := NormalizedStack(v.windows))]
        == d.workspaces[d.active := v.(windows := NormalizedStack(v.windows))];
  }

  lemma PlacedRectConserves(d: Desk, screen: Drag.Screen, id: nat, rect: Rect)
    requires Inv(d)
    ensures Conserves(d, d.(workspaces := Drag.SetFloating(SceneOf(d, screen), id, rect).workspaces))
  {
    var at := Drag.FloatingEntry(SceneOf(d, screen), id);
    if at.Some? {
      var home := at.value.0;
      var v := Drag.SetFloating(SceneOf(d, screen), id, rect).workspaces[home];
      ForestIds(d.workspaces[home].windows, v.windows);
      UpdateKeeps(d.workspaces, home, v);
    }
  }

  lemma WeighedConserves(d: Desk, screen: Drag.Screen, ids: seq<nat>, weights: seq<nat>)
    requires Inv(d) && |ids| == |weights|
    ensures Conserves(d, d.(workspaces := Drag.WithWeights(SceneOf(d, screen), ids, weights).workspaces))
  {
    var w := d.workspaces[d.active];
    var v := w.(windows := Reweigh(w.windows, ids, Drag.AtLeastOne(weights)));
    MappedConserves(d, v);
    assert d.workspaces[d.active := v][d.active := v.(windows := NormalizedStack(v.windows))]
        == d.workspaces[d.active := v.(windows := NormalizedStack(v.windows))];
  }

  lemma WishConserves(d: Desk, screen: Drag.Screen, wish: Drag.Wish)
    requires Inv(d)
    ensures Conserves(d, WishGranted(d, screen, wish))
  {
    if Admissible(d, wish) {
      match wish {
        case Nothing =>
        case Place(id, rect) => PlacedRectConserves(d, screen, id, rect);
        case Divide(ratio) => RatioSetConserves(d, screen, Some(ratio));
        case Weigh(ids, weights) => WeighedConserves(d, screen, ids, weights);
      }
    }
  }

  lemma TilesSwappedConserves(d: Desk, screen: Drag.Screen, source: nat, destination: nat)
    requires Inv(d)
    ensures Conserves(d, TilesSwapped(d, screen, source, destination))
  {
    var w := d.workspaces[d.active];
    var a, b := IndexOf(w.windows, source), IndexOf(w.windows, destination);
    if a.Some? && b.Some? {
      var v := w.(windows := Drag.Exchanged(w.windows, a.value, b.value));
      ExchangedIds(w.windows, a.value, b.value);
      ForestIds(v.windows, NormalizedStack(v.windows));
      WithConserves(d, d.active, v.(windows := NormalizedStack(v.windows)));
      assert d.workspaces[d.active := v][d.active := v.(windows := NormalizedStack(v.windows))]
          == d.workspaces[d.active := v.(windows := NormalizedStack(v.windows))];
    }
  }

  // ------------------------------------------------------------------
  // Coming and going

  // One window more, counted.
  ghost predicate Joins(d: Desk, r: Desk, id: nat) {
    r.census == Joined(d.census, id) && r.nextId == d.nextId + 1
        && Everyone(d.workspaces) + {id} <= Everyone(r.workspaces)
  }

  // One window less, if it was there.
  ghost predicate Leaves(d: Desk, r: Desk, id: nat) {
    && r.census == (if WorkspaceOf(d.workspaces, id).Some? then Departed(d.census, id) else d.census)
    && r.nextId == d.nextId && Everyone(d.workspaces) - {id} <= Everyone(r.workspaces)
    && (WorkspaceOf(d.workspaces, id).None? ==> Everyone(d.workspaces) <= Everyone(r.workspaces))
  }

  lemma OpenedJoins(d: Desk, index: nat)
    requires index < |d.workspaces|
    ensures Joins(d, Opened(d, index), d.nextId)
  {
    var w, e := d.workspaces[index], NewEntry(d.nextId);
    var ws := Opened(d, index).workspaces;
    assert Ids(w.windows) <= Ids(ws[index].windows) by {
      forall f | f in w.windows ensures f in ws[index].windows {
      }
    }
    UpdateKeeps(d.workspaces, index, ws[index]);
    assert e in ws[index].windows;
  }

  lemma AddedJoins(d: Desk, child: nat, hints: Hints, takesFocus: bool)
    requires Inv(d)
    ensures Joins(d, Added(d, child, hints, takesFocus), d.nextId)
  {
    var index, d1 := LaunchIndex(d, child), Launched(d, child);
    LaunchInRange(d, child);
    OpenedInv(d, index);
    OpenedJoins(d, index);
    TrimConserves(Opened(d, index));
    LaunchedInv(d, child);
    RefreshedInv(d1, d.nextId, hints);
    RefreshedConserves(d1, d.nextId, hints);
    MadeHomeConserves(Refreshed(d1, d.nextId, hints), d.nextId, takesFocus);
  }

  lemma MadeHomeConserves(d: Desk, id: nat, takesFocus: bool)
    requires Inv(d)
    ensures Conserves(d, MadeHome(d, id, takesFocus))
  {
    var r := RememberedIn(d, id);
    RememberedInInv(d, id);
    RememberedConserves(d, id);
    RelayConserves(r, true);
    FocusInConserves(Relay(r), id);
  }

  lemma ClosedLeaves(d: Desk, id: nat)
    requires Inv(d)
    ensures Leaves(d, Closed(d, id), id)
  {
    var r := Without(d, id);
    WithoutInv(d, id);
    WithoutLeaves(d, id);
    TrimInv(r);
    TrimConserves(r);
    RelayConserves(Trim(r), true);
  }

  lemma WithoutLeaves(d: Desk, id: nat)
    requires Inv(d)
    ensures Leaves(d, Without(d, id), id)
  {
    var at := WorkspaceOf(d.workspaces, id);
    if at.Some? {
      var part := Part(d.workspaces[at.value], {id}, false);
      PartIds(d.workspaces[at.value], {id}, false);
      forall x | x in Everyone(d.workspaces) && x != id ensures x in Everyone(Without(d, id).workspaces) {
        var i, e :| 0 <= i < |d.workspaces| && e in d.workspaces[i].windows && e.id == x;
        assert e in Without(d, id).workspaces[i].windows;
      }
    }
  }
}
