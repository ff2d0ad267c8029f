// The compositor's desktop state, updated in place. Each method is proved to
// perform the operation of the same meaning on values.
module Desktop {
  import opened Common
  import opened Model
  import opened ParentGraph
  import opened Stacking
  import opened Raising
  import opened Tiling
  import opened Visibility
  import opened Focus
  import opened Cycling
  import opened Ring
  import opened Desk
  import opened Operations
  import opened Transfers
  import Nav = Navigation

  class Desktop {
    var workspaces: seq<Workspace>
    var active: nat
    var last: Option<nat>
    var nextId: nat
    ghost var census: Census
    var focus: Option<nat>
    var unmanaged: seq<Unmanaged>
    var children: seq<nat>
    var tracks: seq<nat>
    var preview: Option<(nat, nat)>
    const predefined: nat
    const output: Size

    ghost function State(): Desk
      reads this
    {
      Desk(workspaces, active, last, nextId, census, focus, unmanaged, children, tracks, preview, predefined, output)
    }

    ghost predicate Valid()
      reads this
    {
      Inv(State())
    }

    function References(): seq<nat>
      reads this
    {
      Hosts(unmanaged) + children + tracks + if preview.Some? then [preview.value.0, preview.value.1] else []
    }

    constructor (predefined: nat, output: Size)
      requires predefined < Nav.MAX_WORKSPACES
      ensures Valid() && focus.None? && active == 0
      ensures workspaces == Nav.Grown([], Max(predefined + 1, 2))
    {
      workspaces := Nav.Grown([], Max(predefined + 1, 2));
      active, last, nextId, census, focus := 0, None, 1, Census({}, 0), None;
      unmanaged, children, tracks, preview := [], [], [], None;
      this.predefined := predefined;
      this.output := output;
      new;
      assert Tidy(EMPTY_WORKSPACE) && Ids(EMPTY_WORKSPACE.windows) == {};
      assert Held(State()) == [];
    }

    // ----------------------------------------------------------------
    // The dynamic tail

    method TrimDynamicWorkspaces()
      requires Valid()
      modifies this
      ensures Valid() && State() == Trim(old(State()))
    {
      TrimInv(State());
      var retained := Nav.Retained(workspaces, predefined, active, References());
      if retained < |workspaces| {
        workspaces := workspaces[..retained];
        if last.Some? && last.value >= retained {
          last := None;
        }
      } else if retained > |workspaces| {
        workspaces := Nav.Grown(workspaces, retained);
      } else {
        assert workspaces[..retained] == workspaces;
      }
    }

    method EnsureWorkspaceExists(index: nat) returns (ok: bool)
      requires Valid()
      modifies this
      ensures Valid() && ok == Ensured(old(State()), index).Some?
      ensures State() == if ok then Ensured(old(State()), index).value else old(State())
    {
      if index + 1 > Nav.MAX_WORKSPACES {
        return false;
      }
      EnsuredInv(State(), index);
      if index + 1 > |workspaces| {
        workspaces := Nav.Grown(workspaces, index + 1);
      }
      ok := true;
    }

    // ----------------------------------------------------------------
    // Weights, stacking and focus of the active workspace

    method NormalizeStackWeights()
      requires Valid()
      modifies this`workspaces
      ensures workspaces == old(workspaces)[active := Renormalized(StageOf(old(State()))).w]
    {
      var w := workspaces[active];
      var windows := NormalizeStack(w.windows);
      workspaces := workspaces[active := w.(windows := windows)];
    }

    method RememberFocusedWindow(id: nat)
      requires Valid()
      modifies this`workspaces
      ensures Valid() && State() == RememberedIn(old(State()), id)
    {
      RememberedInInv(State(), id);
      for i := 0 to |workspaces|
        invariant workspaces == old(workspaces)
        invariant forall k :: 0 <= k < i ==> Find(workspaces[k].windows, id).None?
      {
        if Find(workspaces[i].windows, id).Some? {
          var history := PickIds(workspaces[i].focusHistory, {id}, false) + [id];
          HomeIs(workspaces, id, i);
          workspaces := workspaces[i := workspaces[i].(focusHistory := history)];
          return;
        }
      }
      HomeIsNone(workspaces, id);
    }

    // Raise a floating window with its family: climb to the top of the family,
    // sort the drawing order stably by class, number the windows by rank.
    method RaiseFloatingWindow(id: nat)
      requires Valid()
      modifies this`workspaces
      ensures workspaces == old(workspaces)[active := Raised(old(workspaces)[active], id)]
    {
      var w := workspaces[active];
      var ws := w.windows;
      if !Floating(ws, id) {
        assert workspaces[active := w] == workspaces;
        return;
      }
      var root := ClimbFloating(ws, id);
      var order := SortByFamily(w, root, id);
      var windows := NumberByRank(ws, order);
      workspaces := workspaces[active := w.(windows := windows)];
    }

    // Visible windows of the active workspace take focus and rise.
    method ApplyManagedFocus(id: nat, remember: bool) returns (taken: bool)
      requires Valid()
      modifies this`workspaces, this`focus
      ensures Valid() && State() == FocusIn(old(State()), id, remember)
      ensures taken == Visible(old(workspaces)[active], id)
    {
      FocusInInv(State(), id, remember);
      FocusInParts(State(), id, remember);
      taken := IsVisible(workspaces[active], id);
      if !taken {
        return;
      }
      ghost var was := workspaces;
      if remember {
        RememberFocusedWindow(id);
      }
      assert workspaces == was[active := if remember then Remembered(was[active], id) else was[active]];
      RaiseFloatingWindow(id);
      assert workspaces == was[active := Raised(if remember then Remembered(was[active], id) else was[active], id)];
      focus := Some(id);
    }

    method RestoreActiveFocus()
      requires Valid()
      modifies this`workspaces, this`focus
      ensures State() == Staged(old(State()), Restored(StageOf(old(State()))))
    {
      assert workspaces[active := workspaces[active]] == workspaces;
      if focus.Some? {
        var sound := IsVisible(workspaces[active], focus.value);
        if sound {
          return;
        }
      }
      var id := FindLastVisible(workspaces[active]);
      if id.Some? {
        var taken := ApplyManagedFocus(id.value, true);
      } else {
        focus := None;
      }
    }

    method RelayoutActiveWorkspace()
      requires Valid()
      modifies this`workspaces, this`focus
      ensures Valid() && State() == Relay(old(State()))
      ensures FocusOk(State())
    {
      RelayInv(State());
      RelayParts(State());
      NormalizeStackWeights();
      RestoreActiveFocus();
    }

    // Cycle focus; recency is not rewritten.
    method CycleFocus(mru: bool, step: Step)
      requires Valid()
      modifies this`workspaces, this`focus
      ensures Valid() && State() == FocusCycled(old(State()), mru, step)
    {
      FocusCycledInv(State(), mru, step);
      assert workspaces[active := workspaces[active]] == workspaces;
      var candidates := FocusCycleCandidates(workspaces[active]);
      CandidatesNoDup(workspaces[active].windows, workspaces[active].windows);
      var sequence := FocusCycleSequence(workspaces[active].focusHistory, candidates, mru);
      var target := NextTarget(sequence, focus, step);
      if target.None? {
        return;
      }
      RevealAndFocus(target.value, false);
    }

    method RevealAndFocus(id: nat, remember: bool)
      requires Valid()
      modifies this`workspaces, this`focus
      ensures Valid() && State() == Staged(old(State()), RevealedFocus(StageOf(old(State())), id, remember))
    {
      RevealedInv(State(), id, remember);
      ghost var d := State();
      var visible := IsVisible(workspaces[active], id);
      if !visible {
        UncoveredInv(State());
        workspaces := workspaces[active := workspaces[active].(fullscreen := None, maximized := None)];
        assert State() == Uncovered(d);
        RelayoutActiveWorkspace();
        UncoveredStage(d, Relaid(Bare(StageOf(d))), Focused(Relaid(Bare(StageOf(d))), id, remember));
      }
      var taken := ApplyManagedFocus(id, remember);
    }

    // ----------------------------------------------------------------
    // Minimizing, restoring, expanding, closing

    method MinimizeWindow(id: nat)
      requires Valid()
      modifies this`workspaces, this`focus
      ensures Valid() && State() == Minimized(old(State()), id)
    {
      MinimizedInv(State(), id);
      var at := WorkspaceOf(workspaces, id);
      if at.None? {
        return;
      }
      var e := Find(workspaces[at.value].windows, id).value;
      if e.minimized {
        return;
      }
      MinimizeStepInv(State(), at.value, e);
      workspaces := workspaces[at.value := MinimizedIn(workspaces[at.value], e)];
      if at.value == active {
        RelayoutActiveWorkspace();
      }
    }

    method RestoreWindow(id: nat) returns (found: bool)
      requires Valid()
      modifies this`workspaces, this`focus
      ensures Valid() && State() == Unminimized(old(State()), id)
      ensures found == WorkspaceOf(old(workspaces), id).Some?
    {
      MinimizedInv(State(), id);
      var at := WorkspaceOf(workspaces, id);
      if at.None? {
        return false;
      }
      var e := Find(workspaces[at.value].windows, id).value;
      if e.minimized {
        MinimizeStepInv(State(), at.value, e);
        workspaces := workspaces[at.value := RestoredIn(workspaces[at.value], e)];
        if at.value == active {
          RelayoutActiveWorkspace();
        }
      }
      found := true;
    }

    // Pop the minimized stack until a window that is still minimized turns up:
    // the invariant makes that the first one.
    method RestoreLastMinimizedWindow() returns (restored: bool)
      requires Valid()
      modifies this`workspaces, this`focus
      ensures Valid() && State() == LastUnminimized(old(State()))
      ensures restored == (old(workspaces)[active].minimizedHistory != [])
    {
      MinimizedInv(State(), 0);
      var popped := PopMinimized(workspaces[active]);
      PopIsRestore(State(), popped);
      restored := popped.Some?;
      if popped.Some? {
        var (e, stack) := popped.value;
        workspaces := workspaces[active := Popped(workspaces[active], e, stack)];
        RelayoutActiveWorkspace();
      }
    }

    method SetWindowExpanded(id: nat, fullscreen: bool, on: bool)
      requires Valid()
      modifies this`workspaces, this`focus
      ensures Valid() && State() == SetExpanded(old(State()), id, fullscreen, on)
    {
      SetExpandedInv(State(), id, fullscreen, on);
      var at := WorkspaceOf(workspaces, id);
      if at.None? {
        return;
      }
      var w := workspaces[at.value];
      if on == ((if fullscreen then w.fullscreen else w.maximized) == Some(id)) {
        return;
      }
      ExpandStepInv(State(), at.value, id, fullscreen, on);
      workspaces := workspaces[at.value := Expanded(w, id, fullscreen, on)];
      if at.value == active {
        RelayoutActiveWorkspace();
      }
    }

    // Fails when nothing is focused, or the focused window is hidden or expanded.
    method ToggleFloatingFocused(usable: Rect, min: Size, max: Size) returns (ok: bool)
      requires Valid()
      modifies this`workspaces, this`focus
      ensures Valid() && State() == FloatingToggled(old(State()), usable, min, max)
      ensures ok == old(focus.Some? && Visible(workspaces[active], focus.value)
              && workspaces[active].fullscreen != focus
                        && workspaces[active].maximized != focus)
      ensures !ok ==> State() == old(State())
    {
      FloatingToggledInv(State(), usable, min, max);
      if focus.None? {
        return false;
      }
      var w, id := workspaces[active], focus.value;
      var visible := IsVisible(w, id);
      if !visible || w.fullscreen == Some(id) || w.maximized == Some(id) {
        return false;
      }
      SetMode(Toggled(Find(w.windows, id).value, usable, output, min, max));
      ok := true;
    }

    method SetMode(e: Entry)
      requires Valid() && Find(workspaces[active].windows, e.id).Some?
      requires var was := Find(workspaces[active].windows, e.id).value;
               e.minimized == was.minimized && e.stackWeight == was.stackWeight
      modifies this`workspaces, this`focus
      ensures Valid() && State() == ModeSet(old(State()), e)
    {
      ghost var d := State();
      StoredInv(d, active, Find(workspaces[active].windows, e.id).value, e);
      workspaces := workspaces[active := WithEntry(workspaces[active], e)];
      assert State() == With(d, active, WithEntry(d.workspaces[active], e));
      RelayoutActiveWorkspace();
      var taken := ApplyManagedFocus(e.id, true);
    }

    method RemoveManagedWindow(id: nat)
      requires Valid()
      modifies this
      ensures Valid() && State() == Closed(old(State()), id)
    {
      ClosedInv(State(), id);
      WithoutInv(State(), id);
      ExtractWindow(id);
      TrimDynamicWorkspaces();
      RelayoutActiveWorkspace();
    }

    method ExtractWindow(id: nat)
      requires Valid()
      modifies this`workspaces, this`census
      ensures State() == Without(old(State()), id)
    {
      ghost var was := workspaces;
      for i := 0 to |workspaces|
        invariant workspaces == was && census == old(census)
        invariant forall k :: 0 <= k < i ==> Find(was[k].windows, id).None?
      {
        if Find(workspaces[i].windows, id).Some? {
          HomeIs(workspaces, id, i);
          workspaces := workspaces[i := Part(workspaces[i], {id}, false)];
          census := Departed(census, id);
          // No other workspace holds the window, so the remaining rounds extract nothing.
          return;
        }
      }
      HomeIsNone(workspaces, id);
    }

    // ----------------------------------------------------------------
    // Hints, rules and opening

    method RefreshWindowHints(id: nat, hints: Hints)
      requires Valid()
      modifies this
      ensures Valid() && State() == Refreshed(old(State()), id, hints)
    {
      ghost var d := State();
      var found := WorkspaceOf(workspaces, id);
      if found.None? {
        return;
      }
      var index := found.value;
      var named := hints.parent.Some? && hints.parent.value != id;
      var parentAt := if named then WorkspaceOf(workspaces, hints.parent.value) else None;
      var target := OrElse(parentAt, index);
      FollowedInv(d, index, target, id);
      if target != index {
        AdoptWindow(id, index, target);
      }
      StoreHints(d, id, hints, index, target, if parentAt.Some? then hints.parent else None);
    }

    method StoreHints(ghost d: Desk, id: nat, hints: Hints, index: nat, target: nat, parent: Option<nat>)
      requires Valid() && Inv(d) && WorkspaceOf(d.workspaces, id) == Some(index)
      requires target == OrElse(ParentAt(d, id, hints), index) && target < |d.workspaces|
      requires parent == if ParentAt(d, id, hints).Some? then hints.parent else None
      requires State() == Followed(d, index, target, id) && Find(workspaces[target].windows, id).Some?
      modifies this
      ensures Valid() && State() == Refreshed(d, id, hints)
    {
      var was := Find(workspaces[target].windows, id).value;
      var e := Hinted(was, hints, parent, output);
      var touched := (target != index || e != was) && (target == active || index == active);
      assert Inv(Refreshed(d, id, hints))
             && Refreshed(d, id, hints) == RelayIf(Rehinted(State(), index, target, e), touched) by {
        RefreshedIs(d, id, hints, index, target, was, e, touched);
      }
      StoreAndShow(index, target, was, e, touched);
    }

    method StoreAndShow(index: nat, target: nat, ghost was: Entry, e: Entry, touched: bool)
      requires Valid() && target < |workspaces|
      requires Find(workspaces[target].windows, e.id) == Some(was)
      requires e.minimized == was.minimized && e.stackWeight == was.stackWeight
      modifies this
      ensures Valid()
      ensures active < |Rehinted(old(State()), index, target, e).workspaces|
      ensures State() == RelayIf(Rehinted(old(State()), index, target, e), touched)
    {
      StoreHinted(index, target, was, e);
      if touched {
        RelayoutActiveWorkspace();
      }
    }

    method StoreHinted(index: nat, target: nat, ghost was: Entry, e: Entry)
      requires Valid() && target < |workspaces|
      requires Find(workspaces[target].windows, e.id) == Some(was)
      requires e.minimized == was.minimized && e.stackWeight == was.stackWeight
      modifies this
      ensures Valid() && State() == Rehinted(old(State()), index, target, e)
    {
      StoredInv(State(), target, was, e);
      workspaces := workspaces[target := WithEntry(workspaces[target], e)];
      if target != index {
        TrimDynamicWorkspaces();
      }
    }

    method AdoptWindow(id: nat, index: nat, target: nat)
      requires Valid() && index < |workspaces| && target < |workspaces| && target != index
      requires Find(workspaces[index].windows, id).Some?
      modifies this`workspaces
      ensures Valid() && State() == Adopted(old(State()), index, target, id)
    {
      AdoptedInv(State(), index, target, id);
      TakenOne(workspaces[index], id);
      var source, destination := SplitOff(workspaces[index], workspaces[target], id);
      workspaces := workspaces[index := source][target := destination];
    }

    method RehostUnmanaged(ids: set<nat>, target: nat)
      modifies this`unmanaged
      ensures unmanaged == Rehosted(old(unmanaged), ids, target)
    {
      for i := 0 to |unmanaged|
        invariant |unmanaged| == |old(unmanaged)|
        invariant forall k :: i <= k < |unmanaged| ==> unmanaged[k] == old(unmanaged)[k]
        invariant forall k :: 0 <= k < i ==> unmanaged[k] == Rehosted(old(unmanaged), ids, target)[k]
      {
        if unmanaged[i].parent.Some? && unmanaged[i].parent.value in ids {
          unmanaged := unmanaged[i := unmanaged[i].(workspace := target)];
        }
      }
    }

    // Extract windows with their histories and owners, and append them to the target.
    method TransferWindows(ids: set<nat>, source: nat, target: nat)
      requires Valid() && source < |workspaces| && target < |workspaces| && source != target
      modifies this`workspaces, this`unmanaged
      ensures Valid() && State() == Transferred(old(State()), source, target, ids)
    {
      TransferredInv(State(), source, target, ids);
      var rest, destination := SplitFamily(workspaces[source], workspaces[target], ids);
      RehostUnmanaged(ids, target);
      workspaces := workspaces[source := rest][target := destination];
    }

    method ApplyWindowRulesOnOpen(id: nat, rules: Rules, hints: Hints)
      requires Valid()
      modifies this
      ensures Valid() && State() == RulesApplied(old(State()), id, rules, hints)
    {
      ghost var d := State();
      RulesAppliedInv(d, id, rules, hints);
      var found := WorkspaceOf(workspaces, id);
      if found.None? {
        return;
      }
      var index := found.value;
      var was := Find(workspaces[index].windows, id).value;
      if was.rulesApplied {
        return;
      }
      RuledInv(d, index, was, rules);
      workspaces := workspaces[index := WithEntry(workspaces[index], Ruled(was, rules))];
      var target := RuleTarget(rules, index);
      RulePlacedInv(State(), id, index, target);
      if target != index {
        var ok := PlaceByRule(id, index, target);
        if !ok {
          return;
        }
      }
      RefreshWindowHints(id, hints);
    }

    method PlaceByRule(id: nat, index: nat, target: nat) returns (ok: bool)
      requires Valid() && index < |workspaces| && index != target
      modifies this
      ensures Valid() && ok == RulePlaced(old(State()), id, index, target).Some?
      ensures State() == if ok then RulePlaced(old(State()), id, index, target).value else old(State())
    {
      ghost var d := State();
      RulePlacedInv(d, id, index, target);
      ok := EnsureWorkspaceExists(target + 1);
      if ok {
        EnsuredInv(d, target + 1);
        Place(id, index, target);
      }
    }

    method Place(id: nat, index: nat, target: nat)
      requires Valid() && index < |workspaces| && target < |workspaces| && index != target
      modifies this
      ensures Valid() && State() == Placed(old(State()), id, index, target)
    {
      PlacedInv(State(), id, index, target);
      PlacedInRange(State(), id, index, target);
      TransferWindows({id}, index, target);
      TrimDynamicWorkspaces();
      if index == active || target == active {
        RelayoutActiveWorkspace();
      }
    }

    method AddWorkspaceWindow(child: nat, hints: Hints, takesFocus: bool) returns (id: nat)
      requires Valid()
      modifies this
      ensures Valid() && id == old(nextId) && State() == Added(old(State()), child, hints, takesFocus)
    {
      ghost var d := State();
      LaunchInRange(d, child);
      var index := if child < |children| then children[child] else active;
      OpenedInv(d, index);
      id := nextId;
      nextId, census := nextId + 1, Joined(census, id);
      workspaces := workspaces[index := workspaces[index].(windows := workspaces[index].windows + [NewEntry(id)])];
      assert State() == Opened(d, index);
      TrimDynamicWorkspaces();
      assert State() == Launched(d, child);
      AddedInv(d, child, hints, takesFocus);
      RefreshWindowHints(id, hints);
      SettleWindow(id, takesFocus);
    }

    method SettleWindow(id: nat, takesFocus: bool)
      requires Valid()
      modifies this`workspaces, this`focus
      ensures Valid() && State() == MadeHome(old(State()), id, takesFocus)
    {
      MadeHomeInv(State(), id, takesFocus);
      var home := WorkspaceOf(workspaces, id);
      RememberFocusedWindow(id);
      if home == Some(active) {
        RelayoutActiveWorkspace();
        if takesFocus {
          var taken := ApplyManagedFocus(id, true);
        }
      }
    }

    // ----------------------------------------------------------------
    // Moving a family and switching

    method CancelSwipe()
      requires Valid()
      modifies this
      ensures Valid() && State() == SwipeCancelled(old(State()))
    {
      CancelledInv(State());
      if preview.Some? {
        FewerHeld(State(), State().(preview := None));
        preview := None;
        TrimDynamicWorkspaces();
      }
    }

    method CancelWorkspaceMotion()
      requires Valid()
      modifies this
      ensures Valid() && State() == MotionCancelled(old(State()))
    {
      CancelledInv(State());
      FewerHeld(State(), State().(tracks := []));
      tracks := [];
      TrimDynamicWorkspaces();
    }

    // The transient family travels together, so parent hints cannot pull dialogs back.
    method MoveFocusedToWorkspace(target: nat) returns (ok: bool)
      requires Valid()
      modifies this
      ensures Valid() && State() == FamilyMoved(old(State()), target)
      ensures ok == (FocusedWindow(old(State())).Some?
                     && (old(active) == target || Ensured(Idle(old(State())), target).Some?))
    {
      ghost var d := State();
      var managed := focus.Some? && Find(workspaces[active].windows, focus.value).Some?;
      var focused := if managed then focus else None;
      if focused.None? {
        return false;
      }
      if active == target {
        return true;
      }
      IdleInv(d);
      CancelSwipe();
      CancelWorkspaceMotion();
      ok := EnsureWorkspaceExists(target);
      if !ok {
        return;
      }
      EnsuredInv(Idle(d), target);
      FamilyMovedIs(d, target, State());
      var source := active;
      var ids := Family(workspaces[source].windows, focused.value);
      ComponentUnique(workspaces[source].windows, focused.value, Elements(ids));
      TransferredInv(State(), source, target, Elements(ids));
      TransferWindows((set id | id in ids), source, target);
      TrimDynamicWorkspaces();
      RelayoutActiveWorkspace();
    }

    method RememberCurrentWindowFocus()
      requires Valid()
      modifies this`workspaces
      ensures Valid() && State() == FocusRemembered(old(State()))
    {
      if focus.Some? {
        RememberFocusedWindow(focus.value);
      }
    }

    method SwitchWorkspaceImmediate(index: nat) returns (ok: bool)
      requires Valid()
      modifies this
      ensures Valid() && ok == Ensured(SwipeCancelled(old(State())), index).Some?
      ensures State() == if ok then Entered(Ensured(SwipeCancelled(old(State())), index).value, index)
                         else SwipeCancelled(old(State()))
    {
      CancelledInv(State());
      CancelSwipe();
      ghost var d := State();
      ok := EnsureWorkspaceExists(index);
      if !ok {
        return;
      }
      EnsuredInv(d, index);
      EnterWorkspace(index);
    }

    method EnterWorkspace(index: nat)
      requires Valid() && index < |workspaces|
      modifies this`workspaces, this`focus, this`last, this`active
      ensures Valid() && State() == Entered(old(State()), index)
    {
      EnteredInv(State(), index);
      RememberCurrentWindowFocus();
      if index != active {
        last := Some(active);
      }
      active := index;
      EnteringInv(old(State()), index);
      assert State() == Entering(old(State()), index);
      RelayoutActiveWorkspace();
    }

    method SwitchWorkspace(index: nat, animate: bool)
      requires Valid()
      modifies this
      ensures Valid() && State() == Switched(old(State()), index, animate)
    {
      ghost var d := State();
      var ok := EnsureWorkspaceExists(index);
      if !ok {
        return;
      }
      EnsuredInv(d, index);
      var source := active;
      ok := SwitchWorkspaceImmediate(index);
      SwitchedIs(d, index, animate, State());
      if source != index && animate {
        AnimatedInv(State(), source, index);
        tracks := Animated(tracks, source, index);
      }
      TrimDynamicWorkspaces();
    }

    method FocusWindow(id: nat, animate: bool)
      requires Valid()
      modifies this
      ensures Valid() && State() == WindowFocused(old(State()), id, animate)
    {
      WindowFocusedInv(State(), id, animate);
      var at := WorkspaceOf(workspaces, id);
      if at.None? {
        return;
      }
      var e := Find(workspaces[at.value].windows, id).value;
      OnlyEntry(workspaces[at.value].windows, e);
      var shown := IsShown(workspaces[at.value].windows, e);
      if !shown {
        return;
      }
      SwitchedInv(State(), at.value, animate);
      if at.value != active {
        SwitchWorkspace(at.value, animate);
      }
      RevealAndFocus(id, true);
    }
  }

  // ------------------------------------------------------------------
  // Loops of the raise

  // The drawing order, stably sorted by (in the family, in the subtree).
  method SortByFamily(w: Workspace, root: nat, target: nat) returns (r: seq<nat>)
    requires UniqueIds(w.windows) && root == OuterFloat(w.windows, target, |w.windows|)
    ensures r == RaisedOrder(w, target)
  {
    var order := LayoutOrder(w);
    var family := Members(w.windows, root);
    var subtree := Members(w.windows, target);
    var inside := PickIds(order, family, true);
    r := PickIds(order, family, false) + PickIds(inside, subtree, false) + PickIds(inside, subtree, true);
  }

  method Members(ws: seq<Entry>, root: nat) returns (ids: set<nat>)
    requires UniqueIds(ws)
    ensures ids == FamilyOf(ws, root)
  {
    ids := {};
    for i := 0 to |ws|
      invariant forall id :: id in ids <==> exists j :: 0 <= j < i && ws[j].id == id && Within(ws, id, root)
    {
      var below := DescendantOf(ws, ws[i], root);
      if ws[i].id == root || below {
        ids := ids + {ws[i].id};
      }
    }
  }

  method NumberByRank(ws: seq<Entry>, order: seq<nat>) returns (r: seq<Entry>)
    requires UniqueIds(ws) && forall e :: e in ws ==> e.id in order
    ensures r == Ranked(ws, order)
  {
    r := ws;
    for rank := |order| downto 0
      invariant |r| == |ws|
      invariant forall i :: 0 <= i < |ws| ==>
                  r[i] == if Pos(order, ws[i].id) >= rank then ws[i].(stackingOrder := Pos(order, ws[i].id)) else ws[i]
    {
      var at := IndexOf(ws, order[rank]);
      if at.Some? && Pos(order, order[rank]) == rank {
        r := r[at.value := r[at.value].(stackingOrder := rank)];
      }
    }
  }

  method ClimbFloating(ws: seq<Entry>, id: nat) returns (root: nat)
    ensures root == OuterFloat(ws, id, |ws|)
  {
    root := id;
    for step := 0 to |ws|
      invariant OuterFloat(ws, id, |ws|) == OuterFloat(ws, root, |ws| - step)
    {
      var parent := ParentOf(ws, root);
      if parent.None? || !Floating(ws, parent.value) {
        return;
      }
      root := parent.value;
    }
  }

  // Pop until a window that is still minimized turns up.
  method PopMinimized(w: Workspace) returns (r: Option<(Entry, seq<nat>)>)
    ensures PoppedFrom(w, r)
  {
    var stack := w.minimizedHistory;
    while stack != []
      invariant stack <= w.minimizedHistory
      invariant forall k :: |stack| <= k < |w.minimizedHistory| ==> !StillMinimized(w, w.minimizedHistory[k])
      decreases |stack|
    {
      var entry := Find(w.windows, stack[|stack| - 1]);
      stack := stack[..|stack| - 1];
      if entry.Some? && entry.value.minimized {
        return Some((entry.value, stack));
      }
    }
    r := None;
  }

  predicate StillMinimized(w: Workspace, id: nat) {
    Find(w.windows, id).Some? && Find(w.windows, id).value.minimized
  }

  ghost predicate PoppedFrom(w: Workspace, r: Option<(Entry, seq<nat>)>) {
    match r
    case Some((e, stack)) =>
      && stack < w.minimizedHistory && e.minimized && Find(w.windows, w.minimizedHistory[|stack|]) == Some(e)
      && forall k :: |stack| < k < |w.minimizedHistory| ==> !StillMinimized(w, w.minimizedHistory[k])
    case None => forall k :: 0 <= k < |w.minimizedHistory| ==> !StillMinimized(w, w.minimizedHistory[k])
  }

  function Popped(w: Workspace, e: Entry, stack: seq<nat>): Workspace {
    WithEntry(w, e.(minimized := false)).(minimizedHistory := stack)
  }

  // ------------------------------------------------------------------
  // Facts the methods pass on

  lemma {:induction false} HomeIs(ws: seq<Workspace>, id: nat, i: nat)
    requires i < |ws| && Find(ws[i].windows, id).Some?
    requires forall k :: 0 <= k < i ==> Find(ws[k].windows, id).None?
    ensures WorkspaceOf(ws, id) == Some(i)
  {
    if i > 0 {
      HomeIs(ws[1..], id, i - 1);
    }
  }

  lemma HomeIsNone(ws: seq<Workspace>, id: nat)
    requires forall k :: 0 <= k < |ws| ==> Find(ws[k].windows, id).None?
    ensures WorkspaceOf(ws, id).None?
  {
  }

  // Taking focus is: remember, raise, set.
  lemma FocusInParts(d: Desk, id: nat, remember: bool)
    requires Inv(d)
    ensures !Visible(d.workspaces[d.active], id) ==> FocusIn(d, id, remember) == d
    ensures Visible(d.workspaces[d.active], id) ==>
              var w := d.workspaces[d.active];
              && RememberedIn(d, id) == With(d, d.active, Remembered(w, id))
              && FocusIn(d, id, remember)
                 == With(d, d.active, Raised(if remember then Remembered(w, id) else w, id)).(focus := Some(id))
  {
    assert d.workspaces[d.active := d.workspaces[d.active]] == d.workspaces;
    if Visible(d.workspaces[d.active], id) {
      UniqueHome(d, id, d.active);
    }
  }

  // A relayout is: renormalize the stack, restore focus.
  lemma RelayParts(d: Desk)
    requires Inv(d)
    ensures var m := With(d, d.active, Renormalized(StageOf(d)).w);
            Inv(m) && Relay(d) == Staged(m, Restored(StageOf(m)))
  {
    var w := d.workspaces[d.active];
    FewWindows(w, d.census.alive);
    NormalizedWeighted(w.windows, WEIGHT_UNIT * d.census.peak);
    FrameTidy(w, Renormalized(StageOf(d)).w, d.census);
    WithInv(d, d.active, Renormalized(StageOf(d)).w);
    assert StageOf(With(d, d.active, Renormalized(StageOf(d)).w)) == Renormalized(StageOf(d));
  }

  lemma MinimizeStepInv(d: Desk, i: nat, e: Entry)
    requires Inv(d) && i < |d.workspaces| && Find(d.workspaces[i].windows, e.id) == Some(e)
    ensures Inv(With(d, i, MinimizedIn(d.workspaces[i], e))) && Inv(With(d, i, RestoredIn(d.workspaces[i], e)))
    ensures WorkspaceOf(d.workspaces, e.id) == Some(i)
  {
    MinimizingTidy(d.workspaces[i], e, d.census);
    RestoringTidy(d.workspaces[i], e, d.census);
    WithInv(d, i, MinimizedIn(d.workspaces[i], e));
    WithInv(d, i, RestoredIn(d.workspaces[i], e));
    UniqueHome(d, e.id, i);
  }

  // In a tidy workspace the first entry popped is the one to restore.
  lemma PopIsRestore(d: Desk, popped: Option<(Entry, seq<nat>)>)
    requires Inv(d) && PoppedFrom(d.workspaces[d.active], popped)
    ensures popped.Some? == (d.workspaces[d.active].minimizedHistory != [])
    ensures popped.None? ==> LastUnminimized(d) == d
    ensures popped.Some? ==>
              var r := With(d, d.active, Popped(d.workspaces[d.active], popped.value.0, popped.value.1));
              Inv(r) && LastUnminimized(d) == Relay(r)
  {
    var w := d.workspaces[d.active];
    if w.minimizedHistory != [] {
      PopTakesTop(w, popped);
      RestoringTop(d, popped.value.0);
    }
  }

  lemma RestoringTop(d: Desk, e: Entry)
    requires Inv(d) && d.workspaces[d.active].minimizedHistory != [] && e.minimized
    requires var w := d.workspaces[d.active]; Find(w.windows, w.minimizedHistory[|w.minimizedHistory| - 1]) == Some(e)
    ensures var r := With(d, d.active, RestoredIn(d.workspaces[d.active], e));
            Inv(r) && LastUnminimized(d) == Relay(r)
  {
    assert Inv(With(d, d.active, RestoredIn(d.workspaces[d.active], e)))
           && WorkspaceOf(d.workspaces, e.id) == Some(d.active) by {
      MinimizeStepInv(d, d.active, e);
    }
    assert LastUnminimized(d) == Unminimized(d, e.id) by {
      assert e.id == d.workspaces[d.active].minimizedHistory[|d.workspaces[d.active].minimizedHistory| - 1];
    }
    RestoringIs(d, e);
  }

  lemma RestoringIs(d: Desk, e: Entry)
    requires Inv(d) && e.minimized
    requires WorkspaceOf(d.workspaces, e.id) == Some(d.active) && Find(d.workspaces[d.active].windows, e.id) == Some(e)
    ensures Unminimized(d, e.id) == Relay(With(d, d.active, RestoredIn(d.workspaces[d.active], e)))
  {
  }

  lemma PopTakesTop(w: Workspace, popped: Option<(Entry, seq<nat>)>)
    requires Tidy(w) && w.minimizedHistory != [] && PoppedFrom(w, popped)
    ensures popped.Some?
    ensures var (e, stack) := popped.value;
            && e.minimized && Find(w.windows, w.minimizedHistory[|w.minimizedHistory| - 1]) == Some(e)
            && Popped(w, e, stack) == RestoredIn(w, e)
  {
    var top := |w.minimizedHistory| - 1;
    assert popped.Some? && |popped.value.1| == top by { TopIsMinimized(w); }
    assert popped.value.1 == w.minimizedHistory[..top];
    PoppedIs(w.minimizedHistory);
  }

  lemma TopIsMinimized(w: Workspace)
    requires Tidy(w) && w.minimizedHistory != []
    ensures StillMinimized(w, w.minimizedHistory[|w.minimizedHistory| - 1])
  {
    var id := w.minimizedHistory[|w.minimizedHistory| - 1];
    assert id in w.minimizedHistory;
    var e :| e in w.windows && e.id == id && e.minimized;
    FindUnique(w.windows, e);
  }

  // Popping a duplicate-free stack drops exactly its top.
  lemma PoppedIs(stack: seq<nat>)
    requires stack != [] && NoDup(stack)
    ensures PickIds(stack, {stack[|stack| - 1]}, false) == stack[..|stack| - 1]
  {
    var front, top := stack[..|stack| - 1], stack[|stack| - 1];
    assert stack == front + [top];
    RejectLast(front, top);
  }

  lemma {:induction false} RejectLast(front: seq<nat>, top: nat)
    requires top !in front
    ensures PickIds(front + [top], {top}, false) == front
  {
    if front == [] {
      assert (front + [top])[1..] == [];
    } else {
      assert (front + [top])[1..] == front[1..] + [top];
      RejectLast(front[1..], top);
    }
  }

  lemma ExpandStepInv(d: Desk, i: nat, id: nat, fullscreen: bool, on: bool)
    requires Inv(d) && WorkspaceOf(d.workspaces, id) == Some(i)
    ensures Inv(With(d, i, Expanded(d.workspaces[i], id, fullscreen, on)))
  {
    assert Tidy(Expanded(d.workspaces[i], id, fullscreen, on));
    WithInv(d, i, Expanded(d.workspaces[i], id, fullscreen, on));
  }

  lemma StoredInv(d: Desk, i: nat, was: Entry, e: Entry)
    requires Inv(d) && i < |d.workspaces| && Find(d.workspaces[i].windows, e.id) == Some(was)
    requires e.minimized == was.minimized && e.stackWeight == was.stackWeight
    ensures Inv(With(d, i, WithEntry(d.workspaces[i], e)))
  {
    assert was in d.workspaces[i].windows;
    WithEntryTidy(d.workspaces[i], e, d.census);
    WithInv(d, i, WithEntry(d.workspaces[i], e));
  }

  // A switch, from the workspace entered on.
  lemma SwitchedIs(d: Desk, index: nat, animate: bool, e: Desk)
    requires Inv(d) && Inv(e) && Ensured(d, index).Some?
    requires var d1 := SwipeCancelled(Ensured(d, index).value);
             Ensured(d1, index).Some? && index < |Ensured(d1, index).value.workspaces|
             && e == Entered(Ensured(d1, index).value, index)
    ensures Inv(Switched(d, index, animate))
    ensures Switched(d, index, animate)
         == Trim(if d.active != index && animate then e.(tracks := Animated(e.tracks, d.active, index)) else e)
  {
    SwitchedInv(d, index, animate);
  }

  // A family moved from an idle desk on which the target workspace exists.
  lemma FamilyMovedIs(d: Desk, target: nat, e: Desk)
    requires Inv(d) && FocusedWindow(d).Some? && d.active != target
    requires Inv(Idle(d)) && Ensured(Idle(d), target) == Some(e)
    requires Inv(e) && target < |e.workspaces| && e.active == d.active
    ensures FamilyMoved(d, target) == ComponentMoved(e, target, d.focus.value) && Inv(FamilyMoved(d, target))
  {
    FamilyMovedInv(d, target);
  }

  // The entry leaves with its minimized mark and expanded state; its recency id stays.
  method SplitOff(from: Workspace, into: Workspace, id: nat) returns (source: Workspace, destination: Workspace)
    requires Find(from.windows, id).Some? && Pick(from.windows, {id}, true) == [Find(from.windows, id).value]
    requires PickIds(from.minimizedHistory, {id}, true) == if Find(from.windows, id).value.minimized then [id] else []
    ensures source == Part(from, {id}, false).(focusHistory := from.focusHistory)
    ensures destination == Merged(into, Part(from, {id}, true).(focusHistory := []))
  {
    var entry := Find(from.windows, id).value;
    var fullscreen, fullscreenTo := PassOwner(from.fullscreen, into.fullscreen, id);
    var maximized, maximizedTo := PassOwner(from.maximized, into.maximized, id);
    var minimizedTo := into.minimizedHistory;
    if entry.minimized {
      minimizedTo := minimizedTo + [id];
    }
    source := from.(windows := Pick(from.windows, {id}, false), fullscreen := fullscreen, maximized := maximized,
                    minimizedHistory := PickIds(from.minimizedHistory, {id}, false));
    destination := into.(windows := into.windows + [entry], fullscreen := fullscreenTo, maximized := maximizedTo,
                         minimizedHistory := minimizedTo);
    assert into.focusHistory + [] == into.focusHistory && into.minimizedHistory + [] == into.minimizedHistory;
  }

  // An expanded window stays expanded on the workspace it moves to.
  method PassOwner(from: Option<nat>, into: Option<nat>, id: nat)
                   returns (source: Option<nat>, destination: Option<nat>)
    ensures source == OwnerIn(from, {id}, false)
    ensures destination == if OwnerIn(from, {id}, true).Some? then OwnerIn(from, {id}, true) else into
  {
    source, destination := from, into;
    if source == Some(id) {
      source, destination := None, Some(id);
    }
  }

  method SplitFamily(from: Workspace, into: Workspace, ids: set<nat>) returns (rest: Workspace, destination: Workspace)
    ensures rest == Part(from, ids, false) && destination == Merged(into, Part(from, ids, true))
  {
    var fullscreen, maximized := OwnerIn(from.fullscreen, ids, true), OwnerIn(from.maximized, ids, true);
    rest := from.(windows := Pick(from.windows, ids, false),
                  focusHistory := PickIds(from.focusHistory, ids, false),
                  minimizedHistory := PickIds(from.minimizedHistory, ids, false));
    if fullscreen.Some? {
      rest := rest.(fullscreen := None);
    }
    if maximized.Some? {
      rest := rest.(maximized := None);
    }
    destination := into.(windows := into.windows + Pick(from.windows, ids, true),
                         focusHistory := into.focusHistory + PickIds(from.focusHistory, ids, true),
                         minimizedHistory := into.minimizedHistory + PickIds(from.minimizedHistory, ids, true));
    if fullscreen.Some? {
      destination := destination.(fullscreen := fullscreen);
    }
    if maximized.Some? {
      destination := destination.(maximized := maximized);
    }
  }

  // Taking one window out of a tidy workspace.
  lemma TakenOne(w: Workspace, id: nat)
    requires Tidy(w) && Find(w.windows, id).Some?
    ensures Pick(w.windows, {id}, true) == [Find(w.windows, id).value]
    ensures PickIds(w.minimizedHistory, {id}, true) == if Find(w.windows, id).value.minimized then [id] else []
  {
    PickOne(w.windows, id);
    OnlyEntry(w.windows, Find(w.windows, id).value);
    PickOneId(w.minimizedHistory, id);
  }

  lemma {:induction false} PickOne(ws: seq<Entry>, id: nat)
    requires UniqueIds(ws)
    ensures Pick(ws, {id}, true) == match Find(ws, id) case Some(e) => [e] case None => []
  {
    if ws != [] {
      PickOne(ws[1..], id);
      assert forall e :: e in ws[1..] ==> e.id != ws[0].id;
    }
  }

  lemma {:induction false} PickOneId(s: seq<nat>, id: nat)
    requires NoDup(s)
    ensures PickIds(s, {id}, true) == if id in s then [id] else []
  {
    if s != [] {
      PickOneId(s[1..], id);
    }
  }
}
