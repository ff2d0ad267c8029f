// Every operation on the desktop, and what all runs of them keep.
module Operations {
  import opened Common
  import opened Model
  import opened Raising
  import opened Tiling
  import opened Geometry
  import opened Visibility
  import opened Focus
  import opened Desk

  // What a client's hints come to: the window it names as parent, whether the
  // window floats by itself, and where it would float first.
  datatype Hints = Hints(parent: Option<nat>, floats: bool, start: Rect, min: Size, max: Size)

  // The outcome of the configured window rules; workspaces count from one.
  datatype Rules = Rules(placement: Option<bool>, center: Option<bool>, stayOnTop: Option<bool>, workspace: Option<nat>)

  function OrElse<T>(o: Option<T>, otherwise: T): T {
    if o.Some? then o.value else otherwise
  }

  // Put a changed entry back in its place.
  function Replace(ws: seq<Entry>, e: Entry): (r: seq<Entry>)
    ensures |r| == |ws|
    ensures IndexOf(ws, e.id).None? ==> r == ws
    ensures forall i :: 0 <= i < |ws| && Some(i) != IndexOf(ws, e.id) ==> r[i] == ws[i]
    ensures IndexOf(ws, e.id).Some? ==> r[IndexOf(ws, e.id).value] == e
  {
    if IndexOf(ws, e.id).Some? then ws[IndexOf(ws, e.id).value := e] else ws
  }

  lemma ReplaceMembers(ws: seq<Entry>, e: Entry)
    requires UniqueIds(ws) && Find(ws, e.id).Some?
    ensures UniqueIds(Replace(ws, e)) && Ids(Replace(ws, e)) == Ids(ws)
    ensures forall f :: f in Replace(ws, e) <==> f == e || (f in ws && f.id != e.id)
  {
    var r, k := Replace(ws, e), IndexOf(ws, e.id);
    assert k.Some?;
    forall f | f in ws && f.id != e.id ensures f in r {
      var i :| 0 <= i < |ws| && ws[i] == f;
      assert r[i] == f;
    }
    forall f | f in r ensures f == e || (f in ws && f.id != e.id) {
      var i :| 0 <= i < |r| && r[i] == f;
    }
    forall id | id in Ids(ws) ensures id in Ids(r) {
      var f :| f in ws && f.id == id;
      assert r[k.value] in r;
    }
  }

  function WithEntry(w: Workspace, e: Entry): Workspace {
    w.(windows := Replace(w.windows, e))
  }

  lemma WithEntryTidy(w: Workspace, e: Entry, census: Census)
    requires Tidy(w) && Entries(w, census) && Find(w.windows, e.id).Some?
    requires e.minimized == Find(w.windows, e.id).value.minimized
    requires 1 <= e.stackWeight <= WEIGHT_UNIT * census.peak
    ensures Tidy(WithEntry(w, e)) && Entries(WithEntry(w, e), census)
    ensures Ids(WithEntry(w, e).windows) == Ids(w.windows)
  {
    ReplaceMembers(w.windows, e);
    OnlyEntry(w.windows, Find(w.windows, e.id).value);
  }

  // ------------------------------------------------------------------
  // Minimizing and restoring

  function MinimizedIn(w: Workspace, e: Entry): Workspace {
    WithEntry(w, e.(minimized := true)).(minimizedHistory := PickIds(w.minimizedHistory, {e.id}, false) + [e.id])
  }

  function RestoredIn(w: Workspace, e: Entry): Workspace {
    WithEntry(w, e.(minimized := false)).(minimizedHistory := PickIds(w.minimizedHistory, {e.id}, false))
  }

  lemma MinimizingTidy(w: Workspace, e: Entry, census: Census)
    requires Tidy(w) && Entries(w, census) && Find(w.windows, e.id) == Some(e)
    ensures Tidy(MinimizedIn(w, e)) && Entries(MinimizedIn(w, e), census)
    ensures Ids(MinimizedIn(w, e).windows) == Ids(w.windows)
  {
    ReplaceMembers(w.windows, e.(minimized := true));
    PickIdsNoDup(w.minimizedHistory, {e.id}, false);
    NoDupConcat(PickIds(w.minimizedHistory, {e.id}, false), [e.id]);
    OnlyEntry(w.windows, e);
  }

  lemma RestoringTidy(w: Workspace, e: Entry, census: Census)
    requires Tidy(w) && Entries(w, census) && Find(w.windows, e.id) == Some(e)
    ensures Tidy(RestoredIn(w, e)) && Entries(RestoredIn(w, e), census)
    ensures Ids(RestoredIn(w, e).windows) == Ids(w.windows)
  {
    ReplaceMembers(w.windows, e.(minimized := false));
    PickIdsNoDup(w.minimizedHistory, {e.id}, false);
    OnlyEntry(w.windows, e);
  }

  ghost function Minimized(d: Desk, id: nat): Desk
    requires Inv(d)
  {
    match WorkspaceOf(d.workspaces, id)
    case None => d
    case Some(i) =>
      var e := Find(d.workspaces[i].windows, id).value;
      if e.minimized then d
      else RelayIf(With(d, i, MinimizedIn(d.workspaces[i], e)), i == d.active)
  }

  ghost function Unminimized(d: Desk, id: nat): Desk
    requires Inv(d)
  {
    match WorkspaceOf(d.workspaces, id)
    case None => d
    case Some(i) =>
      var e := Find(d.workspaces[i].windows, id).value;
      if !e.minimized then d
      else RelayIf(With(d, i, RestoredIn(d.workspaces[i], e)), i == d.active)
  }

  // The window minimized last on the active workspace.
  ghost function LastUnminimized(d: Desk): Desk
    requires Inv(d)
  {
    var stack := d.workspaces[d.active].minimizedHistory;
    if stack == [] then d else Unminimized(d, stack[|stack| - 1])
  }

  lemma MinimizedInv(d: Desk, id: nat)
    requires Inv(d)
    ensures Inv(Minimized(d, id)) && Inv(Unminimized(d, id)) && Inv(LastUnminimized(d))
    ensures FocusOk(d) ==> FocusOk(Minimized(d, id)) && FocusOk(Unminimized(d, id)) && FocusOk(LastUnminimized(d))
  {
    MinimizeStep(d, id);
    var stack := d.workspaces[d.active].minimizedHistory;
    if stack != [] {
      MinimizeStep(d, stack[|stack| - 1]);
    }
  }

  lemma MinimizeStep(d: Desk, id: nat)
    requires Inv(d)
    ensures Inv(Minimized(d, id)) && Inv(Unminimized(d, id))
    ensures FocusOk(d) ==> FocusOk(Minimized(d, id)) && FocusOk(Unminimized(d, id))
  {
    var at := WorkspaceOf(d.workspaces, id);
    if at.Some? {
      var i := at.value;
      var w := d.workspaces[i];
      var e := Find(w.windows, id).value;
      FindUnique(w.windows, e);
      MinimizingTidy(w, e, d.census);
      RestoringTidy(w, e, d.census);
      WithInv(d, i, MinimizedIn(w, e));
      WithInv(d, i, RestoredIn(w, e));
      RelayIfInv(d, With(d, i, MinimizedIn(w, e)), i == d.active);
      RelayIfInv(d, With(d, i, RestoredIn(w, e)), i == d.active);
    }
  }

  // ------------------------------------------------------------------
  // Fullscreen and maximize

  function Expanded(w: Workspace, id: nat, fullscreen: bool, on: bool): Workspace {
    if fullscreen then w.(fullscreen := if on then Some(id) else None)
    else w.(maximized := if on then Some(id) else None)
  }

  // Asking for the state a window already has changes nothing.
  ghost function SetExpanded(d: Desk, id: nat, fullscreen: bool, on: bool): Desk
    requires Inv(d)
  {
    match WorkspaceOf(d.workspaces, id)
    case None => d
    case Some(i) =>
      var w := d.workspaces[i];
      if on == ((if fullscreen then w.fullscreen else w.maximized) == Some(id)) then d
      else RelayIf(With(d, i, Expanded(w, id, fullscreen, on)), i == d.active)
  }

  lemma SetExpandedInv(d: Desk, id: nat, fullscreen: bool, on: bool)
    requires Inv(d)
    ensures Inv(SetExpanded(d, id, fullscreen, on))
    ensures FocusOk(d) ==> FocusOk(SetExpanded(d, id, fullscreen, on))
  {
    var at := WorkspaceOf(d.workspaces, id);
    if at.Some? {
      var w := Expanded(d.workspaces[at.value], id, fullscreen, on);
      assert Tidy(w);
      WithInv(d, at.value, w);
      RelayIfInv(d, With(d, at.value, w), at.value == d.active);
    }
  }

  // ------------------------------------------------------------------
  // Toggling between floating and tiled

  // A window that stops floating remembers its rectangle for the next time.
  function Toggled(e: Entry, usable: Rect, output: Size, min: Size, max: Size): Entry {
    if e.floating.Some? then e.(savedFloating := e.floating, floating := None, floatingOverride := Some(false))
    else
      var centred := Rect(usable.x + TruncDiv(usable.w, 6), usable.y + TruncDiv(usable.h, 6),
                          TruncDiv(usable.w * 2, 3), TruncDiv(usable.h * 2, 3));
      e.(floating := Some(Constrain(OrElse(e.savedFloating, centred), output, min, max)),
          floatingOverride := Some(true))
  }

  // Toggling twice gives back the rectangle exactly when it was already constrained.
  lemma ToggleTwice(e: Entry, usable: Rect, output: Size, min: Size, max: Size)
    ensures var twice := Toggled(Toggled(e, usable, output, min, max), usable, output, min, max);
            && (twice.floating == e.floating
                <==> (e.floating.Some? ==> Constrain(e.floating.value, output, min, max) == e.floating.value))
            && Toggled(Toggled(twice, usable, output, min, max), usable, output, min, max).floating == twice.floating
  {
    if e.floating.Some? {
      ConstrainSettles(e.floating.value, output, min, max);
    }
  }

  // The focused window changes mode, unless it is expanded.
  ghost function FloatingToggled(d: Desk, usable: Rect, min: Size, max: Size): Desk
    requires Inv(d)
  {
    var w := d.workspaces[d.active];
    if d.focus.None? || !Visible(w, d.focus.value) || w.fullscreen == d.focus || w.maximized == d.focus then d
    else
      ModeSet(d, Toggled(Find(w.windows, d.focus.value).value, usable, d.output, min, max))
  }

  // A changed entry of the active workspace is laid out and focused.
  ghost function ModeSet(d: Desk, e: Entry): Desk
    requires d.active < |d.workspaces|
  {
    FocusIn(Relay(With(d, d.active, WithEntry(d.workspaces[d.active], e))), e.id, true)
  }

  lemma FloatingToggledInv(d: Desk, usable: Rect, min: Size, max: Size)
    requires Inv(d)
    ensures Inv(FloatingToggled(d, usable, min, max))
    ensures FocusOk(d) ==> FocusOk(FloatingToggled(d, usable, min, max))
  {
    var w := d.workspaces[d.active];
    if d.focus.Some? && Visible(w, d.focus.value) && w.fullscreen != d.focus && w.maximized != d.focus {
      ModeSetInv(d, Find(w.windows, d.focus.value).value,
                 Toggled(Find(w.windows, d.focus.value).value, usable, d.output, min, max));
    }
  }

  lemma ModeSetInv(d: Desk, was: Entry, e: Entry)
    requires Inv(d) && Find(d.workspaces[d.active].windows, e.id) == Some(was)
    requires e.minimized == was.minimized && e.stackWeight == was.stackWeight
    ensures Inv(ModeSet(d, e)) && FocusOk(ModeSet(d, e))
  {
    var w := d.workspaces[d.active];
    WithEntryTidy(w, e, d.census);
    WithInv(d, d.active, WithEntry(w, e));
    RelayInv(With(d, d.active, WithEntry(w, e)));
    FocusInInv(Relay(With(d, d.active, WithEntry(w, e))), e.id, true);
  }

  // ------------------------------------------------------------------
  // Client hints

  function Hinted(e: Entry, hints: Hints, parent: Option<nat>, output: Size): Entry {
    var floats := OrElse(e.floatingOverride, parent.Some? || hints.floats);
    e.(parent := parent,
       floating := if floats then Some(Constrain(OrElse(e.floating, hints.start), output, hints.min, hints.max))
           else None)
  }

  // A child follows its parent to another workspace; its recency id stays behind.
  function Adopted(d: Desk, source: nat, target: nat, id: nat): Desk
    requires source < |d.workspaces| && target < |d.workspaces|
  {
    var w := d.workspaces[source];
    With(With(d, source, Part(w, {id}, false).(focusHistory := w.focusHistory)),
         target, Merged(d.workspaces[target], Part(w, {id}, true).(focusHistory := [])))
  }

  // Where the named parent lives, if it is a managed window other than the child.
  function ParentAt(d: Desk, id: nat, hints: Hints): Option<nat> {
    if hints.parent.Some? && hints.parent.value != id then WorkspaceOf(d.workspaces, hints.parent.value) else None
  }

  // The child on its parent's workspace.
  function Followed(d: Desk, index: nat, at: nat, id: nat): Desk
    requires index < |d.workspaces| && at < |d.workspaces|
  {
    if at != index then Adopted(d, index, at, id) else d
  }

  ghost function Refreshed(d: Desk, id: nat, hints: Hints): Desk
    requires Inv(d)
  {
    match WorkspaceOf(d.workspaces, id)
    case None => d
    case Some(index) =>
      var at := OrElse(ParentAt(d, id, hints), index);
      FollowedInv(d, index, at, id);
      var d1 := Followed(d, index, at, id);
      var was := Find(d1.workspaces[at].windows, id).value;
      var e := Hinted(was, hints, if ParentAt(d, id, hints).Some? then hints.parent else None, d.output);
      RehintedInv(d, d1, index, at, was, e);
      RelayIf(Rehinted(d1, index, at, e), (at != index || e != was) && (at == d.active || index == d.active))
  }

  // Store the entry the hints lead to; a move may have emptied the tail.
  function Rehinted(d1: Desk, index: nat, at: nat, e: Entry): Desk
    requires at < |d1.workspaces|
  {
    var d2 := With(d1, at, WithEntry(d1.workspaces[at], e));
    if at != index then Trim(d2) else d2
  }

  lemma AdoptedInv(d: Desk, source: nat, target: nat, id: nat)
    requires Inv(d) && source < |d.workspaces| && target < |d.workspaces| && source != target
    ensures Inv(Adopted(d, source, target, id))
  {
    MovedInv(d, source, target, {id});
    var m, a := Moved(d, source, target, {id}), Adopted(d, source, target, id);
    forall i | 0 <= i < |a.workspaces|
      ensures Tidy(a.workspaces[i]) && Entries(a.workspaces[i], a.census)
              && a.workspaces[i].windows == m.workspaces[i].windows
    {
      assert Tidy(m.workspaces[i]);
    }
  }

  lemma FollowedInv(d: Desk, index: nat, at: nat, id: nat)
    requires Inv(d) && index < |d.workspaces| && at < |d.workspaces| && Find(d.workspaces[index].windows, id).Some?
    ensures Inv(Followed(d, index, at, id))
    ensures Find(Followed(d, index, at, id).workspaces[at].windows, id).Some?
  {
    if at != index {
      AdoptedInv(d, index, at, id);
      var e := Find(d.workspaces[index].windows, id).value;
      assert e in Part(d.workspaces[index], {id}, true).windows;
      assert e in Adopted(d, index, at, id).workspaces[at].windows;
    }
  }

  lemma RehintedInv(d: Desk, d1: Desk, index: nat, at: nat, was: Entry, e: Entry)
    requires Inv(d) && index < |d.workspaces| && at < |d.workspaces|
    requires d1 == Followed(d, index, at, e.id) && Inv(d1)
    requires Find(d1.workspaces[at].windows, e.id) == Some(was)
    requires e.minimized == was.minimized && e.stackWeight == was.stackWeight
    ensures var r := Rehinted(d1, index, at, e);
            && Inv(r) && r.active == d.active && r.focus == d.focus && r.nextId == d.nextId
            && (at != d.active && index != d.active ==> r.workspaces[d.active] == d.workspaces[d.active])
            && (at == index && e == was ==> r.workspaces[d.active] == d.workspaces[d.active])
  {
    var w := d1.workspaces[at];
    FindUnique(w.windows, was);
    assert was in w.windows;
    WithEntryTidy(w, e, d1.census);
    WithInv(d1, at, WithEntry(w, e));
    TrimInv(With(d1, at, WithEntry(w, e)));
    if e == was {
      SameEntry(w, e);
    }
  }

  lemma RefreshedInv(d: Desk, id: nat, hints: Hints)
    requires Inv(d)
    ensures Inv(Refreshed(d, id, hints))
    ensures FocusOk(d) ==> FocusOk(Refreshed(d, id, hints))
  {
    var found := WorkspaceOf(d.workspaces, id);
    if found.Some? {
      var index := found.value;
      var at := OrElse(ParentAt(d, id, hints), index);
      FollowedInv(d, index, at, id);
      var d1 := Followed(d, index, at, id);
      var was := Find(d1.workspaces[at].windows, id).value;
      var e := Hinted(was, hints, if ParentAt(d, id, hints).Some? then hints.parent else None, d.output);
      RehintedInv(d, d1, index, at, was, e);
      RelayIfInv(d, Rehinted(d1, index, at, e), (at != index || e != was) && (at == d.active || index == d.active));
    }
  }

  // A refresh spelled out step by step.
  lemma RefreshedIs(d: Desk, id: nat, hints: Hints, index: nat, at: nat, was: Entry, e: Entry, touched: bool)
    requires Inv(d) && WorkspaceOf(d.workspaces, id) == Some(index) && at == OrElse(ParentAt(d, id, hints), index)
    requires at < |d.workspaces| && Find(Followed(d, index, at, id).workspaces[at].windows, id) == Some(was)
    requires e == Hinted(was, hints, if ParentAt(d, id, hints).Some? then hints.parent else None, d.output)
    requires touched == ((at != index || e != was) && (at == d.active || index == d.active))
    ensures Inv(Refreshed(d, id, hints))
    ensures Rehinted(Followed(d, index, at, id), index, at, e).active == d.active
    ensures d.active < |Rehinted(Followed(d, index, at, id), index, at, e).workspaces|
    ensures Refreshed(d, id, hints) == RelayIf(Rehinted(Followed(d, index, at, id), index, at, e), touched)
  {
    RefreshedInv(d, id, hints);
    FollowedInv(d, index, at, id);
    RehintedInv(d, Followed(d, index, at, id), index, at, was, e);
  }

  // Putting an unchanged entry back changes nothing.
  lemma SameEntry(w: Workspace, e: Entry)
    requires Find(w.windows, e.id) == Some(e)
    ensures WithEntry(w, e) == w
  {
    FindIsIndex(w.windows, e.id);
  }

  lemma {:induction false} FindIsIndex(ws: seq<Entry>, id: nat)
    requires Find(ws, id).Some?
    ensures IndexOf(ws, id).Some? && ws[IndexOf(ws, id).value] == Find(ws, id).value
  {
    if ws[0].id != id {
      FindIsIndex(ws[1..], id);
    }
  }

  // ------------------------------------------------------------------
  // Window rules

  function Ruled(e: Entry, rules: Rules): Entry {
    var placed := e.(rulesApplied := true,
                     floatingOverride := if rules.placement.Some? then rules.placement else e.floatingOverride);
    var centred := if rules.center.None? then placed
                   else placed.(centerOverride := rules.center, floating := None,
                                floatingOverride := if rules.center.value then Some(true) else placed.floatingOverride);
    centred.(stayOnTop := OrElse(rules.stayOnTop, centred.stayOnTop))
  }

  // Override-redirect windows stay with the windows they belong to.
  function Rehosted(unmanaged: seq<Unmanaged>, ids: set<nat>, target: nat): seq<Unmanaged> {
    seq(|unmanaged|, i requires 0 <= i < |unmanaged| =>
          if unmanaged[i].parent.Some? && unmanaged[i].parent.value in ids
          then unmanaged[i].(workspace := target) else unmanaged[i])
  }

  lemma RehostedInv(d: Desk, ids: set<nat>, target: nat)
    requires Inv(d) && target < |d.workspaces|
    ensures Inv(d.(unmanaged := Rehosted(d.unmanaged, ids, target)))
  {
    var e := d.(unmanaged := Rehosted(d.unmanaged, ids, target));
    forall h | h in Held(e) ensures h < |d.workspaces| {
      if h in Hosts(e.unmanaged) {
        var i :| 0 <= i < |e.unmanaged| && Hosts(e.unmanaged)[i] == h;
        assert Hosts(d.unmanaged)[i] in Held(d);
      } else {
        assert h in Held(d);
      }
    }
  }

  // Placing a window on the workspace its rule names.
  ghost function Placed(d: Desk, id: nat, index: nat, target: nat): Desk
    requires Inv(d) && index < |d.workspaces| && target < |d.workspaces| && index != target
  {
    var d1 := Moved(d, index, target, {id}).(unmanaged := Rehosted(d.unmanaged, {id}, target));
    PlacedInRange(d, id, index, target);
    RelayIf(Trim(d1), index == d.active || target == d.active)
  }

  lemma PlacedInRange(d: Desk, id: nat, index: nat, target: nat)
    requires Inv(d) && index < |d.workspaces| && target < |d.workspaces| && index != target
    ensures var d1 := Moved(d, index, target, {id}).(unmanaged := Rehosted(d.unmanaged, {id}, target));
            && Inv(d1) && Inv(Trim(d1))
            && (index != d.active && target != d.active ==> Trim(d1).workspaces[d.active] == d.workspaces[d.active])
  {
    MovedInv(d, index, target, {id});
    var m := Moved(d, index, target, {id});
    RehostedInv(m, {id}, target);
    TrimInv(m.(unmanaged := Rehosted(m.unmanaged, {id}, target)));
  }

  lemma PlacedInv(d: Desk, id: nat, index: nat, target: nat)
    requires Inv(d) && index < |d.workspaces| && target < |d.workspaces| && index != target
    ensures Inv(Placed(d, id, index, target))
    ensures FocusOk(d) ==> FocusOk(Placed(d, id, index, target))
  {
    PlacedInRange(d, id, index, target);
    var d1 := Moved(d, index, target, {id}).(unmanaged := Rehosted(d.unmanaged, {id}, target));
    RelayIfInv(d, Trim(d1), index == d.active || target == d.active);
  }

  function RuleTarget(rules: Rules, index: nat): nat {
    if rules.workspace.Some? then Max(rules.workspace.value - 1, 0) else index
  }

  // The window on its rule's workspace, unless that cannot be materialized.
  ghost function RulePlaced(d: Desk, id: nat, index: nat, target: nat): Option<Desk>
    requires Inv(d) && index < |d.workspaces|
  {
    if target == index then Some(d)
    else
      match Ensured(d, target + 1)
      case None => None
      case Some(e) => EnsuredInv(d, target + 1); Some(Placed(e, id, index, target))
  }

  lemma RulePlacedInv(d: Desk, id: nat, index: nat, target: nat)
    requires Inv(d) && index < |d.workspaces|
    ensures RulePlaced(d, id, index, target).Some? ==>
              var r := RulePlaced(d, id, index, target).value;
              Inv(r) && (FocusOk(d) ==> FocusOk(r))
  {
    if target != index && Ensured(d, target + 1).Some? {
      EnsuredInv(d, target + 1);
      PlacedInv(Ensured(d, target + 1).value, id, index, target);
    }
  }

  function WithRules(d: Desk, index: nat, was: Entry, rules: Rules): Desk
    requires index < |d.workspaces|
  {
    With(d, index, WithEntry(d.workspaces[index], Ruled(was, rules)))
  }

  // Rules apply once. An unreachable target workspace ends the operation early.
  ghost function RulesApplied(d: Desk, id: nat, rules: Rules, hints: Hints): Desk
    requires Inv(d)
  {
    match WorkspaceOf(d.workspaces, id)
    case None => d
    case Some(index) =>
      var was := Find(d.workspaces[index].windows, id).value;
      if was.rulesApplied then d
      else
        RuledInv(d, index, was, rules);
        var d1 := WithRules(d, index, was, rules);
        RulePlacedInv(d1, id, index, RuleTarget(rules, index));
        match RulePlaced(d1, id, index, RuleTarget(rules, index))
        case None => d1
        case Some(d2) => Refreshed(d2, id, hints)
  }

  lemma RulesAppliedInv(d: Desk, id: nat, rules: Rules, hints: Hints)
    requires Inv(d)
    ensures Inv(RulesApplied(d, id, rules, hints))
    ensures rules.center.None? && FocusOk(d) ==> FocusOk(RulesApplied(d, id, rules, hints))
  {
    var found := WorkspaceOf(d.workspaces, id);
    if found.Some? && !Find(d.workspaces[found.value].windows, id).value.rulesApplied {
      var index := found.value;
      var was := Find(d.workspaces[index].windows, id).value;
      RuledInv(d, index, was, rules);
      var d1 := WithRules(d, index, was, rules);
      RulePlacedInv(d1, id, index, RuleTarget(rules, index));
      var d2 := RulePlaced(d1, id, index, RuleTarget(rules, index));
      if d2.Some? {
        RefreshedInv(d2.value, id, hints);
      }
    }
  }

  lemma RuledInv(d: Desk, index: nat, was: Entry, rules: Rules)
    requires Inv(d) && index < |d.workspaces| && Find(d.workspaces[index].windows, was.id) == Some(was)
    ensures Inv(WithRules(d, index, was, rules))
    ensures rules.center.None? && FocusOk(d) ==> FocusOk(WithRules(d, index, was, rules))
  {
    var w, e := d.workspaces[index], Ruled(was, rules);
    WithEntryTidy(w, e, d.census);
    WithInv(d, index, WithEntry(w, e));
    if rules.center.None? && FocusOk(d) && index == d.active {
      ReplaceShows(w, was, e, d.focus);
    }
  }

  // No visibility decision reads the fields that changed.
  lemma ReplaceShows(w: Workspace, was: Entry, e: Entry, focus: Option<nat>)
    requires Tidy(w) && Find(w.windows, was.id) == Some(was) && FocusSound(Stage(w, focus))
    requires SameNode(was, e)
    ensures FocusSound(Stage(WithEntry(w, e), focus))
  {
    FindIsIndex(w.windows, e.id);
    SoundByFrame(Stage(w, focus), WithEntry(w, e));
  }
}
