// Where windows that open, follow a parent or obey a rule end up, and how.
module Placements {
  import opened Common
  import opened Model
  import opened Geometry
  import opened Sifting
  import opened Focus
  import opened Desk
  import opened Operations
  import opened Transfers
  import opened RuleFocus
  import opened Effects
  import opened Families
  import Nav = Navigation

  // ------------------------------------------------------------------
  // Following a parent

  // A window belongs on the workspace that holds the window its client names as
  // its parent, if that is another managed one.
  lemma ParentAtIs(d: Desk, id: nat, hints: Hints, i: nat)
    requires Inv(d)
    ensures ParentAt(d, id, hints) == Some(i)
        <==> hints.parent.Some? && hints.parent.value != id && i < |d.workspaces|
             && hints.parent.value in Ids(d.workspaces[i].windows)
  {
    if hints.parent.Some? && i < |d.workspaces| {
      FoundId(d.workspaces[i].windows, hints.parent.value);
      if hints.parent.value in Ids(d.workspaces[i].windows) {
        UniqueHome(d, hints.parent.value, i);
      }
    }
  }

  // A window that follows its parent takes what it owns and its place on the
  // minimized stack along; its recency stays (`RefreshedKeepsHistories`).
  lemma RefreshedCarries(d: Desk, id: nat, hints: Hints, index: nat, at: nat)
    requires Inv(d) && WorkspaceOf(d.workspaces, id) == Some(index) && ParentAt(d, id, hints) == Some(at) && at != index
    ensures var r := Refreshed(d, id, hints);
            && at < |r.workspaces| && Carried(d.workspaces[at], d.workspaces[index], id, r.workspaces[at])
            && (index < |r.workspaces| ==> Uncarried(d.workspaces[index], id, r.workspaces[index]))
  {
    var d1, e, touched := RefreshSteps(d, id, hints, index, at);
    AdoptedCarries(d, index, at, id);
    RehintedMarks(d1, index, at, e, touched);
    OwnersCarried(d, d1, Refreshed(d, id, hints), id, index, at);
  }

  lemma OwnersCarried(d: Desk, m: Desk, r: Desk, id: nat, index: nat, at: nat)
    requires index < |d.workspaces| == |m.workspaces| && at < |d.workspaces| && at < |r.workspaces| && OwnersKept(m, r)
    requires Carried(d.workspaces[at], d.workspaces[index], id, m.workspaces[at])
    requires Uncarried(d.workspaces[index], id, m.workspaces[index])
    ensures Carried(d.workspaces[at], d.workspaces[index], id, r.workspaces[at])
    ensures index < |r.workspaces| ==> Uncarried(d.workspaces[index], id, r.workspaces[index])
  {
  }

  ghost predicate Carried(into: Workspace, from: Workspace, id: nat, v: Workspace) {
    && v.fullscreen == (if from.fullscreen == Some(id) then Some(id) else into.fullscreen)
    && v.maximized == (if from.maximized == Some(id) then Some(id) else into.maximized)
    && Appended(into.minimizedHistory, from.minimizedHistory, {id}, v.minimizedHistory)
  }

  ghost predicate Uncarried(from: Workspace, id: nat, v: Workspace) {
    && v.fullscreen == (if from.fullscreen == Some(id) then None else from.fullscreen)
    && v.maximized == (if from.maximized == Some(id) then None else from.maximized)
    && Sifted(v.minimizedHistory, from.minimizedHistory, Marks(from.minimizedHistory, {id}, false))
  }

  lemma AdoptedCarries(d: Desk, index: nat, at: nat, id: nat)
    requires index < |d.workspaces| && at < |d.workspaces| && index != at
    ensures var m := Adopted(d, index, at, id);
            && Carried(d.workspaces[at], d.workspaces[index], id, m.workspaces[at])
            && Uncarried(d.workspaces[index], id, m.workspaces[index])
  {
    MergedCarries(d.workspaces[at], d.workspaces[index], id);
    PartUncarries(d.workspaces[index], id);
  }

  lemma MergedCarries(into: Workspace, from: Workspace, id: nat)
    ensures Carried(into, from, id, Merged(into, Part(from, {id}, true).(focusHistory := [])))
  {
    PickAppended(into.minimizedHistory, from.minimizedHistory, {id});
  }

  lemma PartUncarries(from: Workspace, id: nat)
    ensures Uncarried(from, id, Part(from, {id}, false).(focusHistory := from.focusHistory))
  {
    PickIdsSifts(from.minimizedHistory, {id}, false);
  }

  // No owner and no minimized stack changes.
  ghost predicate OwnersKept(d: Desk, r: Desk) {
    forall i :: 0 <= i < |d.workspaces| && i < |r.workspaces| ==> SameOwners(d.workspaces[i], r.workspaces[i])
  }

  ghost predicate SameOwners(w: Workspace, v: Workspace) {
    v.fullscreen == w.fullscreen && v.maximized == w.maximized && v.minimizedHistory == w.minimizedHistory
  }

  lemma RehintedMarks(d1: Desk, index: nat, at: nat, e: Entry, touched: bool)
    requires Inv(d1) && at < |d1.workspaces| && Stored(d1, at, e)
    ensures var r := RelayIf(Rehinted(d1, index, at, e), touched);
            at < |r.workspaces| && OwnersKept(d1, r)
  {
    RehintedOwners(d1, index, at, e);
    var d3 := Rehinted(d1, index, at, e);
    RelayOwners(d3, touched);
    OwnersChain(d1, d3, RelayIf(d3, touched));
  }

  lemma RehintedOwners(d1: Desk, index: nat, at: nat, e: Entry)
    requires Inv(d1) && at < |d1.workspaces| && Stored(d1, at, e)
    ensures var r := Rehinted(d1, index, at, e);
            at < |r.workspaces| && r.active < |r.workspaces| && OwnersKept(d1, r)
  {
    var d2 := With(d1, at, WithEntry(d1.workspaces[at], e));
    EntryStored(d1, at, e, d2);
    TrimKeepsWindows(d2, at);
    TrimInv(d2);
    TrimOwners(d2);
    OwnersChain(d1, d2, Trim(d2));
  }

  lemma EntryStored(d1: Desk, at: nat, e: Entry, d2: Desk)
    requires Inv(d1) && at < |d1.workspaces| && Stored(d1, at, e)
    requires d2 == With(d1, at, WithEntry(d1.workspaces[at], e))
    ensures Inv(d2) && OwnersKept(d1, d2)
    ensures Find(d2.workspaces[at].windows, e.id) == Some(e)
  {
    var w := d1.workspaces[at];
    assert Find(w.windows, e.id).value in w.windows;
    WithEntryTidy(w, e, d1.census);
    WithInv(d1, at, WithEntry(w, e));
    FoundInPlace(w, e);
  }

  lemma OwnersChain(a: Desk, b: Desk, c: Desk)
    requires OwnersKept(a, b) && OwnersKept(b, c)
    requires |a.workspaces| <= |b.workspaces| || |c.workspaces| <= |b.workspaces|
    ensures OwnersKept(a, c)
  {
  }

  lemma TrimOwners(d: Desk)
    requires Inv(d)
    ensures OwnersKept(d, Trim(d))
  {
    Nav.TrimKeepsUsed(d.workspaces, d.predefined, d.active, Held(d));
  }

  lemma RelayOwners(d: Desk, touched: bool)
    requires d.active < |d.workspaces|
    ensures OwnersKept(d, RelayIf(d, touched)) && |RelayIf(d, touched).workspaces| == |d.workspaces|
  {
    RelaidFrame(StageOf(d));
  }

  // ------------------------------------------------------------------
  // Opening

  // A new window is neither minimized nor expanded; it is linked and floats as
  // its client's hints say.
  lemma AddedEntry(d: Desk, child: nat, hints: Hints, takesFocus: bool)
    requires Inv(d)
    ensures var id, r := d.nextId, Added(d, child, hints, takesFocus);
            && WorkspaceOf(r.workspaces, id).Some?
            && var e := Find(r.workspaces[WorkspaceOf(r.workspaces, id).value].windows, id).value;
               && !e.minimized && !e.stayOnTop && !e.rulesApplied && e.floatingOverride.None? && e.savedFloating.None?
               && Heeds(e.(floating := None), hints, if ParentAt(d, id, hints).Some? then hints.parent else None,
                        d.output, e)
  {
    var id, index, d1 := d.nextId, LaunchIndex(d, child), Launched(d, child);
    LaunchedInv(d, child);
    LaunchedHomes(d, child);
    LaunchedEntry(d, child);
    RefreshedInv(d1, id, hints);
    RefreshedEffect(d1, id, hints);
    var d2 := Refreshed(d1, id, hints);
    MadeHomeEntry(d2, id, takesFocus);
    SameParent(d, d1, id, hints);
  }

  lemma SameParent(d: Desk, r: Desk, id: nat, hints: Hints)
    requires OthersStay(d, r, id)
    ensures ParentAt(r, id, hints) == ParentAt(d, id, hints)
  {
  }

  lemma LaunchedEntry(d: Desk, child: nat)
    requires Inv(d)
    ensures var r, index := Launched(d, child), LaunchIndex(d, child);
            index < |r.workspaces| && Find(r.workspaces[index].windows, d.nextId) == Some(NewEntry(d.nextId))
            && r.output == d.output
  {
    var index := LaunchIndex(d, child);
    LaunchInRange(d, child);
    OpenedInv(d, index);
    var m := Opened(d, index);
    assert NewEntry(d.nextId) in m.workspaces[index].windows;
    FindUnique(m.workspaces[index].windows, NewEntry(d.nextId));
    TrimInv(m);
    TrimKeepsWindows(m, index);
  }

  lemma MadeHomeEntry(d: Desk, id: nat, takesFocus: bool)
    requires Inv(d) && WorkspaceOf(d.workspaces, id).Some?
    ensures var r, i := MadeHome(d, id, takesFocus), WorkspaceOf(d.workspaces, id).value;
            && WorkspaceOf(r.workspaces, id) == Some(i)
            && SameBut(Find(d.workspaces[i].windows, id).value, Find(r.workspaces[i].windows, id).value)
  {
    var i, m := WorkspaceOf(d.workspaces, id).value, RememberedIn(d, id);
    RememberedInInv(d, id);
    MadeHomeEffect(d, id, takesFocus);
    if i == d.active {
      var e := Find(d.workspaces[i].windows, id).value;
      RelayedEntry(m, i, e);
      FocusedEntry(Relay(m), id, id, true);
    }
  }

  lemma FocusedEntry(d: Desk, target: nat, id: nat, remember: bool)
    requires d.active < |d.workspaces| && Find(d.workspaces[d.active].windows, id).Some?
    ensures var r := FocusIn(d, target, remember);
            && Find(r.workspaces[d.active].windows, id).Some?
            && SameBut(Find(d.workspaces[d.active].windows, id).value, Find(r.workspaces[d.active].windows, id).value)
  {
    FocusedEntries(StageOf(d), target, remember);
    FindRanked(d.workspaces[d.active].windows, FocusIn(d, target, remember).workspaces[d.active].windows, id);
  }

  // ------------------------------------------------------------------
  // Window rules

  // The entry of a window once its rules apply, before its hints are read again.
  ghost predicate Obeys(was: Entry, rules: Rules, e: Entry) {
    && e.rulesApplied
    && e.stayOnTop == (if rules.stayOnTop.Some? then rules.stayOnTop.value else was.stayOnTop)
    && e.centerOverride == (if rules.center.Some? then rules.center else was.centerOverride)
    && e.floating == (if rules.center.Some? then None else was.floating)
    && e.floatingOverride == (if rules.center == Some(true) then Some(true)
                              else if rules.placement.Some? then rules.placement else was.floatingOverride)
    && SameBut(was.(rulesApplied := e.rulesApplied, stayOnTop := e.stayOnTop, centerOverride := e.centerOverride,
                    floating := e.floating, floatingOverride := e.floatingOverride), e)
  }

  // The workspace a rule names, counting from one, else the window's own.
  function RuledHome(rules: Rules, index: nat): int {
    if rules.workspace.Some? then if rules.workspace.value == 0 then 0 else rules.workspace.value - 1 else index
  }

  // Where a window is with an entry that obeys the rules and, if read, heeds the hints.
  ghost predicate RulesSettled(r: Desk, id: nat, home: nat, output: Size, was: Entry, rules: Rules,
                               read: Option<(Hints, Option<nat>)>) {
    && WorkspaceOf(r.workspaces, id) == Some(home)
    && var e := Find(r.workspaces[home].windows, id).value;
       if read.None? then Obeys(was, rules, e)
       else exists ruled :: Obeys(was, rules, ruled) && Heeds(ruled, read.value.0, read.value.1, output, e)
  }

  lemma RuledStands(d: Desk, id: nat, index: nat, was: Entry, rules: Rules)
    requires Inv(d) && WorkspaceOf(d.workspaces, id) == Some(index)
    requires Find(d.workspaces[index].windows, id) == Some(was)
    ensures var r := WithRules(d, index, was, rules);
            && Inv(r) && AllStay(d, r) && r.active == d.active && r.output == d.output
            && Find(r.workspaces[index].windows, id) == Some(Ruled(was, rules)) && Obeys(was, rules, Ruled(was, rules))
  {
    RuledInv(d, index, was, rules);
    SameHomes(d, index, Ruled(was, rules));
    FoundInPlace(d.workspaces[index], Ruled(was, rules));
  }

  // A window placed on another workspace takes its entry along.
  lemma PlacedStands(d: Desk, id: nat, index: nat, target: nat)
    requires Inv(d) && WorkspaceOf(d.workspaces, id) == Some(index) && target < |d.workspaces| && target != index
    ensures var r := Placed(d, id, index, target);
            && Inv(r) && WorkspaceOf(r.workspaces, id) == Some(target) && OthersStay(d, r, id)
            && r.active == d.active && r.output == d.output
            && SameBut(Find(d.workspaces[index].windows, id).value, Find(r.workspaces[target].windows, id).value)
  {
    var m := Moved(d, index, target, {id}).(unmanaged := Rehosted(d.unmanaged, {id}, target));
    PlacedInRange(d, id, index, target);
    PlacedInv(d, id, index, target);
    MovedStands(d, id, index, target);
    TrimHomes(m);
    TrimKeepsWindows(m, target);
    RelayHomes(Trim(m), index == d.active || target == d.active);
    if index == d.active || target == d.active {
      RelayedEntry(Trim(m), target, Find(d.workspaces[index].windows, id).value);
    }
  }

  // A workspace after an operation that lays out the active one.
  ghost predicate LaidOut(w: Workspace, here: bool, was: Option<nat>, v: Workspace, r: Option<nat>) {
    if here then Settles(w, was, v, r) else v == w
  }

  // It takes its recency, its place on the minimized stack and what it owns along
  // too, and override-redirect windows that belong to it follow.
  lemma PlacedTravels(d: Desk, id: nat, index: nat, target: nat)
    requires Inv(d) && WorkspaceOf(d.workspaces, id) == Some(index) && target < |d.workspaces| && target != index
    ensures var r, from := Placed(d, id, index, target), d.workspaces[index];
            && target < |r.workspaces| && Escorted(d.unmanaged, r.unmanaged, {id}, target)
            && (exists got :: Receives(d.workspaces[target], from, {id}, got)
                              && LaidOut(got, target == d.active, d.focus, r.workspaces[target], r.focus))
            && (index < |r.workspaces| ==>
                  exists rest :: Remains(from, {id}, rest)
                                 && LaidOut(rest, index == d.active, d.focus, r.workspaces[index], r.focus))
  {
    var m := Transferred(d, index, target, {id});
    TransferTravels(d, index, target, {id});
    TransferredInv(d, index, target, {id});
    MovedStands(d, id, index, target);
    assert m.workspaces[target].windows != [];
    TrimKeepsWindows(m, target);
    TrimLaysOut(m, index == d.active || target == d.active, target);
    if index < |Trim(m).workspaces| {
      TrimLaysOut(m, index == d.active || target == d.active, index);
    }
  }

  lemma TrimLaysOut(m: Desk, touched: bool, i: nat)
    requires Inv(m) && i < |m.workspaces| && i < |Trim(m).workspaces| && (i == m.active ==> touched)
    ensures Inv(Trim(m))
    ensures var r := RelayIf(Trim(m), touched);
            && |r.workspaces| == |Trim(m).workspaces| && r.unmanaged == m.unmanaged
            && LaidOut(m.workspaces[i], i == m.active, m.focus, r.workspaces[i], r.focus)
  {
    TrimInv(m);
    Nav.TrimKeepsUsed(m.workspaces, m.predefined, m.active, Held(m));
    RelaidSettles(StageOf(Trim(m)));
  }

  lemma MovedStands(d: Desk, id: nat, index: nat, target: nat)
    requires Inv(d) && WorkspaceOf(d.workspaces, id) == Some(index) && target < |d.workspaces| && target != index
    ensures var m := Moved(d, index, target, {id});
            && WorkspaceOf(m.workspaces, id) == Some(target) && OthersStay(d, m, id)
            && Find(m.workspaces[target].windows, id) == Find(d.workspaces[index].windows, id)
  {
    var a, m := Adopted(d, index, target, id), Moved(d, index, target, {id});
    AdoptedStands(d, id, index, target);
    AdoptedWindows(d, id, index, target);
    SameWindowsStay(a, m);
  }

  lemma AdoptedWindows(d: Desk, id: nat, index: nat, target: nat)
    requires index < |d.workspaces| && target < |d.workspaces| && target != index
    ensures var a, m := Adopted(d, index, target, id).workspaces, Moved(d, index, target, {id}).workspaces;
            |a| == |d.workspaces| == |m| && forall i :: 0 <= i < |m| ==> a[i].windows == m[i].windows
  {
  }

  lemma AdoptedStands(d: Desk, id: nat, index: nat, target: nat)
    requires Inv(d) && WorkspaceOf(d.workspaces, id) == Some(index) && target < |d.workspaces| && target != index
    ensures var a := Adopted(d, index, target, id);
            && WorkspaceOf(a.workspaces, id) == Some(target) && OthersStay(d, a, id)
            && Find(a.workspaces[target].windows, id) == Find(d.workspaces[index].windows, id)
  {
    FollowedInv(d, index, target, id);
    FollowedHomes(d, index, target, id);
    FollowedEntry(d, index, target, id);
  }

  lemma SameWindowsStay(a: Desk, m: Desk)
    requires |a.workspaces| == |m.workspaces|
    requires forall i :: 0 <= i < |a.workspaces| ==> a.workspaces[i].windows == m.workspaces[i].windows
    ensures AllStay(a, m)
  {
    forall x ensures WorkspaceOf(m.workspaces, x) == WorkspaceOf(a.workspaces, x) {
      SameWorkspaceOf(a.workspaces, m.workspaces, x);
    }
  }

  lemma RulePlacedStands(d: Desk, id: nat, index: nat, target: nat)
    requires Inv(d) && WorkspaceOf(d.workspaces, id) == Some(index)
    requires RulePlaced(d, id, index, target).Some?
    ensures var r := RulePlaced(d, id, index, target).value;
            && Inv(r) && WorkspaceOf(r.workspaces, id) == Some(target) && OthersStay(d, r, id)
            && r.active == d.active && r.output == d.output
            && SameBut(Find(d.workspaces[index].windows, id).value, Find(r.workspaces[target].windows, id).value)
  {
    if target != index {
      var e := Roomed(d, id, index, target);
      PlacedStands(e, id, index, target);
      assert AllStay(d, e);
    }
  }

  // The desktop on which a rule places a window.
  lemma Roomed(d: Desk, id: nat, index: nat, target: nat) returns (e: Desk)
    requires Inv(d) && index < |d.workspaces| && target != index && RulePlaced(d, id, index, target).Some?
    ensures Inv(e) && AllStay(d, e) && index < |e.workspaces| && target < |e.workspaces|
    ensures e.workspaces[index] == d.workspaces[index] && e == d.(workspaces := e.workspaces)
    ensures RulePlaced(d, id, index, target) == Some(Placed(e, id, index, target))
  {
    EnsuredInv(d, target + 1);
    EnsuredHomes(d, target + 1);
    e := Ensured(d, target + 1).value;
  }

  // Rules take a window to the workspace they name, unless that is too close to
  // the cap, and a parent takes it on to its own; the entry then obeys the rules
  // and heeds the hints. Without that workspace it obeys and stays. No other
  // window moves, and rules apply once.
  lemma RulesAppliedEffect(d: Desk, id: nat, rules: Rules, hints: Hints)
    requires Inv(d) && WorkspaceOf(d.workspaces, id).Some?
    ensures var index, r := WorkspaceOf(d.workspaces, id).value, RulesApplied(d, id, rules, hints);
            var was, target := Find(d.workspaces[index].windows, id).value, RuledHome(rules, index);
            if was.rulesApplied then r == d
            else
              && OthersStay(d, r, id) && r.active == d.active
              && if target != index && target + 1 >= Nav.MAX_WORKSPACES then
                   RulesSettled(r, id, index, d.output, was, rules, None)
                 else
                   RulesSettled(r, id, OrElse(ParentAt(d, id, hints), target), d.output, was, rules,
                                Some((hints, if ParentAt(d, id, hints).Some? then hints.parent else None)))
  {
    var index := WorkspaceOf(d.workspaces, id).value;
    var was := Find(d.workspaces[index].windows, id).value;
    if !was.rulesApplied {
      RuledStands(d, id, index, was, rules);
      RuledPlaced(d, id, index, was, rules, hints);
    }
  }

  lemma RuledPlaced(d: Desk, id: nat, index: nat, was: Entry, rules: Rules, hints: Hints)
    requires Inv(d) && WorkspaceOf(d.workspaces, id) == Some(index)
    requires Find(d.workspaces[index].windows, id) == Some(was) && !was.rulesApplied
    ensures var target, r := RuledHome(rules, index), RulesApplied(d, id, rules, hints);
            && OthersStay(d, r, id) && r.active == d.active
            && if target != index && target + 1 >= Nav.MAX_WORKSPACES then
                 RulesSettled(r, id, index, d.output, was, rules, None)
               else
                 RulesSettled(r, id, OrElse(ParentAt(d, id, hints), target), d.output, was, rules,
                              Some((hints, if ParentAt(d, id, hints).Some? then hints.parent else None)))
  {
    var d1, target := WithRules(d, index, was, rules), RuleTarget(rules, index);
    RuledStands(d, id, index, was, rules);
    var placed := RulePlaced(d1, id, index, target);
    assert placed.Some? <==> !(target != index && target + 1 >= Nav.MAX_WORKSPACES);
    if placed.Some? {
      RuledOn(d, d1, id, index, target, was, rules, hints);
    }
    RuledSteps(d, id, index, was, rules, hints, d1, target);
  }

  lemma RuledOn(d: Desk, d1: Desk, id: nat, index: nat, target: nat, was: Entry, rules: Rules, hints: Hints)
    requires Inv(d1) && AllStay(d, d1) && d1.output == d.output && d1.active == d.active
    requires WorkspaceOf(d1.workspaces, id) == Some(index)
    requires Find(d1.workspaces[index].windows, id).Some?
    requires Obeys(was, rules, Find(d1.workspaces[index].windows, id).value)
    requires RulePlaced(d1, id, index, target).Some?
    ensures Inv(RulePlaced(d1, id, index, target).value)
    ensures var r := Refreshed(RulePlaced(d1, id, index, target).value, id, hints);
            && OthersStay(d, r, id) && r.active == d.active
            && RulesSettled(r, id, OrElse(ParentAt(d, id, hints), target), d.output, was, rules,
                            Some((hints, if ParentAt(d, id, hints).Some? then hints.parent else None)))
  {
    RulePlacedStands(d1, id, index, target);
    var d2 := RulePlaced(d1, id, index, target).value;
    OthersStayOn(d, d1, d2, id);
    StillObeys(was, rules, Find(d1.workspaces[index].windows, id).value, Find(d2.workspaces[target].windows, id).value);
    RuleRead(d, d2, id, hints, target, was, rules);
  }

  lemma OthersStayOn(a: Desk, b: Desk, c: Desk, id: nat)
    requires AllStay(a, b) && OthersStay(b, c, id)
    ensures OthersStay(a, c, id)
  {
  }

  // Override-redirect windows follow a window that its rules place elsewhere.
  lemma RulesEscort(d: Desk, id: nat, rules: Rules, hints: Hints)
    requires Inv(d) && WorkspaceOf(d.workspaces, id).Some?
    ensures var index, r := WorkspaceOf(d.workspaces, id).value, RulesApplied(d, id, rules, hints);
            var was, target := Find(d.workspaces[index].windows, id).value, RuledHome(rules, index);
            if was.rulesApplied || target == index || target + 1 >= Nav.MAX_WORKSPACES then r.unmanaged == d.unmanaged
            else Escorted(d.unmanaged, r.unmanaged, {id}, target)
  {
    var index := WorkspaceOf(d.workspaces, id).value;
    var was := Find(d.workspaces[index].windows, id).value;
    if !was.rulesApplied {
      RuledEscorts(d, id, index, was, rules, hints, RuleTarget(rules, index));
    }
  }

  lemma RuledEscorts(d: Desk, id: nat, index: nat, was: Entry, rules: Rules, hints: Hints, target: nat)
    requires Inv(d) && WorkspaceOf(d.workspaces, id) == Some(index) && target == RuleTarget(rules, index)
    requires Find(d.workspaces[index].windows, id) == Some(was) && !was.rulesApplied
    ensures var r := RulesApplied(d, id, rules, hints);
            if target == index || target + 1 >= Nav.MAX_WORKSPACES then r.unmanaged == d.unmanaged
            else Escorted(d.unmanaged, r.unmanaged, {id}, target)
  {
    var d1 := WithRules(d, index, was, rules);
    RuledStands(d, id, index, was, rules);
    if RulePlaced(d1, id, index, target).Some? {
      PlacedEscorts(d1, id, index, target, hints);
    }
    RuledSteps(d, id, index, was, rules, hints, d1, target);
  }

  lemma PlacedEscorts(d1: Desk, id: nat, index: nat, target: nat, hints: Hints)
    requires Inv(d1) && WorkspaceOf(d1.workspaces, id) == Some(index) && RulePlaced(d1, id, index, target).Some?
    ensures Inv(RulePlaced(d1, id, index, target).value)
    ensures var r := Refreshed(RulePlaced(d1, id, index, target).value, id, hints);
            if target == index then r.unmanaged == d1.unmanaged
            else Escorted(d1.unmanaged, r.unmanaged, {id}, target)
  {
    RulePlacedStands(d1, id, index, target);
    RulePlacedEscorts(d1, id, index, target);
    RefreshedUnmanaged(RulePlaced(d1, id, index, target).value, id, hints);
  }

  lemma RulePlacedEscorts(d: Desk, id: nat, index: nat, target: nat)
    requires Inv(d) && WorkspaceOf(d.workspaces, id) == Some(index) && RulePlaced(d, id, index, target).Some?
    ensures var r := RulePlaced(d, id, index, target).value;
            if target == index then r == d else Escorted(d.unmanaged, r.unmanaged, {id}, target)
  {
    if target != index {
      var e := Roomed(d, id, index, target);
      PlacedTravels(e, id, index, target);
    }
  }

  lemma RefreshedUnmanaged(d: Desk, id: nat, hints: Hints)
    requires Inv(d)
    ensures Refreshed(d, id, hints).unmanaged == d.unmanaged
  {
    var found := WorkspaceOf(d.workspaces, id);
    if found.Some? {
      var d1, e, touched := RefreshSteps(d, id, hints, found.value, OrElse(ParentAt(d, id, hints), found.value));
    }
  }

  // Applying rules spelled out.
  lemma RuledSteps(d: Desk, id: nat, index: nat, was: Entry, rules: Rules, hints: Hints, d1: Desk, target: nat)
    requires Inv(d) && WorkspaceOf(d.workspaces, id) == Some(index) && Inv(d1)
    requires Find(d.workspaces[index].windows, id) == Some(was) && !was.rulesApplied
    requires d1 == WithRules(d, index, was, rules) && target == RuleTarget(rules, index)
    requires RulePlaced(d1, id, index, target).Some? ==> Inv(RulePlaced(d1, id, index, target).value)
    ensures RulesApplied(d, id, rules, hints)
            == match RulePlaced(d1, id, index, target)
               case None => d1
               case Some(d2) => Refreshed(d2, id, hints)
  {
  }

  lemma RuleRead(d: Desk, d2: Desk, id: nat, hints: Hints, target: nat, was: Entry, rules: Rules)
    requires Inv(d2) && WorkspaceOf(d2.workspaces, id) == Some(target) && OthersStay(d, d2, id)
    requires Obeys(was, rules, Find(d2.workspaces[target].windows, id).value) && d2.output == d.output
    ensures var r := Refreshed(d2, id, hints);
            && OthersStay(d, r, id) && r.active == d2.active
            && RulesSettled(r, id, OrElse(ParentAt(d, id, hints), target), d.output, was, rules,
                            Some((hints, if ParentAt(d, id, hints).Some? then hints.parent else None)))
  {
    RefreshedStands(d2, id, hints, target, OrElse(ParentAt(d2, id, hints), target));
    SameParent(d, d2, id, hints);
  }

  lemma StillObeys(was: Entry, rules: Rules, e: Entry, f: Entry)
    requires Obeys(was, rules, e) && SameBut(e, f)
    ensures Obeys(was, rules, f)
  {
  }

  // ------------------------------------------------------------------
  // Toggling between floating and tiled

  // Two thirds of the area in either direction, with a sixth left on each side, rounded down.
  ghost predicate Centred(area: Rect, rect: Rect) {
    && 6 * (rect.x - area.x) <= area.w < 6 * (rect.x - area.x + 1) && 3 * rect.w <= 2 * area.w < 3 * (rect.w + 1)
    && 6 * (rect.y - area.y) <= area.h < 6 * (rect.y - area.y + 1) && 3 * rect.h <= 2 * area.h < 3 * (rect.h + 1)
  }

  // A floating window becomes a tile that remembers its rectangle; a tile floats
  // where it last floated, else centred, within its limits.
  ghost predicate TurnedOver(was: Entry, usable: Rect, output: Size, min: Size, max: Size, e: Entry) {
    && SameBut(was.(floating := e.floating, savedFloating := e.savedFloating, floatingOverride := e.floatingOverride),
               e)
    && e.floatingOverride == Some(was.floating.None?)
    && if was.floating.Some? then e.floating.None? && e.savedFloating == was.floating
       else
         && e.floating.Some? && e.savedFloating == was.savedFloating
         && if was.savedFloating.Some? then e.floating.value == Constrain(was.savedFloating.value, output, min, max)
            else exists rect :: Centred(usable, rect) && e.floating.value == Constrain(rect, output, min, max)
  }

  lemma ToggledTurnsOver(was: Entry, usable: Rect, output: Size, min: Size, max: Size, e: Entry)
    requires usable.w >= 0 && usable.h >= 0 && SameBut(Toggled(was, usable, output, min, max), e)
    ensures TurnedOver(was, usable, output, min, max, e)
  {
    var centred := Rect(usable.x + usable.w / 6, usable.y + usable.h / 6, usable.w * 2 / 3, usable.h * 2 / 3);
    assert Centred(usable, centred);
  }

  lemma FloatingToggledEntry(d: Desk, usable: Rect, min: Size, max: Size)
    requires Inv(d) && FocusOk(d) && d.focus.Some? && usable.w >= 0 && usable.h >= 0
    requires d.workspaces[d.active].fullscreen != d.focus && d.workspaces[d.active].maximized != d.focus
    ensures var id, r := d.focus.value, FloatingToggled(d, usable, min, max);
            && Find(d.workspaces[d.active].windows, id).Some? && d.active < |r.workspaces|
            && Find(r.workspaces[d.active].windows, id).Some?
            && TurnedOver(Find(d.workspaces[d.active].windows, id).value, usable, d.output, min, max,
                          Find(r.workspaces[d.active].windows, id).value)
  {
    var id, w := d.focus.value, d.workspaces[d.active];
    var was := Find(w.windows, id).value;
    var e := Toggled(was, usable, d.output, min, max);
    ModeSetEntry(d, was, e);
    ToggledTurnsOver(was, usable, d.output, min, max,
                     Find(FloatingToggled(d, usable, min, max).workspaces[d.active].windows, id).value);
  }

  lemma ModeSetEntry(d: Desk, was: Entry, e: Entry)
    requires Inv(d) && Find(d.workspaces[d.active].windows, e.id) == Some(was)
    requires e.minimized == was.minimized && e.stackWeight == was.stackWeight
    ensures var r := ModeSet(d, e);
            && d.active < |r.workspaces| && Find(r.workspaces[d.active].windows, e.id).Some?
            && SameBut(e, Find(r.workspaces[d.active].windows, e.id).value)
  {
    var m := With(d, d.active, WithEntry(d.workspaces[d.active], e));
    EntryStored(d, d.active, e, m);
    RelayedEntry(m, d.active, e);
    FocusedEntry(Relay(m), e.id, e.id, true);
  }
}
