// When applying window rules loses the focus: a centring rule discards the
// floating rectangle, and the relayout that would repair the focus may not come.
module RuleFocus {
  import opened Common
  import opened Model
  import opened ParentGraph
  import opened Visibility
  import opened Focus
  import opened Desk
  import opened Operations
  import opened Transfers

  ghost predicate SameTree(ws: seq<Entry>, vs: seq<Entry>) {
    |ws| == |vs| && forall i :: 0 <= i < |ws| ==> ws[i].id == vs[i].id && SameLink(ws[i], vs[i])
  }

  lemma {:induction false} TreeFind(ws: seq<Entry>, vs: seq<Entry>, id: nat)
    requires SameTree(ws, vs)
    ensures Find(ws, id).Some? == Find(vs, id).Some?
    ensures Find(ws, id).Some? ==> SameLink(Find(ws, id).value, Find(vs, id).value)
  {
    if ws != [] {
      TreeFind(ws[1..], vs[1..], id);
    }
  }

  lemma TreeLinks(ws: seq<Entry>, vs: seq<Entry>)
    requires SameTree(ws, vs)
    ensures SameLinks(ws, vs) && SameLinks(vs, ws)
  {
    forall id: nat
      ensures Find(ws, id).Some? == Find(vs, id).Some?
      ensures Find(ws, id).Some? ==> SameLink(Find(ws, id).value, Find(vs, id).value)
    {
      TreeFind(ws, vs, id);
    }
  }

  // Being shown does not depend on floating.
  lemma TreeExclusive(w: Workspace, v: Workspace)
    requires SameTree(w.windows, v.windows) && UniqueIds(w.windows) && UniqueIds(v.windows)
    requires w.fullscreen == v.fullscreen && w.maximized == v.maximized
    ensures Exclusive(w) == Exclusive(v)
    ensures forall x :: ShownId(w.windows, x) <==> ShownId(v.windows, x)
  {
    TreeLinks(w.windows, v.windows);
    LinkedExclusive(w, v);
  }

  // A window other than the expanded one, visible only because it floats above it.
  ghost predicate Overlaid(w: Workspace, id: nat) {
    Exclusive(w).Some? && Exclusive(w).value != id
  }

  // Taking away one window's floating rectangle keeps focus sound unless the
  // focused window floated above an expanded one.
  lemma UnfloatedFocus(s: Stage, e: Entry)
    requires Tidy(s.w) && FocusSound(s) && Find(s.w.windows, e.id).Some?
    requires var was := Find(s.w.windows, e.id).value;
             SameLink(was, e) && was.floating.Some? && e.floating.None?
    ensures Tidy(WithEntry(s.w, e)) ==>
              (FocusSound(Stage(WithEntry(s.w, e), s.focus)) <==> !(s.focus == Some(e.id) && Overlaid(s.w, e.id)))
  {
    var w, v := s.w, WithEntry(s.w, e);
    FindIsIndex(w.windows, e.id);
    if Tidy(v) {
      assert SameTree(w.windows, v.windows);
      TreeExclusive(w, v);
      SoundByShown(s, v);
      if s.focus.Some? {
        VisibleUnfloated(w, e, s.focus.value);
      }
    }
  }

  lemma VisibleUnfloated(w: Workspace, e: Entry, id: nat)
    requires Tidy(w) && Tidy(WithEntry(w, e)) && Find(w.windows, e.id).Some?
    requires var was := Find(w.windows, e.id).value;
             SameLink(was, e) && was.floating.Some? && e.floating.None?
    requires Visible(w, id)
    ensures Visible(WithEntry(w, e), id) <==> !(id == e.id && Overlaid(w, id))
  {
    var v := WithEntry(w, e);
    FindIsIndex(w.windows, e.id);
    assert SameTree(w.windows, v.windows);
    TreeExclusive(w, v);
    TreeLinks(w.windows, v.windows);
    var f := Find(w.windows, id).value;
    OnlyEntry(w.windows, f);
    assert ShownId(v.windows, id);
    var g := Find(v.windows, id).value;
    OnlyEntry(v.windows, g);
    if id != e.id {
      var i :| 0 <= i < |w.windows| && w.windows[i] == f;
      assert v.windows[i] == f;
      if Overlaid(w, id) {
        var k: nat :| 1 <= k && Ancestor(w.windows, id, k) == Some(Exclusive(w).value);
        LinkedAncestor(w.windows, v.windows, id, k);
      }
    } else {
      assert v.windows[IndexOf(w.windows, id).value] == e;
      assert e in v.windows;
    }
  }

  // The client's hints leave a window without a floating rectangle where it is.
  predicate StaysTiled(d: Desk, id: nat, hints: Hints, e: Entry) {
    var home := ParentAt(d, id, hints);
    && (home.None? || home.value == d.active)
    && e.parent == (if home.Some? then hints.parent else None)
    && !OrElse(e.floatingOverride, e.parent.Some? || hints.floats)
  }

  // The rules take the focused window's floating rectangle away while it lies
  // over an expanded window, and nothing afterwards lays the workspace out: the
  // rule's workspace cannot be had, or there is none and the window stays tiled.
  ghost predicate LosesFocus(d: Desk, id: nat, rules: Rules, hints: Hints)
    requires Inv(d)
  {
    && d.focus == Some(id) && WorkspaceOf(d.workspaces, id) == Some(d.active)
    && Overlaid(d.workspaces[d.active], id)
    && var was := Find(d.workspaces[d.active].windows, id).value;
       var target := RuleTarget(rules, d.active);
       && !was.rulesApplied && rules.center.Some? && was.floating.Some?
       && if target == d.active then StaysTiled(d, id, hints, Ruled(was, rules)) else Ensured(d, target + 1).None?
  }

  // Applying rules keeps focus sound exactly when they do not lose it.
  lemma RulesKeepFocus(d: Desk, id: nat, rules: Rules, hints: Hints)
    requires Inv(d) && FocusOk(d)
    ensures FocusOk(RulesApplied(d, id, rules, hints)) <==> !LosesFocus(d, id, rules, hints)
  {
    var found := WorkspaceOf(d.workspaces, id);
    if found.Some? && !Find(d.workspaces[found.value].windows, id).value.rulesApplied {
      var index := found.value;
      var was := Find(d.workspaces[index].windows, id).value;
      RuledInv(d, index, was, rules);
      var d1 := WithRules(d, index, was, rules);
      if rules.center.Some? && was.floating.Some? && index == d.active {
        UnfloatedFocus(StageOf(d), Ruled(was, rules));
        AfterUnfloating(d, was, rules, hints);
      } else {
        if index == d.active && rules.center.Some? {
          ReplaceShows(d.workspaces[index], was, Ruled(was, rules), d.focus);
        }
        assert FocusOk(d1);
        AfterRules(d, index, was, rules, hints);
      }
    }
  }

  // From sound focus the rest of the operation keeps it.
  lemma AfterRules(d: Desk, index: nat, was: Entry, rules: Rules, hints: Hints)
    requires Inv(d) && WorkspaceOf(d.workspaces, was.id) == Some(index)
    requires Find(d.workspaces[index].windows, was.id) == Some(was) && !was.rulesApplied
    requires FocusOk(WithRules(d, index, was, rules))
    ensures FocusOk(RulesApplied(d, was.id, rules, hints))
  {
    RuledInv(d, index, was, rules);
    var d1 := WithRules(d, index, was, rules);
    RulePlacedInv(d1, was.id, index, RuleTarget(rules, index));
    var d2 := RulePlaced(d1, was.id, index, RuleTarget(rules, index));
    if d2.Some? {
      RefreshedInv(d2.value, was.id, hints);
    }
  }

  lemma AfterUnfloating(d: Desk, was: Entry, rules: Rules, hints: Hints)
    requires Inv(d) && WorkspaceOf(d.workspaces, was.id) == Some(d.active)
    requires Find(d.workspaces[d.active].windows, was.id) == Some(was) && !was.rulesApplied
    requires rules.center.Some? && was.floating.Some?
    ensures var d1, target := WithRules(d, d.active, was, rules), RuleTarget(rules, d.active);
            FocusOk(RulesApplied(d, was.id, rules, hints))
            <==> FocusOk(d1) || (if target == d.active then !StaysTiled(d, was.id, hints, Ruled(was, rules))
                                 else Ensured(d, target + 1).Some?)
  {
    RuledInv(d, d.active, was, rules);
    var d1, target := WithRules(d, d.active, was, rules), RuleTarget(rules, d.active);
    if FocusOk(d1) {
      AfterRules(d, d.active, was, rules, hints);
    } else if target == d.active {
      RefreshedUnfloated(d, was, rules, hints);
    } else if Ensured(d, target + 1).Some? {
      AfterLeaving(d, was, rules, hints);
    }
  }

  // Placed on another workspace, the window leaves one that is laid out again.
  lemma AfterLeaving(d: Desk, was: Entry, rules: Rules, hints: Hints)
    requires Inv(d) && WorkspaceOf(d.workspaces, was.id) == Some(d.active)
    requires Find(d.workspaces[d.active].windows, was.id) == Some(was) && !was.rulesApplied
    requires RuleTarget(rules, d.active) != d.active && Ensured(d, RuleTarget(rules, d.active) + 1).Some?
    ensures FocusOk(RulesApplied(d, was.id, rules, hints))
  {
    var d1, target := WithRules(d, d.active, was, rules), RuleTarget(rules, d.active);
    RuledInv(d, d.active, was, rules);
    PlacedElsewhere(d1, was.id, target);
    var d2 := RulePlaced(d1, was.id, d1.active, target).value;
    RefreshedInv(d2, was.id, hints);
    RulesLead(d, was, rules, hints, d1, d2);
  }

  lemma RulesLead(d: Desk, was: Entry, rules: Rules, hints: Hints, d1: Desk, d2: Desk)
    requires Inv(d) && WorkspaceOf(d.workspaces, was.id) == Some(d.active)
    requires Find(d.workspaces[d.active].windows, was.id) == Some(was) && !was.rulesApplied
    requires d1 == WithRules(d, d.active, was, rules) && Inv(d1) && Inv(d2)
    requires RulePlaced(d1, was.id, d.active, RuleTarget(rules, d.active)) == Some(d2)
    ensures RulesApplied(d, was.id, rules, hints) == Refreshed(d2, was.id, hints)
  {
  }

  lemma PlacedElsewhere(d: Desk, id: nat, target: nat)
    requires Inv(d) && target != d.active && Ensured(d, target + 1).Some?
    ensures var r := RulePlaced(d, id, d.active, target);
            r.Some? && Inv(r.value) && FocusOk(r.value)
  {
    EnsuredInv(d, target + 1);
    var e := Ensured(d, target + 1).value;
    PlacedInRange(e, id, d.active, target);
    RelayInv(Trim(Moved(e, d.active, target, {id}).(unmanaged := Rehosted(e.unmanaged, {id}, target))));
  }

  lemma RefreshedUnfloated(d: Desk, was: Entry, rules: Rules, hints: Hints)
    requires Inv(d) && WorkspaceOf(d.workspaces, was.id) == Some(d.active)
    requires Find(d.workspaces[d.active].windows, was.id) == Some(was)
    requires rules.center.Some? && was.floating.Some?
    requires Inv(WithRules(d, d.active, was, rules))
    ensures var d1 := WithRules(d, d.active, was, rules);
            if StaysTiled(d, was.id, hints, Ruled(was, rules)) then Refreshed(d1, was.id, hints) == d1
            else FocusOk(Refreshed(d1, was.id, hints))
  {
    var d1, e := WithRules(d, d.active, was, rules), Ruled(was, rules);
    SameHomes(d, d.active, e);
    FoundInPlace(d.workspaces[d.active], e);
    SameStay(d, d1, was.id, hints, e);
    StaysUnhinted(d1, e, hints);
    RefreshedKeepsOrSettles(d1, was.id, hints);
  }

  lemma SameStay(d: Desk, d1: Desk, id: nat, hints: Hints, e: Entry)
    requires forall x :: WorkspaceOf(d1.workspaces, x) == WorkspaceOf(d.workspaces, x)
    requires d1.active == d.active
    ensures StaysTiled(d1, id, hints, e) == StaysTiled(d, id, hints, e)
  {
  }

  lemma StaysUnhinted(d: Desk, e: Entry, hints: Hints)
    requires d.active < |d.workspaces| && Find(d.workspaces[d.active].windows, e.id) == Some(e) && e.floating.None?
    ensures StaysTiled(d, e.id, hints, e) <==> Unhinted(d, e.id, hints)
  {
  }

  lemma FoundInPlace(w: Workspace, e: Entry)
    requires Find(w.windows, e.id).Some? && UniqueIds(WithEntry(w, e).windows)
    ensures Find(WithEntry(w, e).windows, e.id) == Some(e)
  {
    FindIsIndex(w.windows, e.id);
    assert WithEntry(w, e).windows[IndexOf(w.windows, e.id).value] == e;
    FindUnique(WithEntry(w, e).windows, e);
  }

  // Changing an entry in place moves no window.
  lemma SameHomes(d: Desk, i: nat, e: Entry)
    requires Inv(d) && i < |d.workspaces| && Find(d.workspaces[i].windows, e.id).Some?
    requires Inv(With(d, i, WithEntry(d.workspaces[i], e)))
    ensures forall id ::
              WorkspaceOf(With(d, i, WithEntry(d.workspaces[i], e)).workspaces, id) == WorkspaceOf(d.workspaces, id)
  {
    var d1 := With(d, i, WithEntry(d.workspaces[i], e));
    var ws, vs := d.workspaces[i].windows, d1.workspaces[i].windows;
    forall id ensures WorkspaceOf(d1.workspaces, id) == WorkspaceOf(d.workspaces, id) {
      FindIsIndex(ws, e.id);
      SameFindIds(ws, vs, id);
      SameWorkspaceOf(d.workspaces, d1.workspaces, id);
    }
  }

  lemma {:induction false} SameFindIds(ws: seq<Entry>, vs: seq<Entry>, id: nat)
    requires |ws| == |vs| && forall i :: 0 <= i < |ws| ==> ws[i].id == vs[i].id
    ensures Find(ws, id).Some? == Find(vs, id).Some?
  {
    if ws != [] {
      SameFindIds(ws[1..], vs[1..], id);
    }
  }

  lemma {:induction false} SameWorkspaceOf(ws: seq<Workspace>, vs: seq<Workspace>, id: nat)
    requires |ws| == |vs|
    requires forall i :: 0 <= i < |ws| ==> Find(ws[i].windows, id).Some? == Find(vs[i].windows, id).Some?
    ensures WorkspaceOf(ws, id) == WorkspaceOf(vs, id)
  {
    if ws != [] {
      SameWorkspaceOf(ws[1..], vs[1..], id);
    }
  }
}
