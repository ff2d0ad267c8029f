// Sessions that reach the exceptional states: a recency list that breaks focus
// cycling, and rules that strand the focus.
module Reached {
  import opened Common
  import opened Model
  import opened ParentGraph
  import opened Stacking
  import opened Visibility
  import opened Focus
  import opened Cycling
  import opened Ring
  import opened Desk
  import opened Operations
  import opened Transfers
  import opened RuleFocus
  import opened Effects
  import opened Scenario
  import opened Session

  function Naming(parent: Option<nat>): Hints {
    Hints(parent, false, Rect(0, 0, 1, 1), Size(0, 0), Size(0, 0))
  }

  function New(id: nat): Bone { Bone(id, None, false, false) }

  const NOTHING := View([], [])

  lemma StartStands(predefined: nat, output: Size)
    ensures Stands(Start(predefined, output), 0, None, NOTHING, NOTHING) && Start(predefined, output).nextId == 1
  {
    var d := Desk([EMPTY_WORKSPACE], 0, None, 1, Census({}, 0), None, [], [], [], None, predefined, output);
    BareDeskInv(d);
    TrimInv(d);
    var r := Trim(d);
    assert |r.workspaces| >= 2 && r.workspaces[0] == EMPTY_WORKSPACE && r.workspaces[1] == EMPTY_WORKSPACE;
  }

  lemma RunStep(d: Desk, ops: seq<Op>, op: Op)
    requires Inv(d)
    ensures Run(d, ops + [op]) == Applied(Run(d, ops), op)
  {
    assert (ops + [op])[..|ops|] == ops;
  }

  // ------------------------------------------------------------------
  // A repeated id in the recency list

  // Two windows here, one on the next workspace that adopts the first; focused
  // there, the first is brought back by a rule and recorded twice.
  function RecencyOps(): seq<Op> {
    [Add(0, Naming(None), true), Add(0, Naming(None), true), Switch(1, false), Add(0, Naming(None), true),
     Refresh(1, Naming(Some(3))), FocusWindow(1, false), Switch(0, false), ApplyRules(1, TO_FIRST, Naming(None))]
  }

  const FIRST := View([New(1)], [1])
  const BOTH := View([New(1), New(2)], [1, 2])
  const THIRD := View([New(3)], [3])
  const SECOND := View([New(2)], [1, 2])
  const ADOPTED := View([New(3), Bone(1, Some(3), true, false)], [3])
  const LENT := View([New(3), Bone(1, Some(3), true, false)], [3, 1])
  const RETURNED := View([New(2), Bone(1, None, false, true)], [1, 2, 1])

  lemma Views()
    ensures FIRST == View(NOTHING.bones + [New(1)], NOTHING.history + [1])
    ensures BOTH == View(FIRST.bones + [New(2)], FIRST.history + [2])
    ensures THIRD == View(NOTHING.bones + [New(3)], NOTHING.history + [3])
    ensures SECOND == View(WithoutBone(BOTH.bones, 0), BOTH.history)
    ensures ADOPTED == View(THIRD.bones + [Linked(New(1), Some(3))], THIRD.history)
    ensures THIRD.bones == WithoutBone(LENT.bones, 1)
  {
  }

  lemma Members()
    ensures 1 in BoneIds(FIRST.bones) && 2 in BoneIds(BOTH.bones) && 3 in BoneIds(THIRD.bones)
            && 2 in BoneIds(SECOND.bones)
    ensures 1 in BoneIds(ADOPTED.bones) && 3 in BoneIds(ADOPTED.bones) && 1 in BoneIds(LENT.bones)
  {
    assert BoneIds(FIRST.bones)[0] == 1 && BoneIds(BOTH.bones)[1] == 2 && BoneIds(THIRD.bones)[0] == 3;
    assert BoneIds(SECOND.bones)[0] == 2 && BoneIds(ADOPTED.bones)[0] == 3 && BoneIds(ADOPTED.bones)[1] == 1;
    assert BoneIds(LENT.bones)[1] == 1;
  }

  lemma Recollections()
    ensures Recalled(BOTH.history, 2, true) == BOTH.history && Recalled(SECOND.history, 2, true) == SECOND.history
    ensures Recalled(THIRD.history, 1, true) == LENT.history && Recalled(LENT.history, 1, true) == LENT.history
    ensures PickIds(LENT.history, {1}, true) == [1] && PickIds(LENT.history, {1}, false) == THIRD.history
  {
    PickLast([1], 2);
    PickLast([3], 1);
    PickNothing([3], 1);
    assert [1] + [2] == [1, 2] && [3] + [1] == [3, 1];
    assert [3, 1][1..] == [1] && [1][1..] == [];
  }

  lemma FirstOpened(d: Desk)
    requires Inv(d) && Stands(d, 0, None, NOTHING, NOTHING) && d.nextId == 1
    ensures var r := Added(d, 0, Naming(None), true);
            Inv(r) && Stands(r, 0, Some(1), FIRST, NOTHING) && r.nextId == 2
  {
    Views();
    StandsAdded(d, 0, None, NOTHING, NOTHING, Naming(None));
  }

  lemma SecondOpened(d: Desk)
    requires Inv(d) && Stands(d, 0, Some(1), FIRST, NOTHING) && d.nextId == 2
    ensures var r := Added(d, 0, Naming(None), true);
            Inv(r) && Stands(r, 0, Some(2), BOTH, NOTHING) && r.nextId == 3
  {
    assert View(FIRST.bones + [New(2)], FIRST.history + [2]) == BOTH by { Views(); }
    assert 1 in BoneIds(FIRST.bones) && 2 !in FIRST.history by { Members(); }
    StandsAdded(d, 0, Some(1), FIRST, NOTHING, Naming(None));
  }

  lemma Away(d: Desk)
    requires Inv(d) && Stands(d, 0, Some(2), BOTH, NOTHING) && d.nextId == 3
    ensures var r := Switched(d, 1, false);
            Inv(r) && Stands(r, 1, None, NOTHING, BOTH) && r.nextId == 3
  {
    Members();
    Recollections();
    StandsSwitched(d, 0, Some(2), BOTH, NOTHING);
  }

  lemma ThirdOpened(d: Desk)
    requires Inv(d) && Stands(d, 1, None, NOTHING, BOTH) && d.nextId == 3
    ensures var r := Added(d, 0, Naming(None), true);
            Inv(r) && Stands(r, 1, Some(3), THIRD, BOTH)
  {
    Views();
    StandsAdded(d, 1, None, NOTHING, BOTH, Naming(None));
  }

  lemma FirstLent(d: Desk)
    requires Inv(d) && Stands(d, 1, Some(3), THIRD, BOTH)
    ensures var r := Refreshed(d, 1, Naming(Some(3)));
            Inv(r) && Stands(r, 1, Some(3), ADOPTED, SECOND)
  {
    Views();
    Members();
    StandsFollowed(d, 1, Some(3), THIRD, BOTH, 0, Naming(Some(3)));
  }

  lemma LentFocused(d: Desk)
    requires Inv(d) && Stands(d, 1, Some(3), ADOPTED, SECOND)
    ensures var r := WindowFocused(d, 1, false);
            Inv(r) && Stands(r, 1, Some(1), LENT, SECOND)
  {
    Members();
    Recollections();
    StandsWindowFocused(d, 1, Some(3), ADOPTED, SECOND, 1);
  }

  lemma Back(d: Desk)
    requires Inv(d) && Stands(d, 1, Some(1), LENT, SECOND)
    ensures var r := Switched(d, 0, false);
            Inv(r) && Stands(r, 0, Some(2), SECOND, LENT)
  {
    Members();
    Recollections();
    StandsSwitched(d, 1, Some(1), LENT, SECOND);
  }

  lemma FirstReturned(d: Desk)
    requires Inv(d) && Stands(d, 0, Some(2), SECOND, LENT)
    ensures var r := RulesApplied(d, 1, TO_FIRST, Naming(None));
            Inv(r) && Stands(r, 0, Some(2), RETURNED, THIRD)
  {
    Members();
    ReturnedViews();
    StandsPlaced(d, Some(2), SECOND, LENT, 1, Naming(None));
  }

  lemma ReturnedViews()
    ensures View(SECOND.bones + [Bone(1, None, false, true)], SECOND.history + PickIds(LENT.history, {1}, true))
            == RETURNED
    ensures View(WithoutBone(LENT.bones, 1), PickIds(LENT.history, {1}, false)) == THIRD
  {
    assert PickIds(LENT.history, {1}, true) == [1] && PickIds(LENT.history, {1}, false) == THIRD.history by {
      Recollections();
    }
    assert WithoutBone(LENT.bones, 1) == THIRD.bones by { Views(); }
    ReturnedHere();
  }

  lemma ReturnedHere()
    ensures SECOND.bones + [Bone(1, None, false, true)] == RETURNED.bones && SECOND.history + [1] == RETURNED.history
  {
  }

  // The desk after the first k operations.
  ghost function After(predefined: nat, output: Size, ops: seq<Op>, k: nat): (r: Desk)
    requires k <= |ops|
    ensures Inv(r)
  {
    Run(Start(predefined, output), ops[..k])
  }

  lemma AfterStep(predefined: nat, output: Size, ops: seq<Op>, k: nat)
    requires k < |ops|
    ensures After(predefined, output, ops, k + 1) == Applied(After(predefined, output, ops, k), ops[k])
  {
    assert ops[..k + 1] == ops[..k] + [ops[k]];
    RunStep(Start(predefined, output), ops[..k], ops[k]);
  }

  lemma AfterAdd(predefined: nat, output: Size, ops: seq<Op>, k: nat)
    requires k < |ops| && ops[k].Add?
    ensures After(predefined, output, ops, k + 1)
            == Added(After(predefined, output, ops, k), ops[k].child, ops[k].hints, ops[k].takesFocus)
  {
    AfterStep(predefined, output, ops, k);
  }

  lemma AfterSwitch(predefined: nat, output: Size, ops: seq<Op>, k: nat)
    requires k < |ops| && ops[k].Switch?
    ensures After(predefined, output, ops, k + 1)
            == Switched(After(predefined, output, ops, k), ops[k].index, ops[k].animate)
  {
    AfterStep(predefined, output, ops, k);
  }

  lemma AfterRefresh(predefined: nat, output: Size, ops: seq<Op>, k: nat)
    requires k < |ops| && ops[k].Refresh?
    ensures After(predefined, output, ops, k + 1)
            == Refreshed(After(predefined, output, ops, k), ops[k].id, ops[k].hints)
  {
    AfterStep(predefined, output, ops, k);
  }

  lemma AfterFocus(predefined: nat, output: Size, ops: seq<Op>, k: nat)
    requires k < |ops| && ops[k].FocusWindow?
    ensures After(predefined, output, ops, k + 1)
            == WindowFocused(After(predefined, output, ops, k), ops[k].id, ops[k].animate)
  {
    AfterStep(predefined, output, ops, k);
  }

  lemma AfterRules(predefined: nat, output: Size, ops: seq<Op>, k: nat)
    requires k < |ops| && ops[k].ApplyRules?
    ensures After(predefined, output, ops, k + 1)
            == RulesApplied(After(predefined, output, ops, k), ops[k].id, ops[k].rules, ops[k].hints)
  {
    AfterStep(predefined, output, ops, k);
  }

  lemma AfterFullscreen(predefined: nat, output: Size, ops: seq<Op>, k: nat)
    requires k < |ops| && ops[k].SetFullscreen?
    ensures After(predefined, output, ops, k + 1)
            == SetExpanded(After(predefined, output, ops, k), ops[k].id, true, ops[k].on)
  {
    AfterStep(predefined, output, ops, k);
  }

  lemma AfterFirst(predefined: nat, output: Size, ops: seq<Op>)
    requires ops != [] && ops[0] == Add(0, Naming(None), true)
    ensures var d := After(predefined, output, ops, 1); Stands(d, 0, Some(1), FIRST, NOTHING) && d.nextId == 2
  {
    var d := Start(predefined, output);
    assert After(predefined, output, ops, 1) == Added(d, 0, Naming(None), true) by {
      AfterAdd(predefined, output, ops, 0);
      assert After(predefined, output, ops, 0) == d;
    }
    StartStands(predefined, output);
    FirstOpened(d);
  }

  lemma AfterAway(predefined: nat, output: Size, ops: seq<Op>)
    requires |ops| >= 3 && ops[0] == Add(0, Naming(None), true) && ops[1] == ops[0] && ops[2] == Switch(1, false)
    ensures var d := After(predefined, output, ops, 3); Stands(d, 1, None, NOTHING, BOTH) && d.nextId == 3
  {
    AfterFirst(predefined, output, ops);
    AfterAdd(predefined, output, ops, 1);
    SecondOpened(After(predefined, output, ops, 1));
    AfterSwitch(predefined, output, ops, 2);
    Away(After(predefined, output, ops, 2));
  }

  lemma AfterLent(predefined: nat, output: Size, ops: seq<Op>)
    requires |ops| >= 5 && Stands(After(predefined, output, ops, 3), 1, None, NOTHING, BOTH)
    requires After(predefined, output, ops, 3).nextId == 3
    requires ops[3] == Add(0, Naming(None), true) && ops[4] == Refresh(1, Naming(Some(3)))
    ensures Stands(After(predefined, output, ops, 5), 1, Some(3), ADOPTED, SECOND)
  {
    AfterAdd(predefined, output, ops, 3);
    ThirdOpened(After(predefined, output, ops, 3));
    AfterRefresh(predefined, output, ops, 4);
    FirstLent(After(predefined, output, ops, 4));
  }

  lemma AfterReturned(predefined: nat, output: Size, ops: seq<Op>)
    requires |ops| == 8 && Stands(After(predefined, output, ops, 5), 1, Some(3), ADOPTED, SECOND)
    requires ops[5] == FocusWindow(1, false) && ops[6] == Switch(0, false)
    requires ops[7] == ApplyRules(1, TO_FIRST, Naming(None))
    ensures Stands(After(predefined, output, ops, 8), 0, Some(2), RETURNED, THIRD)
  {
    AfterFocus(predefined, output, ops, 5);
    LentFocused(After(predefined, output, ops, 5));
    AfterSwitch(predefined, output, ops, 6);
    Back(After(predefined, output, ops, 6));
    AfterRules(predefined, output, ops, 7);
    FirstReturned(After(predefined, output, ops, 7));
  }

  ghost predicate RecencyScript(ops: seq<Op>) {
    && |ops| == 8 && ops[0] == Add(0, Naming(None), true) && ops[1] == ops[0] && ops[2] == Switch(1, false)
    && ops[3] == ops[0] && ops[4] == Refresh(1, Naming(Some(3))) && ops[5] == FocusWindow(1, false)
    && ops[6] == Switch(0, false) && ops[7] == ApplyRules(1, TO_FIRST, Naming(None))
  }

  lemma AfterScript(predefined: nat, output: Size, ops: seq<Op>)
    requires RecencyScript(ops)
    ensures Stands(After(predefined, output, ops, 8), 0, Some(2), RETURNED, THIRD)
  {
    AfterAway(predefined, output, ops);
    AfterLent(predefined, output, ops);
    AfterReturned(predefined, output, ops);
  }

  lemma AfterAll(predefined: nat, output: Size, ops: seq<Op>)
    ensures After(predefined, output, ops, |ops|) == Run(Start(predefined, output), ops)
  {
    assert ops[..|ops|] == ops;
  }

  lemma RecencyReached(predefined: nat, output: Size)
    ensures Stands(Run(Start(predefined, output), RecencyOps()), 0, Some(2), RETURNED, THIRD)
  {
    AfterScript(predefined, output, RecencyOps());
    AfterAll(predefined, output, RecencyOps());
  }

  // From there Next and Previous do not undo each other.
  lemma RecencySticks(predefined: nat, output: Size)
    ensures var s := StageOf(Run(Start(predefined, output), RecencyOps()));
            && ReadyToCycle(s) && WalkOrder(s.w, true) == [1, 2, 1] && s.focus == Some(2)
            && Cycled(Cycled(s, true, Next), true, Previous).focus == Some(1)
  {
    var d := Run(Start(predefined, output), RecencyOps());
    var s := StageOf(d);
    RecencyReached(predefined, output);
    PairCandidates(s.w);
    SequenceOfPair();
    StepLands(s, true, Next);
    StepLands(Cycled(s, true, Next), true, Previous);
    RepeatedSteps();
  }

  lemma PairCandidates(w: Workspace)
    requires Plain(w, [New(2), Bone(1, None, false, true)], [1, 2, 1])
    ensures Candidates(w) == [2, 1]
  {
    var ws := w.windows;
    assert Shown(ws, ws[0]) && Shown(ws, ws[1]);
    assert ws[..1] == [ws[0]] && ws[..1][..0] == [] && ws[..2] == ws;
    assert CandidatesIn(ws, ws[..0]) == [];
    assert CandidatesIn(ws, ws[..1]) == [2];
    assert CandidatesIn(ws, ws) == [2] + [1];
  }

  lemma SequenceOfPair()
    ensures SequenceOf([1, 2, 1], [2, 1], true) == [1, 2, 1]
  {
    var recent := Recent([1, 2, 1], [2, 1]);
    assert recent == [1, 2, 1] by {
      assert [1, 2, 1][..2] == [1, 2] && [1, 2][..1] == [1] && [1][..0] == [];
    }
    var seen := set id | id in recent;
    assert [2, 1][1..] == [1] && [1][1..] == [];
    assert PickIds([1], seen, false) == [];
    assert PickIds([2, 1], seen, false) == [];
  }

  lemma RepeatedSteps()
    ensures NextTarget([1, 2, 1], Some(2), Next) == Some(1) && NextTarget([1, 2, 1], Some(1), Previous) == Some(1)
  {
    StepForward([1, 2, 1], 2);
    StepBack([1, 2, 1], 1);
    assert Pos([1, 2, 1], 1) == 0;
    assert [1, 2, 1][1..] == [2, 1] && Pos([2, 1], 2) == 0 && Pos([1, 2, 1], 2) == 1;
  }

  // ------------------------------------------------------------------
  // A window that Next never reaches

  const UNMET := View([New(2), Bone(1, None, false, true), Bone(3, Some(2), true, false)], [1, 2, 1])

  // One step more: the last window adopts the third, which was never focused here.
  lemma ThirdAdopted(d: Desk)
    requires Inv(d) && Stands(d, 0, Some(2), RETURNED, THIRD)
    ensures var r := Refreshed(d, 3, Naming(Some(2)));
            Inv(r) && Stands(r, 0, Some(2), UNMET, View([], [3]))
  {
    assert BoneIds(RETURNED.bones)[0] == 2;
    StandsFollowed(d, 0, Some(2), RETURNED, THIRD, 0, Naming(Some(2)));
    assert RETURNED.bones + [Linked(New(3), Some(2))] == UNMET.bones && WithoutBone(THIRD.bones, 0) == [];
  }

  lemma UnmetReached(predefined: nat, output: Size)
    ensures Stands(Run(Start(predefined, output), RecencyOps() + [Refresh(3, Naming(Some(2)))]), 0, Some(2), UNMET,
            View([], [3]))
  {
    var d, op := Run(Start(predefined, output), RecencyOps()), Refresh(3, Naming(Some(2)));
    RecencyReached(predefined, output);
    ThirdAdopted(d);
    RunStep(Start(predefined, output), RecencyOps(), op);
  }

  // From there Next goes back and forth between two windows, and however often
  // it is pressed the third never gets its turn.
  lemma NextSkips(predefined: nat, output: Size, presses: seq<Stage>)
    requires presses != [] && Presses(presses, true)
    requires presses[0] == StageOf(Run(Start(predefined, output), RecencyOps() + [Refresh(3, Naming(Some(2)))]))
    ensures 3 in Candidates(presses[0].w) && WalkOrder(presses[0].w, true) == [1, 2, 1, 3]
    ensures forall k :: 0 <= k < |presses| ==> presses[k].focus == Some(if k % 2 == 0 then 2 else 1)
    ensures forall r: nat :: !Cyclic([1, 2, 1, 3], r)
  {
    var s := presses[0];
    UnmetReached(predefined, output);
    TrioCandidates(s.w);
    SequenceOfTrio();
    forall k | 0 <= k < |presses| ensures presses[k].focus == Some(if k % 2 == 0 then 2 else 1) {
      NextWalks(presses, [1, 2, 1, 3], true, 2, k);
      Shuttles(k);
    }
    NotCyclic();
  }

  lemma TrioCandidates(w: Workspace)
    requires Plain(w, UNMET.bones, [1, 2, 1])
    ensures Candidates(w) == [2, 1, 3]
  {
    var ws := w.windows;
    assert Shown(ws, ws[0]) && Shown(ws, ws[1]) && Shown(ws, ws[2]);
    assert ws[..1] == [ws[0]] && ws[..2][..1] == ws[..1] && ws[..3] == ws && ws[..1][..0] == [];
    assert CandidatesIn(ws, ws[..0]) == [];
    assert CandidatesIn(ws, ws[..1]) == [2];
    assert CandidatesIn(ws, ws[..2]) == [2] + [1];
    assert CandidatesIn(ws, ws) == [2, 1] + [3];
  }

  lemma SequenceOfTrio()
    ensures SequenceOf([1, 2, 1], [2, 1, 3], true) == [1, 2, 1, 3]
  {
    var recent := Recent([1, 2, 1], [2, 1, 3]);
    assert recent == [1, 2, 1] by {
      assert [1, 2, 1][..2] == [1, 2] && [1, 2][..1] == [1] && [1][..0] == [];
    }
    UnseenLast(set id | id in recent);
  }

  lemma UnseenLast(seen: set<nat>)
    requires 1 in seen && 2 in seen && 3 !in seen
    ensures PickIds([2, 1, 3], seen, false) == [3]
  {
    assert [2, 1, 3][1..] == [1, 3] && [1, 3][1..] == [3] && [3][1..] == [];
    assert PickIds([3], seen, false) == [3];
    assert PickIds([1, 3], seen, false) == [3];
  }

  lemma {:induction false} Shuttles(k: nat)
    ensures Walk([1, 2, 1, 3], 2, k) == Some(if k % 2 == 0 then 2 else 1)
  {
    if k > 0 {
      Shuttles(k - 1);
      var o := [1, 2, 1, 3];
      StepForward(o, 1);
      StepForward(o, 2);
      assert o[1..] == [2, 1, 3] && Pos([2, 1, 3], 2) == 0 && Pos(o, 2) == 1 && Pos(o, 1) == 0;
    }
  }

  lemma NotCyclic()
    ensures forall r: nat :: !Cyclic([1, 2, 1, 3], r)
  {
    var o := [1, 2, 1, 3];
    assert o[0] == o[2] && 3 in o && forall r: nat :: r < 3 ==> 3 !in o[..r];
    assert forall r: nat :: 3 <= r <= 4 ==> !NoDup(o[..r]) by {
      forall r: nat | 3 <= r <= 4 ensures !NoDup(o[..r]) {
        assert o[..r][0] == o[..r][2];
      }
    }
  }

  // ------------------------------------------------------------------
  // Rules that strand the focus

  function StrandingOps(): seq<Op> {
    [Add(0, Naming(None), true), Add(0, Naming(Some(1)), true), SetFullscreen(1, true)]
  }

  ghost predicate StrandingScript(ops: seq<Op>) {
    && |ops| == 3 && ops[0] == Add(0, Naming(None), true) && ops[1] == Add(0, Naming(Some(1)), true)
    && ops[2] == SetFullscreen(1, true)
  }

  function StrandingRules(): Rules { Rules(Some(false), Some(false), None, None) }

  const FAMILY := View([New(1), Bone(2, Some(1), true, false)], [1, 2])

  lemma ChildOpened(d: Desk)
    requires Inv(d) && Stands(d, 0, Some(1), FIRST, NOTHING) && d.nextId == 2
    ensures var r := Added(d, 0, Naming(Some(1)), true);
            Inv(r) && Stands(r, 0, Some(2), FAMILY, NOTHING)
  {
    Members();
    FamilyView();
    StandsAdded(d, 0, Some(1), FIRST, NOTHING, Naming(Some(1)));
  }

  lemma FamilyView()
    ensures FAMILY == View(FIRST.bones + [Bone(2, Some(1), true, false)], FIRST.history + [2])
  {
  }

  // What the expanded family looks like.
  ghost predicate Covers(d: Desk) {
    && d.focus == Some(2) && d.active == 0 && 0 < |d.workspaces| && Overlaid(d.workspaces[0], 2)
    && WorkspaceOf(d.workspaces, 2) == Some(0) && WorkspaceOf(d.workspaces, 1) == Some(0)
    && Find(d.workspaces[0].windows, 2).Some?
    && var e := Find(d.workspaces[0].windows, 2).value;
       e.parent == Some(1) && e.floating.Some? && !e.rulesApplied
  }

  // A floating child stays visible over its fullscreen parent, and keeps the focus.
  lemma OwnerExpanded(d: Desk)
    requires Inv(d) && Stands(d, 0, Some(2), FAMILY, NOTHING)
    ensures var r := SetExpanded(d, 1, true, true);
            Inv(r) && FocusOk(r) && Covers(r)
  {
    var w := d.workspaces[0];
    var v := w.(fullscreen := Some(1));
    assert WorkspaceOf(d.workspaces, 1) == Some(0) by {
      assert BoneIds(FAMILY.bones)[0] == 1;
      StandsHome(d, 0, Some(2), FAMILY, NOTHING, 1);
    }
    assert Inv(With(d, 0, v)) by {
      assert 1 in Ids(w.windows) by {
        assert w.windows[0] in w.windows;
      }
      WithInv(d, 0, v);
    }
    CoveredStage(w, v, FAMILY.bones);
    assert v.(fullscreen := None) == w;
    FocusKept(With(d, 0, v), FAMILY.bones);
  }

  lemma CoveredStage(w: Workspace, v: Workspace, bones: seq<Bone>)
    requires bones == [New(1), Bone(2, Some(1), true, false)] && Plain(w, bones, [1, 2])
             && v == w.(fullscreen := Some(1))
    ensures Exclusive(v) == Some(1) && Visible(v, 2)
  {
    var ws := w.windows;
    FindUnique(ws, ws[0]);
    FindUnique(ws, ws[1]);
    assert Shown(ws, ws[0]) && Shown(ws, ws[1]);
    assert ShownId(ws, 1);
    assert Ancestor(ws, 2, 0) == Some(2) && Ancestor(ws, 2, 1) == Some(1);
    assert Reaches(ws, 2, 1) && ws[1] in ws;
  }

  lemma FocusKept(d: Desk, bones: seq<Bone>)
    requires Inv(d) && d.active == 0 && d.focus == Some(2) && Visible(d.workspaces[0], 2)
             && Exclusive(d.workspaces[0]) == Some(1)
    requires bones == [New(1), Bone(2, Some(1), true, false)]
             && Plain(d.workspaces[0].(fullscreen := None), bones, [1, 2])
    ensures Inv(Relay(d)) && FocusOk(Relay(d)) && Covers(Relay(d))
  {
    var r, s := Relay(d), StageOf(d);
    RelayInv(d);
    var t := Renormalized(s);
    assert Visible(t.w, 2) && Exclusive(t.w) == Some(1) by {
      SameVisible(s.w, t.w, 2);
      SameExclusive(s.w, t.w);
    }
    assert Relaid(s) == t;
    var us := r.workspaces[0].windows;
    assert us[0].id == 1 && us[1].id == 2;
    assert Find(us, 1) == Some(us[0]) && Find(us, 2) == Some(us[1]) by {
      FindUnique(us, us[0]);
      FindUnique(us, us[1]);
    }
    assert WorkspaceOf(r.workspaces, 2) == Some(0) && WorkspaceOf(r.workspaces, 1) == Some(0) by {
      UniqueHome(r, 1, 0);
      UniqueHome(r, 2, 0);
    }
  }

  lemma AfterExpanded(predefined: nat, output: Size, ops: seq<Op>)
    requires StrandingScript(ops)
    ensures var d := After(predefined, output, ops, 3); FocusOk(d) && Covers(d)
  {
    AfterFirst(predefined, output, ops);
    AfterAdd(predefined, output, ops, 1);
    ChildOpened(After(predefined, output, ops, 1));
    AfterFullscreen(predefined, output, ops, 2);
    OwnerExpanded(After(predefined, output, ops, 2));
  }

  lemma RulesStrand(d: Desk)
    requires Inv(d) && FocusOk(d) && Covers(d)
    ensures !FocusOk(RulesApplied(d, 2, StrandingRules(), Naming(Some(1))))
  {
    assert LosesFocus(d, 2, StrandingRules(), Naming(Some(1)));
    RulesKeepFocus(d, 2, StrandingRules(), Naming(Some(1)));
  }

  // A session whose next operation leaves focus on a window it has just covered.
  lemma StrandingReached(predefined: nat, output: Size)
    ensures var d := Run(Start(predefined, output), StrandingOps());
            FocusOk(d) && !FocusOk(Applied(d, ApplyRules(2, StrandingRules(), Naming(Some(1)))))
  {
    var d := Run(Start(predefined, output), StrandingOps());
    assert Inv(d) && FocusOk(d) && Covers(d) by {
      AfterExpanded(predefined, output, StrandingOps());
      AfterAll(predefined, output, StrandingOps());
    }
    RulesStrand(d);
  }
}
