// A session that leaves a stack whose weights are not at a fixed point of
// renormalization: five equal stack windows, one divider drag, one window closed.
module Uneven {
  import opened Common
  import opened Model
  import opened Stacking
  import opened Tiling
  import opened Settling
  import Appearance
  import opened Visibility
  import opened Focus
  import opened Cycling
  import opened Desk
  import opened Operations
  import opened Transfers
  import opened DeskDrags
  import opened Effects
  import opened Scenario
  import opened Session
  import opened Reached
  import Drag
  import opened MasterDrag

  // ------------------------------------------------------------------
  // Weights of plain tiles

  // Windows that are all tiles.
  ghost predicate Row(bones: seq<Bone>) {
    forall k :: 0 <= k < |bones| ==> bones[k].parent.None? && !bones[k].floats
  }

  ghost predicate Weighs(w: Workspace, weights: seq<nat>) {
    && |w.windows| == |weights| && w.masterRatio.None?
    && forall k :: 0 <= k < |weights| ==> w.windows[k].stackWeight == weights[k]
  }

  // The stack renormalized, the master left alone.
  ghost function Eased(weights: seq<nat>): (r: seq<nat>)
    requires weights != []
    ensures |r| == |weights|
  {
    [weights[0]] + Normalized(weights[1..])
  }

  lemma RowStack(w: Workspace, bones: seq<Bone>, history: seq<nat>, weights: seq<nat>)
    requires Plain(w, bones, history) && Row(bones) && Weighs(w, weights) && weights != []
    ensures TilesOf(w.windows, w.windows) == w.windows && Stack(w.windows) == w.windows[1..]
    ensures WeightsOf(Stack(w.windows)) == weights[1..] && IdsOf(Stack(w.windows)) == BoneIds(bones)[1..]
  {
    forall e | e in w.windows ensures Tiled(w.windows, e) {
      var k :| 0 <= k < |w.windows| && w.windows[k] == e;
      assert Fleshed(w.windows[k], bones[k]);
    }
    Drag.AllTiled(w.windows, w.windows);
  }

  // Assigning weights to the whole stack.
  lemma RowReweighed(w: Workspace, bones: seq<Bone>, history: seq<nat>, weights: seq<nat>, given: seq<nat>)
    requires Plain(w, bones, history) && Row(bones) && Weighs(w, weights) && weights != [] && |given| + 1 == |weights|
    ensures Weighs(w.(windows := Reweigh(w.windows, BoneIds(bones)[1..], given)), [weights[0]] + given)
  {
    var ws, ids := w.windows, BoneIds(bones)[1..];
    var vs := Reweigh(ws, ids, given);
    forall j | 0 <= j < |ids| ensures ids[j] == ws[j + 1].id {
    }
    assert NoDup(ids) by {
      forall i, j | 0 <= i < j < |ids| ensures ids[i] != ids[j] {
        assert ws[i + 1].id != ws[j + 1].id;
      }
    }
    assert ws[0].id !in ids;
    forall k | 0 <= k < |vs| ensures vs[k].stackWeight == ([weights[0]] + given)[k] {
      if k > 0 {
        assert ids[k - 1] == ws[k].id;
        PosAt(ids, k - 1);
      }
    }
  }

  lemma RowFocused(s: Stage, id: nat, weights: seq<nat>)
    requires Weighs(s.w, weights)
    ensures Weighs(Focused(s, id, true).w, weights)
  {
  }

  lemma RowRelaid(s: Stage, bones: seq<Bone>, history: seq<nat>, weights: seq<nat>)
    requires Plain(s.w, bones, history) && Row(bones) && Weighs(s.w, weights) && weights != []
    ensures Weighs(Relaid(s).w, Eased(weights))
  {
    var t := s.(w := s.w.(windows := NormalizedStack(s.w.windows)));
    assert t.w == s.w.(windows := Reweigh(s.w.windows, BoneIds(bones)[1..], Normalized(weights[1..]))) by {
      RowStack(s.w, bones, history, weights);
    }
    assert Weighs(t.w, Eased(weights)) by { RowReweighed(s.w, bones, history, weights, Normalized(weights[1..])); }
    if LastVisible(t.w).Some? {
      RowFocused(t, LastVisible(t.w).value, Eased(weights));
    }
  }

  // ------------------------------------------------------------------
  // Opening windows side by side

  function Evenly(n: nat): (r: seq<nat>)
    ensures |r| == n && forall k :: 0 <= k < n ==> r[k] == WEIGHT_UNIT
  {
    seq(n, _ => WEIGHT_UNIT)
  }

  lemma {:induction false} EvenSum(n: nat)
    ensures Sum(Evenly(n)) == WEIGHT_UNIT * n
  {
    if n > 0 {
      EvenSum(n - 1);
      assert Evenly(n)[..n - 1] == Evenly(n - 1);
    }
  }

  lemma EvenEased(n: nat)
    requires n > 0
    ensures Eased(Evenly(n)) == Evenly(n)
  {
    EvenSum(n - 1);
    assert Evenly(n)[1..] == Evenly(n - 1);
  }

  function Line(n: nat): View {
    View(seq(n, k requires 0 <= k < n => New(k + 1)), seq(n, k requires 0 <= k < n => k + 1))
  }

  ghost predicate SideBySide(d: Desk, n: nat) {
    && Inv(d) && Stands(d, 0, if n == 0 then None else Some(n), Line(n), NOTHING) && d.nextId == n + 1
    && Weighs(d.workspaces[0], Evenly(n))
  }

  lemma OneMore(d: Desk, n: nat)
    requires SideBySide(d, n)
    ensures SideBySide(Added(d, 0, Naming(None), true), n + 1)
  {
    var focus := if n == 0 then None else Some(n);
    if n > 0 {
      assert BoneIds(Line(n).bones)[n - 1] == n;
    }
    assert Line(n).bones + [New(n + 1)] == Line(n + 1).bones && Line(n).history + [n + 1] == Line(n + 1).history;
    StandsAdded(d, 0, focus, Line(n), NOTHING, Naming(None));
    OneMoreWeighs(d, n);
  }

  lemma OneMoreWeighs(d: Desk, n: nat)
    requires SideBySide(d, n)
    ensures var r := Added(d, 0, Naming(None), true); r.workspaces != [] && Weighs(r.workspaces[0], Evenly(n + 1))
  {
    var focus, bare := if n == 0 then None else Some(n), View(Line(n).bones + [New(n + 1)], Line(n).history);
    LaunchedMore(d, n, focus);
    LaunchedWeighs(d, n);
    MoreRow(n);
    Unchanged(Launched(d, 0), focus, bare, n);
    AddedIs(d, Launched(d, 0), n + 1);
    HomeWeighs(Launched(d, 0), focus, bare, n + 1);
  }

  lemma LaunchedMore(d: Desk, n: nat, focus: Option<nat>)
    requires Inv(d) && Stands(d, 0, focus, Line(n), NOTHING) && d.nextId == n + 1
    ensures var r := Launched(d, 0);
            Inv(r) && Stands(r, 0, focus, View(Line(n).bones + [New(n + 1)], Line(n).history), NOTHING)
  {
    StandsLaunched(d, 0, focus, Line(n), NOTHING);
  }

  lemma MoreRow(n: nat)
    ensures var bones := Line(n).bones + [New(n + 1)]; Row(bones) && |bones| == n + 1 && bones[n] == New(n + 1)
  {
  }

  lemma Unchanged(d: Desk, focus: Option<nat>, view: View, n: nat)
    requires Inv(d) && Stands(d, 0, focus, view, NOTHING) && n < |view.bones| && view.bones[n] == New(n + 1)
    ensures Refreshed(d, n + 1, Naming(None)) == d
  {
    StandsUnhinted(d, 0, focus, view, NOTHING, n, Naming(None));
  }

  lemma AddedIs(d: Desk, d1: Desk, id: nat)
    requires Inv(d) && Inv(d1) && d1 == Launched(d, 0) && id == d.nextId && Refreshed(d1, id, Naming(None)) == d1
    ensures Added(d, 0, Naming(None), true) == MadeHome(d1, id, true)
  {
  }

  lemma LaunchedWeighs(d: Desk, n: nat)
    requires Inv(d) && d.active == 0 < |d.workspaces| && d.children == [] && d.nextId == n + 1
    requires Weighs(d.workspaces[0], Evenly(n))
    ensures Weighs(Launched(d, 0).workspaces[0], Evenly(n + 1))
  {
    var w, o := d.workspaces[0], Opened(d, 0);
    assert Weighs(w.(windows := w.windows + [NewEntry(n + 1)]), Evenly(n + 1));
    assert o.workspaces[0] == w.(windows := w.windows + [NewEntry(n + 1)]);
    assert Trim(o).workspaces[0] == o.workspaces[0] by {
      OpenedInv(d, 0);
      TrimInv(o);
    }
  }

  lemma HomeWeighs(d: Desk, focus: Option<nat>, view: View, n: nat)
    requires Inv(d) && Stands(d, 0, focus, view, NOTHING) && |view.bones| == n && view.bones != [] && Row(view.bones)
    requires view.bones[n - 1].id == n && Weighs(d.workspaces[0], Evenly(n))
    ensures var r := MadeHome(d, n, true); r.workspaces != [] && Weighs(r.workspaces[0], Evenly(n))
  {
    var r, history := RememberedIn(d, n), Recalled(view.history, n, true);
    assert BoneIds(view.bones)[n - 1] == n;
    assert WorkspaceOf(d.workspaces, n) == Some(0) by { StandsHome(d, 0, focus, view, NOTHING, n); }
    assert Inv(r) && Stands(r, 0, focus, View(view.bones, history), NOTHING) by {
      StandsRemembered(d, 0, focus, view, NOTHING, n);
    }
    assert Weighs(Relay(r).workspaces[0], Evenly(n)) by {
      RowRelaid(StageOf(r), view.bones, history, Evenly(n));
      EvenEased(n);
    }
    RowFocused(StageOf(Relay(r)), n, Evenly(n));
  }

  // ------------------------------------------------------------------
  // Dragging a divider, and closing a window

  // Five equal slots of 216 pixels; the first divider goes up by 300.
  const DRAGGED: seq<nat> := [2962, 17038, 10000, 10000, 10000]
  const STACKED: seq<nat> := [2, 3, 4, 5, 6]
  const LEFT: seq<nat> := [10000, 17038, 10000, 10000, 10000]
  const UNEVEN: seq<nat> := [14488, 8503, 8503, 8503]

  lemma SumOn(s: seq<nat>, x: nat)
    ensures Sum(s + [x]) == Sum(s) + x
  {
    assert (s + [x])[..|s|] == s;
  }

  lemma SumOfFour(a: nat, b: nat, c: nat, d: nat)
    ensures Sum([a, b, c, d]) == a + b + c + d
  {
    SumOn([], a);
    SumOn([a], b);
    SumOn([a, b], c);
    SumOn([a, b, c], d);
    assert [] + [a] == [a] && [a] + [b] == [a, b] && [a, b] + [c] == [a, b, c] && [a, b, c] + [d] == [a, b, c, d];
  }

  lemma DraggedIs()
    ensures DraggedWeights(Evenly(5), 0, 216, 216, -300) == DRAGGED && Normalized(DRAGGED) == DRAGGED
  {
    assert 20000 * RequestedHeight(216, 216, -300) / 432 == 2962;
    SumOfFour(2962, 17038, 10000, 10000);
    SumOn([2962, 17038, 10000, 10000], 10000);
    assert [2962, 17038, 10000, 10000] + [10000] == DRAGGED;
  }

  lemma UnevenIs()
    ensures Eased(LEFT)[1..] == UNEVEN && Bounded(UNEVEN) && !Settled(UNEVEN)
  {
    var stack := [17038, 10000, 10000, 10000];
    assert LEFT[1..] == stack;
    SumOfFour(17038, 10000, 10000, 10000);
    SumOfFour(14488, 8503, 8503, 8503);
    assert Normalized(stack)[0] == 14488 && Normalized(stack)[1] == 8503 && Normalized(stack)[2] == 8503
           && Normalized(stack)[3] == 8503;
    assert Normalized(stack) == UNEVEN;
    assert UNEVEN[0] * (40000 - Sum(UNEVEN)) >= Sum(UNEVEN);
  }

  const ADD := Add(0, Naming(None), true)

  function Adds(n: nat): (r: seq<Op>)
    ensures |r| == n
  {
    if n == 0 then [] else Adds(n - 1) + [ADD]
  }

  function UnevenOps(screen: Drag.Screen): seq<Op> {
    Adds(6) + [Op.Drag(screen, Drag.Weigh(STACKED, DRAGGED))] + [Remove(2)]
  }

  lemma {:induction false} LineReached(d: Desk, n: nat)
    requires SideBySide(d, 0)
    ensures SideBySide(Run(d, Adds(n)), n)
  {
    if n > 0 {
      LineReached(d, n - 1);
      LineOn(d, Adds(n - 1), n - 1);
    }
  }

  lemma LineOn(d: Desk, ops: seq<Op>, n: nat)
    requires Inv(d) && SideBySide(Run(d, ops), n)
    ensures SideBySide(Run(d, ops + [ADD]), n + 1)
  {
    RunStep(d, ops, ADD);
    AppliedMore(Run(d, ops), n, ADD);
  }

  lemma AppliedMore(d: Desk, n: nat, op: Op)
    requires SideBySide(d, n) && op == ADD
    ensures SideBySide(Applied(d, op), n + 1)
  {
    OneMore(d, n);
  }

  lemma NoneOpened(d: Desk, predefined: nat, output: Size)
    requires d == Start(predefined, output)
    ensures SideBySide(d, 0)
  {
    StartStands(predefined, output);
    StartBlank(predefined, output);
    assert Line(0) == NOTHING;
  }

  lemma StartBlank(predefined: nat, output: Size)
    ensures Start(predefined, output).workspaces[0] == EMPTY_WORKSPACE
  {
  }

  lemma StackOfSix(d: Desk)
    requires SideBySide(d, 6)
    ensures IdsOf(Stack(d.workspaces[0].windows)) == STACKED && WeightsOf(Stack(d.workspaces[0].windows)) == Evenly(5)
  {
    RowStack(d.workspaces[0], Line(6).bones, Line(6).history, Evenly(6));
    assert Evenly(6)[1..] == Evenly(5);
    StackedIs();
  }

  lemma StackedIs()
    ensures BoneIds(Line(6).bones)[1..] == STACKED
  {
  }

  // The divider is where the drag left it.
  ghost predicate Tugged(d: Desk) {
    Inv(d) && Stands(d, 0, Some(6), Line(6), NOTHING) && Weighs(d.workspaces[0], [WEIGHT_UNIT] + DRAGGED)
  }

  lemma SixTugged(d: Desk, screen: Drag.Screen)
    requires SideBySide(d, 6) && Drag.ScreenOk(screen)
    ensures Tugged(WishGranted(d, screen, Drag.Weigh(STACKED, DRAGGED)))
  {
    var r := WishGranted(d, screen, Drag.Weigh(STACKED, DRAGGED));
    StackOfSix(d);
    assert r == With(d, 0, StackWeighed(d.workspaces[0], DRAGGED)) by { StackWeighedIs(d, screen, DRAGGED); }
    assert Inv(r) by { WishGrantedInv(d, screen, Drag.Weigh(STACKED, DRAGGED)); }
    RowTugged(d.workspaces[0]);
  }

  lemma RowTugged(w: Workspace)
    requires Shows(w, Line(6)) && Weighs(w, Evenly(6)) && IdsOf(Stack(w.windows)) == STACKED
    ensures var v := StackWeighed(w, DRAGGED); Shows(v, Line(6)) && Weighs(v, [WEIGHT_UNIT] + DRAGGED)
  {
    TuggedIs(w);
    LineRow(6);
    RowGiven(w, Line(6), Evenly(6), DRAGGED);
    assert [Evenly(6)[0]] == [WEIGHT_UNIT];
  }

  lemma TuggedIs(w: Workspace)
    requires IdsOf(Stack(w.windows)) == STACKED
    ensures StackWeighed(w, DRAGGED) == w.(windows := Reweigh(w.windows, BoneIds(Line(6).bones)[1..], DRAGGED))
  {
    DraggedIs();
    assert Drag.AtLeastOne(DRAGGED) == DRAGGED;
    StackedIs();
  }

  lemma RowGiven(w: Workspace, view: View, weights: seq<nat>, given: seq<nat>)
    requires Shows(w, view) && Row(view.bones) && Weighs(w, weights) && weights != [] && |given| + 1 == |weights|
    ensures var v := w.(windows := Reweigh(w.windows, BoneIds(view.bones)[1..], given));
            Shows(v, view) && Weighs(v, [weights[0]] + given)
  {
    RowReweighed(w, view.bones, view.history, weights, given);
    PlainDressed(w, w.(windows := Reweigh(w.windows, BoneIds(view.bones)[1..], given)), view.bones, view.history);
  }

  lemma LineRow(n: nat)
    ensures Row(Line(n).bones) && (n > 0 ==> n in BoneIds(Line(n).bones))
  {
    if n > 0 {
      assert BoneIds(Line(n).bones)[n - 1] == n;
    }
  }

  const KEPT := View([New(1), New(3), New(4), New(5), New(6)], [1, 3, 4, 5, 6])

  ghost predicate Unsettled(d: Desk) {
    Inv(d) && Stands(d, 0, Some(6), KEPT, NOTHING) && Weighs(d.workspaces[0], Eased(LEFT))
  }

  lemma SecondClosed(d: Desk)
    requires Tugged(d)
    ensures Unsettled(Closed(d, 2))
  {
    var r := Without(d, 2);
    WithoutIs(d);
    KeptRow();
    StandsTrimmed(r, 0, Some(6), KEPT, NOTHING);
    assert Weighs(Trim(r).workspaces[0], LEFT) by { TrimInv(r); }
    KeptRelaid(Trim(r));
  }

  lemma KeptRelaid(d: Desk)
    requires Inv(d) && Stands(d, 0, Some(6), KEPT, NOTHING) && Weighs(d.workspaces[0], LEFT)
    ensures Unsettled(Relay(d))
  {
    KeptRow();
    StandsRelaid(d, 0, Some(6), KEPT, NOTHING);
    RowRelaid(StageOf(d), KEPT.bones, KEPT.history, LEFT);
  }

  lemma KeptRow()
    ensures Row(KEPT.bones) && 6 in BoneIds(KEPT.bones)
  {
    assert BoneIds(KEPT.bones)[4] == 6;
  }

  lemma WithoutIs(d: Desk)
    requires Tugged(d)
    ensures var r := Without(d, 2); Inv(r) && Stands(r, 0, Some(6), KEPT, NOTHING) && Weighs(r.workspaces[0], LEFT)
  {
    assert WorkspaceOf(d.workspaces, 2) == Some(0) by {
      assert BoneIds(Line(6).bones)[1] == 2;
      StandsHome(d, 0, Some(6), Line(6), NOTHING, 2);
    }
    WithoutInv(d, 2);
    PartedWeighs(d.workspaces[0]);
  }

  lemma PartedWeighs(w: Workspace)
    requires Shows(w, Line(6)) && Weighs(w, [WEIGHT_UNIT] + DRAGGED)
    ensures Shows(Part(w, {2}, false), KEPT) && Weighs(Part(w, {2}, false), LEFT)
  {
    var history := PickIds(w.focusHistory, {2}, false);
    assert Line(6).bones[1].id == 2;
    PlainParted(w, Line(6).bones, Line(6).history, 1, history);
    assert Part(w, {2}, false).(focusHistory := history) == Part(w, {2}, false);
    KeptIs();
    WeighsWithout(w, [WEIGHT_UNIT] + DRAGGED, 1);
  }

  lemma KeptIs()
    ensures WithoutBone(Line(6).bones, 1) == KEPT.bones && PickIds(Line(6).history, {2}, false) == KEPT.history
    ensures ([WEIGHT_UNIT] + DRAGGED)[..1] + ([WEIGHT_UNIT] + DRAGGED)[2..] == LEFT
  {
    KeptBones();
    KeptHistory();
    KeptWeights();
  }

  lemma KeptBones()
    ensures WithoutBone(Line(6).bones, 1) == KEPT.bones
  {
    var bones := Line(6).bones;
    assert bones[..1] == [New(1)] && bones[2..] == [New(3), New(4), New(5), New(6)];
  }

  lemma KeptHistory()
    ensures PickIds(Line(6).history, {2}, false) == KEPT.history
  {
    assert Line(6).history == [1, 2] + [3, 4, 5, 6];
    PickSecond(1, 2, [3, 4, 5, 6]);
    assert [1] + [3, 4, 5, 6] == KEPT.history;
  }

  lemma KeptWeights()
    ensures ([WEIGHT_UNIT] + DRAGGED)[..1] + ([WEIGHT_UNIT] + DRAGGED)[2..] == LEFT
  {
  }

  lemma WeighsWithout(w: Workspace, weights: seq<nat>, k: nat)
    requires UniqueIds(w.windows) && Weighs(w, weights) && k < |weights|
    ensures Weighs(Part(w, {w.windows[k].id}, false), weights[..k] + weights[k + 1..])
  {
    PickOut(w.windows, k);
    var vs, left := w.windows[..k] + w.windows[k + 1..], weights[..k] + weights[k + 1..];
    forall i | 0 <= i < |left| ensures vs[i].stackWeight == left[i] {
      var j := if i < k then i else i + 1;
      assert vs[i] == w.windows[j] && left[i] == weights[j];
    }
  }

  lemma PickSecond(a: nat, b: nat, rest: seq<nat>)
    requires a != b && b !in rest
    ensures PickIds([a, b] + rest, {b}, false) == [a] + rest
  {
    var all := [a, b] + rest;
    assert all[1..] == [b] + rest && all[1..][1..] == rest;
    PickNothing(rest, b);
    assert PickIds([b] + rest, {b}, false) == rest;
  }

  // The stack weights 14488, 8503, 8503, 8503 of a session are no fixed point.
  lemma UnevenReached(predefined: nat, output: Size, screen: Drag.Screen)
    requires Drag.ScreenOk(screen)
    ensures var d := Run(Start(predefined, output), UnevenOps(screen));
            Unsettled(d) && WeightsOf(Stack(d.workspaces[0].windows)) == UNEVEN && !Settled(UNEVEN)
  {
    var d := Start(predefined, output);
    NoneOpened(d, predefined, output);
    LineReached(d, 6);
    RunTugged(d, Adds(6), Op.Drag(screen, Drag.Weigh(STACKED, DRAGGED)));
    RunClosed(d, Adds(6) + [Op.Drag(screen, Drag.Weigh(STACKED, DRAGGED))]);
    UnsettledStack(Run(d, UnevenOps(screen)));
  }

  lemma RunTugged(d: Desk, ops: seq<Op>, op: Op)
    requires Inv(d) && SideBySide(Run(d, ops), 6)
    requires op.Drag? && Drag.ScreenOk(op.screen) && op.wish == Drag.Weigh(STACKED, DRAGGED)
    ensures Tugged(Run(d, ops + [op]))
  {
    RunStep(d, ops, op);
    SixTugged(Run(d, ops), op.screen);
  }

  lemma RunClosed(d: Desk, ops: seq<Op>)
    requires Inv(d) && Tugged(Run(d, ops))
    ensures Unsettled(Run(d, ops + [Remove(2)]))
  {
    RunStep(d, ops, Remove(2));
    SecondClosed(Run(d, ops));
  }

  lemma UnsettledStack(d: Desk)
    requires Unsettled(d)
    ensures WeightsOf(Stack(d.workspaces[0].windows)) == UNEVEN && !Settled(UNEVEN) && Bounded(UNEVEN)
  {
    RowStack(d.workspaces[0], KEPT.bones, KEPT.history, Eased(LEFT));
    UnevenIs();
  }

  // ------------------------------------------------------------------
  // What goes wrong from there

  const SCREEN := Drag.Screen(Rect(0, 0, 1920, 1080), Size(1920, 1080), map[],
                              Drag.Look(false, Appearance.Edges(0, 0, 0, 0), Appearance.View(false, false),
                                        Appearance.Edges(0, 0, 0, 0), 50))

  const CONTEXT := Drag.Context(0, SCREEN.usable, [1, 3, 4, 5, 6])

  // The scene that the session leaves.
  ghost predicate UnevenScene(s: Drag.Scene) {
    exists d :: Unsettled(d) && s == SceneOf(d, SCREEN)
  }

  lemma SceneReached(predefined: nat, output: Size)
    ensures UnevenScene(SceneOf(Run(Start(predefined, output), UnevenOps(SCREEN)), SCREEN))
  {
    UnevenReached(predefined, output, SCREEN);
  }

  lemma SceneFacts(s: Drag.Scene)
    requires UnevenScene(s)
    ensures Drag.SceneOk(s) && Drag.StackWeightsOf(s) == UNEVEN && Bounded(UNEVEN) && !Settled(UNEVEN)
    ensures Drag.TiledSlot(s, 3) && Drag.TiledSlot(s, 4) && Drag.MasterRatio(s) == 5000
    ensures Drag.SplitContext(s) == Some(CONTEXT) && Drag.StackIds(s) == CONTEXT.windows[1..]
    ensures s.workspaces[s.active].masterRatio.None? && s.screen == SCREEN && s.active == 0
  {
    var d :| Unsettled(d) && s == SceneOf(d, SCREEN);
    DeskFacts(d, s);
    RowContext(d.workspaces[0]);
    ContextIs(s, d.workspaces[0]);
  }

  lemma DeskFacts(d: Desk, s: Drag.Scene)
    requires Unsettled(d) && s == SceneOf(d, SCREEN)
    ensures Drag.SceneOk(s) && Drag.StackWeightsOf(s) == UNEVEN && Bounded(UNEVEN) && !Settled(UNEVEN)
    ensures Drag.TiledSlot(s, 3) && Drag.TiledSlot(s, 4) && s.workspaces[0] == d.workspaces[0]
  {
    UnsettledStack(d);
    SceneTiles(s, 3, 1);
    SceneTiles(s, 4, 2);
  }

  lemma SceneTiles(s: Drag.Scene, id: nat, k: nat)
    requires s.active == 0 < |s.workspaces| && Shows(s.workspaces[0], KEPT) && k < 5 && KEPT.bones[k].id == id
    ensures Drag.TiledSlot(s, id)
  {
    TilesAt(s.workspaces[0], id, k);
  }

  lemma ContextIs(s: Drag.Scene, w: Workspace)
    requires s.active == 0 < |s.workspaces| && s.workspaces[0] == w && s.screen == SCREEN && Exclusive(w).None?
    requires IdsOf(TilesOf(w.windows, w.windows)) == CONTEXT.windows
    ensures Drag.SplitContext(s) == Some(CONTEXT)
  {
    assert |CONTEXT.windows| == 5;
  }

  lemma RowContext(w: Workspace)
    requires Shows(w, KEPT) && Weighs(w, Eased(LEFT))
    ensures IdsOf(TilesOf(w.windows, w.windows)) == CONTEXT.windows && IdsOf(Stack(w.windows)) == CONTEXT.windows[1..]
    ensures Exclusive(w).None?
  {
    KeptRow();
    RowStack(w, KEPT.bones, KEPT.history, Eased(LEFT));
    KeptIds();
    PlainIds(w, KEPT);
  }

  lemma PlainIds(w: Workspace, view: View)
    requires Shows(w, view)
    ensures IdsOf(w.windows) == BoneIds(view.bones)
  {
  }

  lemma KeptIds()
    ensures BoneIds(KEPT.bones) == CONTEXT.windows
  {
  }

  lemma TilesAt(w: Workspace, id: nat, k: nat)
    requires Plain(w, KEPT.bones, KEPT.history) && k < 5 && KEPT.bones[k].id == id
    ensures Visible(w, id) && Find(w.windows, id) == Some(w.windows[k]) && w.windows[k].floating.None?
  {
    assert BoneIds(KEPT.bones)[k] == id;
    PlainVisible(w, KEPT.bones, KEPT.history, id);
    KeptRow();
    FindUnique(w.windows, w.windows[k]);
  }

  // Swapping two tiles there and back changes the scene.
  lemma SwapSticks(s: Drag.Scene)
    requires UnevenScene(s)
    ensures Drag.Swapped(Drag.Swapped(s, 3, 4), 3, 4) != s
  {
    SceneFacts(s);
    Drag.SwapIsOwnInverse(s, 3, 4);
  }

  function Grip(operation: Drag.Operation): Drag.Interaction {
    Drag.Interaction(operation, (0.0, 0.0), 0, SCREEN.usable, SCREEN.output, (0, 0), false)
  }

  function MasterGrip(): Drag.Interaction {
    Grip(Drag.DragMaster(CONTEXT, None, 0.0))
  }

  // Moving the master split to the left and back by cancelling changes it too.
  lemma MasterCancelSticks(s: Drag.Scene)
    requires UnevenScene(s)
    ensures Drag.Undisturbed(s, MasterGrip())
    ensures var r := Drag.Run(s, Some(MasterGrip()), AWAY);
            r.1.Some? && Drag.Finished(r.0, r.1.value, false) != s
  {
    SceneFacts(s);
    assert Ratios(MasterGrip().operation, AWAY)[0] == 1000 by { FirstRatio(); }
    CancelSticks(s, MasterGrip(), AWAY);
  }

  lemma FirstRatio()
    ensures Ratios(MasterGrip().operation, AWAY)[0] == 1000
  {
  }

  lemma CancelSticks(s: Drag.Scene, d: Drag.Interaction, moves: seq<(Drag.Point, Option<nat>)>)
    requires Begun(s, d) && d.operation.DragMaster? && moves != [] && !Settled(Drag.StackWeightsOf(s))
    requires Ratios(d.operation, moves)[0] != Drag.MasterRatio(s)
    ensures var r := Drag.Run(s, Some(d), moves);
            r.1.Some? && Drag.Finished(r.0, r.1.value, false) != s
  {
    MasterCancelUndoes(s, d, moves);
  }

  const AWAY: seq<(Drag.Point, Option<nat>)> := [((0.0, 0.0), None)]

  // So does moving it to the left and to the middle again, where it was.
  lemma MasterReturnSticks(s: Drag.Scene)
    requires UnevenScene(s)
    ensures Drag.Undisturbed(s, MasterGrip())
    ensures Drag.Run(s, Some(MasterGrip()), AWAY_AND_BACK).0 != Drag.MovedScene(s, MasterGrip(), (960.0, 0.0))
  {
    SceneFacts(s);
    RatiosAre();
    ReturnSticks(s, MasterGrip(), AWAY_AND_BACK);
  }

  lemma ReturnSticks(s: Drag.Scene, d: Drag.Interaction, moves: seq<(Drag.Point, Option<nat>)>)
    requires Drag.SceneOk(s) && Drag.OperationOk(d.operation) && Drag.Undisturbed(s, d) && d.operation.DragMaster?
    requires moves != [] && Bounded(Drag.StackWeightsOf(s)) && !Settled(Drag.StackWeightsOf(s))
    requires var ratios := Ratios(d.operation, moves);
             ratios[|ratios| - 1] == Drag.MasterRatio(s) && Changes(Drag.MasterRatio(s), ratios) > 0
    ensures Drag.Run(s, Some(d), moves).0 != Drag.MovedScene(s, d, moves[|moves| - 1].0)
  {
    MasterLastDecides(s, d, moves);
    assert Iterated(Drag.StackWeightsOf(s), 0) == Drag.StackWeightsOf(s);
  }

  lemma RatiosAre()
    ensures Changes(5000, Ratios(MasterGrip().operation, AWAY_AND_BACK)) == 2
    ensures Ratios(MasterGrip().operation, AWAY_AND_BACK)[1] == 5000
  {
    AwayAndBack(Ratios(MasterGrip().operation, AWAY_AND_BACK));
  }

  const AWAY_AND_BACK: seq<(Drag.Point, Option<nat>)> := [((0.0, 0.0), None), ((960.0, 0.0), None)]

  lemma AwayAndBack(ratios: seq<nat>)
    requires |ratios| == 2 && ratios[0] == 1000 && ratios[1] == 5000
    ensures Changes(5000, ratios) == 2
  {
    assert ratios[..1] == [1000] && ratios[..1][..0] == [];
    assert Changes(5000, ratios[..1]) == 1;
  }

  // On the first divider, between slots of 391 and 229 pixels.
  function DividerGrip(): Drag.Interaction {
    Grip(Drag.DragStack(CONTEXT, CONTEXT.windows[1..], UNEVEN, 0, 391, 229))
  }

  // Cancelling a divider drag that never moved changes it as well.
  lemma DividerCancelSticks(s: Drag.Scene)
    requires UnevenScene(s)
    ensures var d := DividerGrip();
            Drag.OperationOk(d.operation) && Drag.Fresh(s, d) && Drag.Finished(s, d, false) != s
  {
    SceneFacts(s);
    Drag.CancelUndoes(s, DividerGrip(), []);
  }
}
