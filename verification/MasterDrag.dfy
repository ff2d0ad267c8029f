// Master drags from any stack weights: every change of the effective ratio
// maps the workspace, and every mapping renormalizes the stack once more.
module MasterDrag {
  import opened Common
  import opened Model
  import opened Tiling
  import opened Settling
  import opened Visibility
  import opened Drag

  // The scene with another override and its stack renormalized k times.
  ghost function Divided(s: Scene, ratio: Option<nat>, k: nat): Scene
    requires s.active < |s.workspaces|
  {
    var w := s.workspaces[s.active];
    ActiveWith(s, w.(masterRatio := ratio, windows := Reweigh(w.windows, StackIds(s), Iterated(StackWeightsOf(s), k))))
  }

  ghost function EffectiveRatio(s: Scene, ratio: Option<nat>): nat {
    if ratio.Some? then ratio.value else s.screen.look.masterPercent * 100
  }

  ghost function Legal(ratio: Option<nat>): Option<nat> {
    if ratio.Some? then Some(Clamp(ratio.value, 1000, 9000)) else None
  }

  lemma DividedShape(s: Scene, ratio: Option<nat>, k: nat)
    requires SceneOk(s)
    ensures var t := Divided(s, ratio, k);
            && SceneOk(t) && t.active == s.active && t.screen == s.screen && SplitContext(t) == SplitContext(s)
            && StackIds(t) == StackIds(s) && StackWeightsOf(t) == Iterated(StackWeightsOf(s), k)
            && MasterRatio(t) == EffectiveRatio(s, ratio)
  {
    var w := s.workspaces[s.active];
    var weights := Iterated(StackWeightsOf(s), k);
    ReweighedStack(w.windows, weights);
    ContextStable(s, w.(masterRatio := ratio, windows := Reweigh(w.windows, StackIds(s), weights)));
  }

  lemma DividedAlready(s: Scene)
    requires SceneOk(s)
    ensures Divided(s, s.workspaces[s.active].masterRatio, 0) == s
  {
    ReweighSame(s.workspaces[s.active].windows);
    assert s.workspaces[s.active := s.workspaces[s.active]] == s.workspaces;
  }

  // Applying a ratio renormalizes once if it changes the effective one.
  lemma WithRatioDivides(s: Scene, before: Option<nat>, k: nat, ratio: Option<nat>)
    requires SceneOk(s)
    ensures WithRatio(Divided(s, before, k), ratio)
         == Divided(s, Legal(ratio), if EffectiveRatio(s, Legal(ratio)) != EffectiveRatio(s, before) then k + 1 else k)
  {
    var t, next := Divided(s, before, k), Divided(s, Legal(ratio), k);
    DividedShape(s, before, k);
    DividedShape(s, Legal(ratio), k);
    var w, v := s.workspaces[s.active], t.workspaces[s.active];
    assert ActiveWith(t, v.(masterRatio := Legal(ratio))).workspaces == next.workspaces;
    ReweighTwice(w.windows, StackIds(s), Iterated(StackWeightsOf(s), k), Iterated(StackWeightsOf(s), k + 1));
    assert Mapped(next).workspaces == Divided(s, Legal(ratio), k + 1).workspaces;
  }

  // The ratios a master drag asks for, in order.
  ghost function Ratios(op: Operation, moves: seq<(Point, Option<nat>)>): (r: seq<nat>)
    requires op.DragMaster? && OperationOk(op)
    ensures |r| == |moves|
    ensures forall i :: 0 <= i < |r| ==> r[i] == RatioAt(op.context, op.offset, moves[i].0.0)
  {
    seq(|moves|, i requires 0 <= i < |moves| => RatioAt(op.context, op.offset, moves[i].0.0))
  }

  // How often the effective ratio changes along the way.
  ghost function Changes(start: nat, ratios: seq<nat>): nat {
    if ratios == [] then 0
    else
      var front := ratios[..|ratios| - 1];
      Changes(start, front) + if ratios[|ratios| - 1] != (if front == [] then start else front[|front| - 1]) then 1
          else 0
  }

  lemma MasterStep(s: Scene, e: Interaction, before: Option<nat>, k: nat, at: Point, over: Option<nat>)
    requires SceneOk(s) && OperationOk(e.operation) && e.operation.DragMaster? && Undisturbed(Divided(s, before, k), e)
    ensures var ratio := RatioAt(e.operation.context, e.operation.offset, at.0);
            var t := Divided(s, Some(ratio), if ratio != EffectiveRatio(s, before) then k + 1 else k);
            && SceneOk(Divided(s, before, k)) && MovedScene(Divided(s, before, k), e, at) == t
            && SceneOk(t) && Undisturbed(t, MovedInteraction(Divided(s, before, k), e, at, over))
  {
    var ratio := RatioAt(e.operation.context, e.operation.offset, at.0);
    var more := if ratio != EffectiveRatio(s, before) then k + 1 else k;
    DividedShape(s, before, k);
    WithRatioDivides(s, before, k, Some(ratio));
    DividedShape(s, Some(ratio), more);
  }

  ghost function LastOverride(s: Scene, ratios: seq<nat>): Option<nat>
    requires s.active < |s.workspaces|
  {
    if ratios == [] then s.workspaces[s.active].masterRatio else Some(ratios[|ratios| - 1])
  }

  lemma LastEffective(s: Scene, ratios: seq<nat>)
    requires s.active < |s.workspaces|
    ensures EffectiveRatio(s, LastOverride(s, ratios)) == if ratios == [] then MasterRatio(s) else ratios[|ratios| - 1]
  {
  }

  // Where a master drag stands after asking for the given ratios.
  ghost predicate DragsAt(s: Scene, d: Interaction, ratios: seq<nat>, r: (Scene, Option<Interaction>))
    requires s.active < |s.workspaces|
  {
    && r.1.Some? && r.1.value.operation == d.operation && r.1.value.workspace == d.workspace
    && r.0 == Divided(s, LastOverride(s, ratios), Changes(MasterRatio(s), ratios))
    && SceneOk(r.0) && Undisturbed(r.0, r.1.value)
  }

  lemma DragsOn(s: Scene, d: Interaction, ratios: seq<nat>, r: (Scene, Option<Interaction>), at: Point,
                over: Option<nat>)
    requires SceneOk(s) && OperationOk(d.operation) && d.operation.DragMaster? && DragsAt(s, d, ratios, r)
    ensures DragsAt(s, d, ratios + [RatioAt(d.operation.context, d.operation.offset, at.0)], Step(r.0, r.1, at, over))
  {
    var asked := RatioAt(d.operation.context, d.operation.offset, at.0);
    var k, more := Changes(MasterRatio(s), ratios), Changes(MasterRatio(s), ratios + [asked]);
    assert more == if asked != EffectiveRatio(s, LastOverride(s, ratios)) then k + 1 else k by {
      LastEffective(s, ratios);
      assert (ratios + [asked])[..|ratios|] == ratios;
    }
    assert LastOverride(s, ratios + [asked]) == Some(asked);
    MasterStep(s, r.1.value, LastOverride(s, ratios), k, at, over);
  }

  // The whole drag: the last ratio, and one renormalization for every change.
  lemma {:induction false} MasterRun(s: Scene, d: Interaction, moves: seq<(Point, Option<nat>)>)
    requires SceneOk(s) && OperationOk(d.operation) && Undisturbed(s, d) && d.operation.DragMaster?
    ensures DragsAt(s, d, Ratios(d.operation, moves), Run(s, Some(d), moves))
  {
    if moves == [] {
      DividedAlready(s);
    } else {
      var front := moves[..|moves| - 1];
      var (at, over) := moves[|moves| - 1];
      MasterRun(s, d, front);
      DragsOn(s, d, Ratios(d.operation, front), Run(s, Some(d), front), at, over);
      assert Ratios(d.operation, moves)
          == Ratios(d.operation, front) + [RatioAt(d.operation.context, d.operation.offset, at.0)];
    }
  }

  lemma DividedSame(s: Scene, ratio: Option<nat>, j: nat, k: nat)
    requires SceneOk(s)
    ensures Divided(s, ratio, j) == Divided(s, ratio, k)
            <==> Iterated(StackWeightsOf(s), j) == Iterated(StackWeightsOf(s), k)
  {
    DividedShape(s, ratio, j);
    DividedShape(s, ratio, k);
  }

  lemma {:induction false} Unchanging(start: nat, ratios: seq<nat>)
    ensures Changes(start, ratios) == 0 <==> forall i :: 0 <= i < |ratios| ==> ratios[i] == start
  {
    if ratios != [] {
      var front := ratios[..|ratios| - 1];
      Unchanging(start, front);
      assert forall i :: 0 <= i < |front| ==> front[i] == ratios[i];
    }
  }

  // Cancelling a master drag restores the whole scene exactly when the override
  // was legal and the weights were at a fixed point, or no motion ever asked
  // for another effective ratio.
  lemma MasterCancelUndoes(s: Scene, d: Interaction, moves: seq<(Point, Option<nat>)>)
    requires SceneOk(s) && OperationOk(d.operation) && Undisturbed(s, d) && d.operation.DragMaster?
    requires d.operation.initial == s.workspaces[s.active].masterRatio && Bounded(StackWeightsOf(s))
    ensures var r, ratios := Run(s, Some(d), moves), Ratios(d.operation, moves);
            && r.1.Some?
            && (Finished(r.0, r.1.value, false) == s
                <==> Legal(d.operation.initial) == d.operation.initial
                     && (Settled(StackWeightsOf(s)) || forall i :: 0 <= i < |ratios| ==> ratios[i] == MasterRatio(s)))
  {
    var initial, ratios := d.operation.initial, Ratios(d.operation, moves);
    var r := Run(s, Some(d), moves);
    MasterRun(s, d, moves);
    var last := LastOverride(s, ratios);
    var changes := Changes(MasterRatio(s), ratios);
    LastEffective(s, ratios);
    WithRatioDivides(s, last, changes, initial);
    var total := if EffectiveRatio(s, Legal(initial)) != EffectiveRatio(s, last) then changes + 1 else changes;
    Unchanging(MasterRatio(s), ratios);
    DividedAlready(s);
    if Legal(initial) == initial {
      DividedSame(s, initial, total, 0);
      if total > 0 {
        IteratedReturns(StackWeightsOf(s), total);
      }
    } else {
      assert Divided(s, Legal(initial), total).workspaces[s.active].masterRatio != initial;
    }
  }

  // What a master drag leaves depends on its last motion alone exactly when the
  // motions before it changed the effective ratio no further time, or the
  // weights that the last motion alone would leave are at a fixed point.
  lemma MasterLastDecides(s: Scene, d: Interaction, moves: seq<(Point, Option<nat>)>)
    requires SceneOk(s) && OperationOk(d.operation) && Undisturbed(s, d) && d.operation.DragMaster?
    requires moves != [] && Bounded(StackWeightsOf(s))
    ensures var ratios := Ratios(d.operation, moves);
            var alone := if ratios[|ratios| - 1] != MasterRatio(s) then 1 else 0;
            Run(s, Some(d), moves).0 == MovedScene(s, d, moves[|moves| - 1].0)
            <==> Changes(MasterRatio(s), ratios) == alone || Settled(Iterated(StackWeightsOf(s), alone))
  {
    var ratios, at := Ratios(d.operation, moves), moves[|moves| - 1].0;
    assert Run(s, Some(d), moves).0 == Together(s, ratios) by { MasterLeaves(s, d, moves); }
    assert MovedScene(s, d, at) == Alone(s, ratios[|ratios| - 1]) by { MovedAlone(s, d, at); }
    LastDecides(s, ratios);
  }

  // What a run of asked ratios leaves, and what its last one leaves alone.
  ghost function Together(s: Scene, ratios: seq<nat>): Scene
    requires s.active < |s.workspaces| && ratios != []
  {
    Divided(s, Some(ratios[|ratios| - 1]), Changes(MasterRatio(s), ratios))
  }

  ghost function Alone(s: Scene, ratio: nat): Scene
    requires s.active < |s.workspaces|
  {
    Divided(s, Some(ratio), if ratio != MasterRatio(s) then 1 else 0)
  }

  lemma LastDecides(s: Scene, ratios: seq<nat>)
    requires SceneOk(s) && ratios != [] && Bounded(StackWeightsOf(s))
    ensures var last := ratios[|ratios| - 1];
            var alone := if last != MasterRatio(s) then 1 else 0;
            Together(s, ratios) == Alone(s, last)
            <==> Changes(MasterRatio(s), ratios) == alone || Settled(Iterated(StackWeightsOf(s), alone))
  {
    var last := ratios[|ratios| - 1];
    ChangesAtLeast(MasterRatio(s), ratios);
    DividedDecides(s, Some(last), if last != MasterRatio(s) then 1 else 0, Changes(MasterRatio(s), ratios));
  }

  lemma ChangesAtLeast(start: nat, ratios: seq<nat>)
    requires ratios != []
    ensures Changes(start, ratios) >= if ratios[|ratios| - 1] != start then 1 else 0
  {
    Unchanging(start, ratios);
  }

  lemma DividedDecides(s: Scene, ratio: Option<nat>, a: nat, b: nat)
    requires SceneOk(s) && Bounded(StackWeightsOf(s)) && a <= b
    ensures Divided(s, ratio, b) == Divided(s, ratio, a) <==> b == a || Settled(Iterated(StackWeightsOf(s), a))
  {
    DividedSame(s, ratio, b, a);
    SettlesEarly(StackWeightsOf(s), a, b);
  }

  lemma MasterLeaves(s: Scene, d: Interaction, moves: seq<(Point, Option<nat>)>)
    requires SceneOk(s) && OperationOk(d.operation) && Undisturbed(s, d) && d.operation.DragMaster? && moves != []
    ensures Run(s, Some(d), moves).0 == Together(s, Ratios(d.operation, moves))
  {
    MasterRun(s, d, moves);
  }

  lemma MovedAlone(s: Scene, d: Interaction, at: Point)
    requires SceneOk(s) && OperationOk(d.operation) && Undisturbed(s, d) && d.operation.DragMaster?
    ensures MovedScene(s, d, at) == Alone(s, RatioAt(d.operation.context, d.operation.offset, at.0))
  {
    DividedAlready(s);
    MasterStep(s, d, s.workspaces[s.active].masterRatio, 0, at, None);
  }

  lemma SettlesEarly(weights: seq<nat>, a: nat, b: nat)
    requires Bounded(weights) && a <= b
    ensures Iterated(weights, b) == Iterated(weights, a) <==> b == a || Settled(Iterated(weights, a))
  {
    if b != a {
      IteratedAdds(weights, a, b - a);
      if a > 0 {
        IteratedSide(weights, a - 1);
      }
      IteratedReturns(Iterated(weights, a), b - a);
    }
  }

  // ------------------------------------------------------------------
  // Drags of every kind, from any weights

  ghost predicate Begun(s: Scene, d: Interaction) {
    && SceneOk(s) && OperationOk(d.operation) && Undisturbed(s, d)
    && match d.operation
       case DragFloating(id, geometry, _) => FloatingGeometry(s, id) == Some(geometry)
       case DragTile(_, _) => true
       case DragMaster(_, initial, _) => initial == s.workspaces[s.active].masterRatio && Bounded(StackWeightsOf(s))
       case DragStack(_, _, weights, _, _, _) => weights == StackWeightsOf(s) && WEIGHT_UNIT * |weights| <= U32_MAX
  }

  // What it takes for cancelling to restore the scene after the given motions.
  ghost predicate Undoable(s: Scene, d: Interaction, moves: seq<(Point, Option<nat>)>)
    requires Begun(s, d)
  {
    && Restorable(s, d)
    && (d.operation.DragMaster? ==>
          Settled(StackWeightsOf(s)) || forall ratio :: ratio in Ratios(d.operation, moves) ==> ratio == MasterRatio(s))
  }

  lemma EveryCancelUndoes(s: Scene, d: Interaction, moves: seq<(Point, Option<nat>)>)
    requires Begun(s, d)
    ensures var r := Run(s, Some(d), moves);
            r.1.Some? && (Finished(r.0, r.1.value, false) == s <==> Undoable(s, d, moves))
  {
    if d.operation.DragMaster? {
      MasterUndoable(s, d, moves);
      MasterCancelUndoes(s, d, moves);
    } else {
      assert Undoable(s, d, moves) == Restorable(s, d);
      CancelUndoes(s, d, moves);
    }
  }

  lemma MasterUndoable(s: Scene, d: Interaction, moves: seq<(Point, Option<nat>)>)
    requires Begun(s, d) && d.operation.DragMaster?
    ensures var initial, ratios := d.operation.initial, Ratios(d.operation, moves);
            Undoable(s, d, moves)
            <==> Legal(initial) == initial
                 && (Settled(StackWeightsOf(s)) || forall i :: 0 <= i < |ratios| ==> ratios[i] == MasterRatio(s))
  {
    var ratios := Ratios(d.operation, moves);
    assert (forall i :: 0 <= i < |ratios| ==> ratios[i] == MasterRatio(s)) <==>
           (forall ratio :: ratio in ratios ==> ratio == MasterRatio(s)) by {
      if forall ratio :: ratio in ratios ==> ratio == MasterRatio(s) {
        forall i | 0 <= i < |ratios| ensures ratios[i] == MasterRatio(s) {
          assert ratios[i] in ratios;
        }
      }
    }
  }

  // The last motion decides: always for other drags, and for a master drag
  // exactly when no other motion renormalized weights that could still change.
  lemma EveryLastDecides(s: Scene, d: Interaction, moves: seq<(Point, Option<nat>)>)
    requires Begun(s, d) && moves != []
    ensures var sticky := d.(moved := EverMoved(d, moves[..|moves| - 1]));
            Run(s, Some(d), moves).0 == MovedScene(s, sticky, moves[|moves| - 1].0)
            <==> (d.operation.DragMaster? ==> Overtaken(s, Ratios(d.operation, moves)))
  {
    if d.operation.DragMaster? {
      MasterLastDecides(s, d, moves);
    } else {
      LastMotionDecides(s, d, moves);
    }
  }

  ghost predicate Overtaken(s: Scene, ratios: seq<nat>)
    requires s.active < |s.workspaces| && ratios != []
  {
    var alone := if ratios[|ratios| - 1] != MasterRatio(s) then 1 else 0;
    Changes(MasterRatio(s), ratios) == alone || Settled(Iterated(StackWeightsOf(s), alone))
  }
}
