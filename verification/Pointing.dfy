// Where a pointer motion takes what it drags.
module Pointing {
  import opened Common
  import opened Model
  import opened Tiling
  import opened Appearance
  import opened Geometry
  import opened Visibility
  import opened Drag
  import Desk

  // ------------------------------------------------------------------
  // From pointer positions to pixels

  // The nearest integer, halves away from zero, within 32 bits.
  ghost predicate RoundsTo(v: real, n: int) {
    if v >= 0x7FFF_FFFF as real then n == 0x7FFF_FFFF
    else if v <= -0x8000_0000 as real then n == -0x8000_0000
    else if v >= 0.0 then n as real - 0.5 <= v < n as real + 0.5
    else n as real - 0.5 < v <= n as real + 0.5
  }

  lemma RoundedIs(v: real)
    ensures RoundsTo(v, Rounded(v))
  {
  }

  // A drag is under way from five pixels on, in either direction, and stays one.
  ghost predicate Dragging(d: Interaction, dx: int, dy: int) {
    d.moved || dx >= 5 || dx <= -5 || dy >= 5 || dy <= -5
  }

  lemma DeltaIs(d: Interaction, at: Point, dx: int, dy: int)
    requires RoundsTo(at.0 - d.start.0, dx) && RoundsTo(at.1 - d.start.1, dy)
    ensures DeltaOf(d.start, at) == (dx, dy) && (MovedBy(d.start, d.moved, at) <==> Dragging(d, dx, dy))
  {
    RoundedOnce(at.0 - d.start.0, dx);
    RoundedOnce(at.1 - d.start.1, dy);
  }

  lemma RoundedOnce(v: real, n: int)
    requires RoundsTo(v, n)
    ensures Rounded(v) == n
  {
  }

  // ------------------------------------------------------------------
  // Floating windows

  ghost predicate DragsFloating(s: Scene, d: Interaction) {
    && SceneOk(s) && OperationOk(d.operation) && Undisturbed(s, d) && d.operation.DragFloating?
    && !s.screen.look.floating.gaps && !s.screen.look.floating.borders
  }

  // The shown rectangle respects the window's hints on this output.
  ghost predicate Fitting(s: Scene, id: nat, r: Rect) {
    var hints := HintsOf(s.screen, id);
    && SizeFits(r.w, hints.0.w, hints.1.w, s.screen.output.w) && SizeFits(r.h, hints.0.h, hints.1.h, s.screen.output.h)
  }

  // A window that is moved follows the pointer: its rectangle is the one it had,
  // shifted as far as the pointer went, and kept on the output. Less than five
  // pixels move nothing.
  lemma MoveFollowsPointer(s: Scene, d: Interaction, at: Point, dx: int, dy: int)
    requires DragsFloating(s, d) && d.operation.edges.None?
    requires RoundsTo(at.0 - d.start.0, dx) && RoundsTo(at.1 - d.start.1, dy)
    ensures var id, start, t := d.operation.window, d.operation.geometry, MovedScene(s, d, at);
            if !Dragging(d, dx, dy) then t == s
            else FloatingGeometry(t, id).Some? && Follows(s, id, start, dx, dy, FloatingGeometry(t, id).value)
  {
    DeltaIs(d, at, dx, dy);
    MovedShown(s, d, at, dx, dy);
    if Dragging(d, dx, dy) {
      var id, start := d.operation.window, d.operation.geometry;
      ShownWhereSet(s, id, start.(x := start.x + dx, y := start.y + dy));
      ShiftedFollows(s, id, start, dx, dy);
    }
  }

  lemma MovedShown(s: Scene, d: Interaction, at: Point, dx: int, dy: int)
    requires DragsFloating(s, d) && d.operation.edges.None? && DeltaOf(d.start, at) == (dx, dy)
    ensures var id, start := d.operation.window, d.operation.geometry;
            MovedScene(s, d, at)
            == if MovedBy(d.start, d.moved, at) then SetFloating(s, id, start.(x := start.x + dx, y := start.y + dy))
               else s
  {
  }

  // r is start shifted, and kept on the output.
  ghost predicate Follows(s: Scene, id: nat, start: Rect, dx: int, dy: int, r: Rect) {
    && (Fitting(s, id, start) ==> r.w == start.w && r.h == start.h)
    && PlacedNear(r.x, start.x + dx, r.w, s.screen.output.w)
    && PlacedNear(r.y, start.y + dy, r.h, s.screen.output.h)
  }

  lemma ShiftedFollows(s: Scene, id: nat, start: Rect, dx: int, dy: int)
    ensures var hints := HintsOf(s.screen, id);
            Follows(s, id, start, dx, dy,
                    Constrain(start.(x := start.x + dx, y := start.y + dy), s.screen.output, hints.0, hints.1))
  {
    var hints := HintsOf(s.screen, id);
    ConstrainMovesLeast(start.(x := start.x + dx, y := start.y + dy), s.screen.output, hints.0, hints.1,
                        start.w, start.h);
  }

  // In particular wherever the shifted rectangle fits it is taken as it is.
  lemma MoveWithRoom(s: Scene, d: Interaction, at: Point, dx: int, dy: int)
    requires DragsFloating(s, d) && d.operation.edges.None? && Dragging(d, dx, dy)
    requires RoundsTo(at.0 - d.start.0, dx) && RoundsTo(at.1 - d.start.1, dy)
    requires var start := d.operation.geometry;
             && Fitting(s, d.operation.window, start)
             && 0 <= start.x + dx && start.x + dx + start.w <= s.screen.output.w
             && 0 <= start.y + dy && start.y + dy + start.h <= s.screen.output.h
    ensures var start := d.operation.geometry;
            FloatingGeometry(MovedScene(s, d, at), d.operation.window)
            == Some(Rect(start.x + dx, start.y + dy, start.w, start.h))
  {
    MoveFollowsPointer(s, d, at, dx, dy);
  }

  // Without gaps and borders a window is shown where its rectangle, constrained, lies.
  lemma ShownWhereSet(s: Scene, id: nat, rect: Rect)
    requires SceneOk(s) && FloatingGeometry(s, id).Some?
    requires !s.screen.look.floating.gaps && !s.screen.look.floating.borders
    ensures var hints := HintsOf(s.screen, id);
            FloatingGeometry(SetFloating(s, id, rect), id)
            == Some(Constrain(rect, s.screen.output, hints.0, hints.1))
  {
    SetFloatingTwice(s, id, rect, rect);
  }

  ghost predicate InRange(s: Scene, d: Interaction)
    requires d.operation.DragFloating?
  {
    var start, hints, output := d.operation.geometry, HintsOf(s.screen, d.operation.window), s.screen.output;
    && InI32(start.x) && InI32(start.y) && InI32(start.w) && InI32(start.h) && InI32(output.w) && InI32(output.h)
    && InI32(hints.0.w) && InI32(hints.0.h) && InI32(hints.1.w) && InI32(hints.1.h)
  }

  // A resize takes, of all rectangles within the hints that keep the far edges,
  // the one whose size is nearest to the start plus the pointer's way.
  lemma ResizeTakesNearest(s: Scene, d: Interaction, at: Point, dx: int, dy: int, other: Rect)
    requires DragsFloating(s, d) && d.operation.edges.Some? && InRange(s, d) && Dragging(d, dx, dy)
    requires WithinHints(s.screen, d.operation.window, d.operation.geometry)
    requires RoundsTo(at.0 - d.start.0, dx) && RoundsTo(at.1 - d.start.1, dy)
    ensures var id, start, edges := d.operation.window, d.operation.geometry, d.operation.edges.value;
            && FloatingGeometry(MovedScene(s, d, at), id).Some?
            && var r := FloatingGeometry(MovedScene(s, d, at), id).value;
               && WithinHints(s.screen, id, r) && SharesFarEdges(r, start, edges)
               && (WithinHints(s.screen, id, other) && SharesFarEdges(other, start, edges) ==>
                     NoFarther(r, other, start, dx, dy, edges))
  {
    DeltaIs(d, at, dx, dy);
    var id, start, edges := d.operation.window, d.operation.geometry, d.operation.edges.value;
    var hints, output := HintsOf(s.screen, id), s.screen.output;
    var r := Resize(start, dx, dy, edges, output, hints.0, hints.1);
    ResizeKeepsConstraints(start, dx, dy, edges, output, hints.0, hints.1);
    StoredGeometry(s, id, r);
    ResizedShown(s, d, at, dx, dy, r);
    if WithinHints(s.screen, id, other) && SharesFarEdges(other, start, edges) {
      ResizeNearest(start, dx, dy, edges, output, hints.0, hints.1, other);
    }
  }

  lemma ResizedShown(s: Scene, d: Interaction, at: Point, dx: int, dy: int, r: Rect)
    requires DragsFloating(s, d) && d.operation.edges.Some?
    requires DeltaOf(d.start, at) == (dx, dy) && MovedBy(d.start, d.moved, at)
    requires var hints := HintsOf(s.screen, d.operation.window);
             r == Resize(d.operation.geometry, dx, dy, d.operation.edges.value, s.screen.output, hints.0, hints.1)
    ensures MovedScene(s, d, at) == SetFloating(s, d.operation.window, r)
  {
  }

  // ------------------------------------------------------------------
  // Dividers

  ghost function SlotHeight(height: int, weights: seq<nat>, k: nat): int
    requires k < |weights|
  {
    Cut(height, weights, k + 1) - Cut(height, weights, k)
  }

  // The height that the upper of two slots is to have: its height at the start
  // and the pointer's way, with 64 pixels or half of both kept for either slot.
  ghost predicate Wanted(upper: int, lower: int, dy: int, h: int) {
    var least := if upper + lower >= 128 then 64 else if upper + lower >= 2 then (upper + lower) / 2 else 1;
    if upper + dy < least then h == least
    else if upper + dy > upper + lower - least then h == upper + lower - least
    else h == upper + dy
  }

  // A divider drag of a stack on target.
  ghost predicate DragsDivider(s: Scene, d: Interaction) {
    && SceneOk(s) && OperationOk(d.operation) && Undisturbed(s, d) && d.operation.DragStack?
    && d.operation.weights == StackWeightsOf(s) && OnTarget(d.operation.weights)
    && var op, height := d.operation, d.operation.context.area.h;
       && height <= Total(op.weights)
       && op.upper == SlotHeight(height, op.weights, op.pair) && op.lower == SlotHeight(height, op.weights, op.pair + 1)
  }

  // The upper slot is about as high as wanted, and cut i is where it was.
  ghost predicate Landed(height: nat, was: seq<nat>, pair: nat, wanted: int, i: nat, now: seq<nat>)
    requires pair < |was| && i <= |was|
  {
    && |now| == |was| && wanted - 2 <= SlotHeight(height, now, pair) <= wanted + 1
    && Cut(height, now, i) == Cut(height, was, i)
  }

  // The upper slot of a dragged divider follows the pointer to within two pixels,
  // and no other divider moves.
  lemma DividerFollowsPointer(s: Scene, d: Interaction, at: Point, dy: int, wanted: int, i: nat)
    requires DragsDivider(s, d) && RoundsTo(at.1 - d.start.1, dy)
    requires Wanted(d.operation.upper, d.operation.lower, dy, wanted)
    requires i <= |d.operation.weights| && i != d.operation.pair + 1
    ensures var op := d.operation;
            op.context.area.h >= 1
            && Landed(op.context.area.h, op.weights, op.pair, wanted, i, StackWeightsOf(MovedScene(s, d, at)))
  {
    RoundedOnce(at.1 - d.start.1, dy);
    DividerStep(s, d, at, dy, MovedScene(s, d, at));
    DividerDragged(s, d.operation, dy, wanted, i, MovedScene(s, d, at));
  }

  lemma DividerDragged(s: Scene, op: Operation, dy: int, wanted: int, i: nat, t: Scene)
    requires op.DragStack? && DividerMoved(s, op, dy, t) && Wanted(op.upper, op.lower, dy, wanted)
    requires i <= |op.weights| && i != op.pair + 1
    ensures Landed(op.context.area.h, op.weights, op.pair, wanted, i, StackWeightsOf(t))
  {
    DividerLands(s, op.ids, op.weights, op.pair, op.upper, op.lower, dy, op.context.area.h, wanted, i, t);
  }

  // t is s with the weights that a divider drag asks for.
  ghost predicate DividerMoved(s: Scene, op: Operation, dy: int, t: Scene)
    requires op.DragStack?
  {
    && SceneOk(s) && op.ids == StackIds(s) && op.weights == StackWeightsOf(s)
    && op.pair + 1 < |op.weights| && op.upper + op.lower >= 2
    && Positive(op.weights) && OnTarget(op.weights) && 1 <= op.context.area.h <= Total(op.weights)
    && op.upper == SlotHeight(op.context.area.h, op.weights, op.pair)
    && op.lower == SlotHeight(op.context.area.h, op.weights, op.pair + 1)
    && op.weights[op.pair] + op.weights[op.pair + 1] >= 2 && t.active < |t.workspaces|
    && t == Granted(s, Weigh(op.ids, DraggedWeights(op.weights, op.pair, op.upper, op.lower, dy)))
  }

  lemma DividerStep(s: Scene, d: Interaction, at: Point, dy: int, t: Scene)
    requires DragsDivider(s, d) && Rounded(at.1 - d.start.1) == dy && t == MovedScene(s, d, at)
    ensures DividerMoved(s, d.operation, dy, t)
  {
    StackOfContext(s, d.operation.context);
    DividerWish(s.screen, d, at, dy);
  }

  lemma DividerLands(s: Scene, ids: seq<nat>, weights: seq<nat>, pair: nat, upper: int, lower: int, dy: int,
                     height: nat, wanted: int, i: nat, t: Scene)
    requires SceneOk(s) && ids == StackIds(s) && weights == StackWeightsOf(s)
    requires pair + 1 < |weights| && upper + lower >= 2 && Wanted(upper, lower, dy, wanted)
    requires Positive(weights) && OnTarget(weights) && height <= Total(weights)
    requires upper == SlotHeight(height, weights, pair) && lower == SlotHeight(height, weights, pair + 1)
    requires t.active < |t.workspaces| && t == Granted(s, Weigh(ids, DraggedWeights(weights, pair, upper, lower, dy)))
    requires i <= |weights| && i != pair + 1
    ensures Landed(height, weights, pair, wanted, i, StackWeightsOf(t))
  {
    DividerDragMovesOneCut(s, pair, upper, lower, dy, height, i);
    WeightsLand(height, weights, pair, upper, lower, dy, wanted);
  }

  lemma WeightsLand(height: nat, weights: seq<nat>, pair: nat, upper: int, lower: int, dy: int, wanted: int)
    requires pair + 1 < |weights| && Positive(weights) && height <= Total(weights) && upper + lower >= 2
    requires upper == SlotHeight(height, weights, pair) && lower == SlotHeight(height, weights, pair + 1)
    requires Wanted(upper, lower, dy, wanted)
    ensures wanted - 2 <= SlotHeight(height, DraggedWeights(weights, pair, upper, lower, dy), pair) <= wanted + 1
  {
    WantedIs(upper, lower, dy, wanted);
    DividerLandsNearRequest(height, weights, pair, dy);
  }

  lemma WantedIs(upper: int, lower: int, dy: int, wanted: int)
    requires upper + lower >= 2 && Wanted(upper, lower, dy, wanted)
    ensures wanted == RequestedHeight(upper, lower, dy)
  {
  }

  lemma DividerWish(screen: Screen, d: Interaction, at: Point, dy: int)
    requires ScreenOk(screen) && OperationOk(d.operation) && d.operation.DragStack? && Rounded(at.1 - d.start.1) == dy
    ensures var op := d.operation;
            && op.weights[op.pair] + op.weights[op.pair + 1] >= 2
            && Wished(screen, d, at) == Weigh(op.ids, DraggedWeights(op.weights, op.pair, op.upper, op.lower, dy))
  {
  }

  // The master divider moves with the pointer from where a drag took hold of it,
  // between a tenth and nine tenths of the width, up to rounding.
  lemma MasterMovesWithPointer(context: Context, offset: real, from: real, divider: int, x: real)
    requires context.area.w >= 10 && context.area.x as real + divider as real + offset == from
    ensures var w := context.area.w as real;
            var goal, lands := DividerGoal(w, divider as real + (x - from)),
                               MasterWidth(context.area.w, RatioAt(context, offset, x)) as real;
            goal - w / 20000.0 - 1.0 < lands <= goal + w / 20000.0
  {
    MasterFollowsPointer(context, offset, x);
  }

  // ------------------------------------------------------------------
  // Tiles

  // A tile that is dropped on another one trades places with it; dropped anywhere
  // else, or not dragged five pixels, it stays.
  lemma TileDrops(s: Scene, d: Interaction, moves: seq<(Point, Option<nat>)>)
    requires Fresh(s, d) && d.operation.DragTile? && moves != []
    ensures var r, id, over := Run(s, Some(d), moves), d.operation.window, moves[|moves| - 1].1;
            && r.0 == s && r.1.Some?
            && Finished(r.0, r.1.value, true)
               == if over.Some? && over.value != id && TiledSlot(s, over.value) && EverMoved(d, moves)
                  then Swapped(s, id, over.value) else s
  {
    LastMotionDecides(s, d, moves);
    EverMovedStep(d, moves);
  }

  // ------------------------------------------------------------------
  // Gaps and borders around floating windows

  // With gaps a floating window is shown within the outer gaps, and with borders
  // it keeps room for them there.
  lemma FloatingKeepsGaps(screen: Screen, rect: Rect)
    requires ScreenOk(screen)
    ensures var look, r := screen.look, FloatingPlacement(screen, rect);
            var room := if look.floating.gaps then Inset(screen.usable, look.outer) else screen.usable;
            && (look.floating.gaps && look.outer != Edges(0, 0, 0, 0) ==> Inside(r, room))
            && (look.floating.borders && look.border != Edges(0, 0, 0, 0) ==> Inside(r, Inset(room, look.border)))
            && (!look.floating.gaps && !look.floating.borders ==> r == rect)
  {
    var look := screen.look;
    var room := if look.floating.gaps then Inset(screen.usable, look.outer) else screen.usable;
    ConstrainFloatingMovesLeast(rect, room, look.border, look.floating, rect);
  }

  // ------------------------------------------------------------------
  // Leaving the context

  // Another workspace, another output or usable area, or the loss of what is
  // dragged: the floating window, the tile, the split.
  ghost predicate Disturbed(s: Scene, d: Interaction)
    requires SceneOk(s)
  {
    || d.workspace != s.active || d.area != s.screen.usable || d.output != s.screen.output
    || match d.operation
       case DragFloating(id, _, _) => FloatingGeometry(s, id).None?
       case DragTile(id, _) => !TiledSlot(s, id)
       case DragMaster(context, _, _) => SplitContext(s) != Some(context)
       case DragStack(context, _, _, _, _, _) => SplitContext(s) != Some(context)
  }

  // A motion of a disturbed drag cancels it, any other keeps it going. On another
  // workspace than its own, cancelling leaves everything as it is.
  lemma DisturbanceCancels(s: Scene, d: Interaction, at: Point, over: Option<nat>)
    requires SceneOk(s) && OperationOk(d.operation)
    ensures var r := Step(s, Some(d), at, over);
            && (r.1.None? <==> Disturbed(s, d))
            && (r.1.None? ==> r.0 == Finished(s, d, false))
            && (r.1.None? && d.workspace != s.active ==> r.0 == s)
  {
  }

  // Committing keeps what the motions left, but for a tile, which is dropped.
  lemma CommitKeeps(s: Scene, d: Interaction)
    requires SceneOk(s) && OperationOk(d.operation) && !d.operation.DragTile?
    ensures Finished(s, d, true) == s
  {
  }

  // A window has a floating rectangle to show exactly when it floats on its
  // workspace and is neither minimized nor expanded there.
  lemma FloatingShown(s: Scene, id: nat)
    requires SceneOk(s)
    ensures FloatingGeometry(s, id).Some?
        <==> exists i :: 0 <= i < |s.workspaces| && ShowsFloating(s.workspaces[i], id)
                         && Desk.WorkspaceOf(s.workspaces, id) == Some(i)
  {
    match Desk.WorkspaceOf(s.workspaces, id) {
      case None =>
      case Some(i) =>
        var ws := s.workspaces[i].windows;
        var k := IndexOf(ws, id).value;
        assert ws[k] in ws;
        OnlyEntry(ws, ws[k]);
        assert ShowsFloating(s.workspaces[i], id) <==> FloatingGeometry(s, id).Some?;
    }
  }

  ghost predicate ShowsFloating(w: Workspace, id: nat) {
    && w.fullscreen != Some(id) && w.maximized != Some(id)
    && exists e :: e in w.windows && e.id == id && e.floating.Some? && !e.minimized
  }
}
