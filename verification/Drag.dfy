// Interactive dragging of floating windows, tiles and split dividers, as values:
// what one pointer motion does, and what finishing or cancelling leaves behind.
module Drag {
  import opened Common
  import opened Arith
  import opened Model
  import opened ParentGraph
  import opened Raising
  import opened Tiling
  import opened Settling
  import opened Appearance
  import opened Geometry
  import opened Visibility
  import Desk

  type Point = (real, real)

  // The part of the configuration that shapes slots and floating rectangles.
  datatype Look = Look(tiledGaps: bool, outer: Edges, floating: View, border: Edges, masterPercent: nat)

  datatype Screen = Screen(usable: Rect, output: Size, hints: map<nat, (Size, Size)>, look: Look)

  datatype Scene = Scene(workspaces: seq<Workspace>, active: nat, screen: Screen)

  datatype Context = Context(workspace: nat, area: Rect, windows: seq<nat>)

  datatype Operation =
    | DragFloating(window: nat, geometry: Rect, edges: Option<ResizeEdges>)
    | DragTile(window: nat, destination: Option<nat>)
    | DragMaster(context: Context, initial: Option<nat>, offset: real)
    | DragStack(context: Context, ids: seq<nat>, weights: seq<nat>, pair: nat, upper: int, lower: int)

  datatype Interaction = Interaction(operation: Operation, start: Point, workspace: nat, area: Rect, output: Size,
                                     delta: (int, int), moved: bool)

  // ------------------------------------------------------------------
  // Reading the scene

  predicate ScreenOk(screen: Screen) {
    screen.usable.w >= 1 && screen.usable.h >= 1
  }

  ghost predicate SceneOk(s: Scene) {
    && s.active < |s.workspaces| && ScreenOk(s.screen)
    && forall i :: 0 <= i < |s.workspaces| ==> UniqueIds(s.workspaces[i].windows)
  }

  function HintsOf(screen: Screen, id: nat): (Size, Size) {
    if id in screen.hints then screen.hints[id] else (Size(0, 0), Size(0, 0))
  }

  // Where a saved floating rectangle is shown once gaps and borders have their due.
  function FloatingPlacement(screen: Screen, rect: Rect): Rect
    requires ScreenOk(screen)
  {
    var look := screen.look;
    if (!look.floating.gaps || look.outer == Edges(0, 0, 0, 0))
       && (!look.floating.borders || look.border == Edges(0, 0, 0, 0))
    then rect
    else
      var bounds := if look.floating.gaps then Inset(screen.usable, look.outer) else screen.usable;
      ConstrainFloating(rect, bounds, look.border, look.floating)
  }

  // The floating entry of a window that is neither minimized nor expanded.
  function FloatingEntry(s: Scene, id: nat): (r: Option<(nat, nat)>)
    ensures r.Some? ==> r.value.0 < |s.workspaces| && r.value.1 < |s.workspaces[r.value.0].windows|
                        && s.workspaces[r.value.0].windows[r.value.1].floating.Some?
  {
    match Desk.WorkspaceOf(s.workspaces, id)
    case None => None
    case Some(home) =>
      var w := s.workspaces[home];
      match IndexOf(w.windows, id)
      case None => None
      case Some(k) =>
        if !w.windows[k].minimized && w.fullscreen != Some(id) && w.maximized != Some(id) && w.windows[k].floating.Some?
        then Some((home, k)) else None
  }

  function FloatingGeometry(s: Scene, id: nat): Option<Rect>
    requires ScreenOk(s.screen)
  {
    match FloatingEntry(s, id)
    case Some((home, k)) => Some(FloatingPlacement(s.screen, s.workspaces[home].windows[k].floating.value))
    case None => None
  }

  function TiledArea(screen: Screen): Rect {
    if screen.look.tiledGaps then Inset(screen.usable, screen.look.outer) else screen.usable
  }

  // The tiles of the active workspace, unless it is too small, covered or has no split.
  ghost function SplitContext(s: Scene): Option<Context>
    requires s.active < |s.workspaces|
  {
    var w, area := s.workspaces[s.active], TiledArea(s.screen);
    if area.w < 10 || area.h < 1 || Exclusive(w).Some? || |TilesOf(w.windows, w.windows)| < 2 then None
    else Some(Context(s.active, area, IdsOf(TilesOf(w.windows, w.windows))))
  }

  ghost predicate TiledSlot(s: Scene, id: nat)
    requires s.active < |s.workspaces|
  {
    var w := s.workspaces[s.active];
    && Visible(w, id) && w.fullscreen != Some(id) && w.maximized != Some(id)
    && Find(w.windows, id).Some? && Find(w.windows, id).value.floating.None?
  }

  function MasterRatio(s: Scene): nat
    requires s.active < |s.workspaces|
  {
    var override := s.workspaces[s.active].masterRatio;
    if override.Some? then override.value else s.screen.look.masterPercent * 100
  }

  // ------------------------------------------------------------------
  // The four kinds of change

  function ActiveWith(s: Scene, w: Workspace): Scene
    requires s.active < |s.workspaces|
  {
    s.(workspaces := s.workspaces[s.active := w])
  }

  // Mapping the active workspace renormalizes its stack.
  ghost function Mapped(s: Scene): (r: Scene)
    requires s.active < |s.workspaces|
    ensures |r.workspaces| == |s.workspaces| && r.active == s.active
  {
    var w := s.workspaces[s.active];
    ActiveWith(s, w.(windows := NormalizedStack(w.windows)))
  }

  function SetFloating(s: Scene, id: nat, rect: Rect): (r: Scene)
    ensures |r.workspaces| == |s.workspaces| && r == s.(workspaces := r.workspaces)
  {
    match FloatingEntry(s, id)
    case Some((home, k)) =>
      var w, hints := s.workspaces[home], HintsOf(s.screen, id);
      var e := w.windows[k].(floating := Some(Constrain(rect, s.screen.output, hints.0, hints.1)));
      s.(workspaces := s.workspaces[home := w.(windows := w.windows[k := e])])
    case None => s
  }

  // Only a change of the effective ratio maps the workspace again.
  ghost function WithRatio(s: Scene, ratio: Option<nat>): (r: Scene)
    requires s.active < |s.workspaces|
    ensures |r.workspaces| == |s.workspaces| && r.active == s.active
  {
    var clamped := if ratio.Some? then Some(Clamp(ratio.value, 1000, 9000)) else None;
    var t := ActiveWith(s, s.workspaces[s.active].(masterRatio := clamped));
    if MasterRatio(t) != MasterRatio(s) then Mapped(t) else t
  }

  function AtLeastOne(weights: seq<nat>): (r: seq<nat>)
    ensures |r| == |weights| && Positive(r)
    ensures Positive(weights) ==> r == weights
  {
    seq(|weights|, i requires 0 <= i < |weights| => Max(weights[i], 1))
  }

  ghost function WithWeights(s: Scene, ids: seq<nat>, weights: seq<nat>): (r: Scene)
    requires s.active < |s.workspaces| && |ids| == |weights|
    ensures |r.workspaces| == |s.workspaces| && r.active == s.active
  {
    var w := s.workspaces[s.active];
    Mapped(ActiveWith(s, w.(windows := Reweigh(w.windows, ids, AtLeastOne(weights)))))
  }

  // Two entries exchange places; the proportions stay with the places.
  function Exchanged(ws: seq<Entry>, a: nat, b: nat): (r: seq<Entry>)
    requires a < |ws| && b < |ws|
    ensures |r| == |ws|
  {
    ws[a := ws[b].(stackWeight := ws[a].stackWeight)][b := ws[a].(stackWeight := ws[b].stackWeight)]
  }

  function SwappedTiles(ws: seq<Entry>, source: nat, destination: nat): (r: seq<Entry>)
    ensures |r| == |ws|
  {
    var a, b := IndexOf(ws, source), IndexOf(ws, destination);
    if a.Some? && b.Some? then Exchanged(ws, a.value, b.value) else ws
  }

  ghost function Swapped(s: Scene, source: nat, destination: nat): (r: Scene)
    requires s.active < |s.workspaces|
    ensures |r.workspaces| == |s.workspaces| && r.active == s.active
  {
    var w := s.workspaces[s.active];
    if Find(w.windows, source).Some? && Find(w.windows, destination).Some?
    then Mapped(ActiveWith(s, w.(windows := SwappedTiles(w.windows, source, destination))))
    else s
  }

  // ------------------------------------------------------------------
  // One pointer motion

  // Rounding half away from zero, saturating at 32 bits.
  function Rounded(v: real): int {
    Saturate(if v >= 0.0 then (v + 0.5).Floor else -((0.5 - v).Floor))
  }

  function DeltaOf(start: Point, at: Point): (int, int) {
    (Rounded(at.0 - start.0), Rounded(at.1 - start.1))
  }

  // A drag that once went five pixels stays a drag.
  function MovedBy(start: Point, moved: bool, at: Point): bool {
    var delta := DeltaOf(start, at);
    moved || Max(Abs(delta.0), Abs(delta.1)) >= 5
  }

  function RatioAt(context: Context, offset: real, x: real): nat
    requires context.area.w >= 10
  {
    var width := x - offset - context.area.x as real;
    Clamp(Rounded(width * 10000.0 / context.area.w as real), 1000, 9000)
  }

  // The rectangle a floating drag asks for. Resizes happen in the coordinates
  // of the area that floating windows may cover.
  function DraggedRect(screen: Screen, geometry: Rect, edges: Option<ResizeEdges>, id: nat, delta: (int, int)): Rect
    requires ScreenOk(screen)
  {
    match edges
    case None => geometry.(x := geometry.x + delta.0, y := geometry.y + delta.1)
    case Some(edges) =>
      var bounds := FloatingPlacement(screen, Rect(0, 0, screen.output.w, screen.output.h));
      var local := geometry.(x := geometry.x - bounds.x, y := geometry.y - bounds.y);
      var hints := HintsOf(screen, id);
      var r := Resize(local, delta.0, delta.1, edges, Size(bounds.w, bounds.h), hints.0, hints.1);
      r.(x := r.x + bounds.x, y := r.y + bounds.y)
  }

  ghost predicate Live(s: Scene, op: Operation)
    requires SceneOk(s)
  {
    match op
    case DragFloating(id, _, _) => FloatingGeometry(s, id).Some?
    case DragTile(id, _) => TiledSlot(s, id)
    case DragMaster(context, _, _) => SplitContext(s) == Some(context)
    case DragStack(context, _, _, _, _, _) => SplitContext(s) == Some(context)
  }

  ghost predicate Undisturbed(s: Scene, d: Interaction)
    requires SceneOk(s)
  {
    d.workspace == s.active && d.area == s.screen.usable && d.output == s.screen.output && Live(s, d.operation)
  }

  // A master drag has room to divide; a divider drag carries the stack and a
  // pair of slots with room for both.
  ghost predicate OperationOk(op: Operation) {
    && (op.DragMaster? ==> op.context.area.w >= 10)
    && (op.DragStack? ==>
      && |op.ids| == |op.weights| && op.pair + 1 < |op.weights| && op.upper + op.lower >= 2
      && Positive(op.weights) && op.context.windows != [] && op.ids == op.context.windows[1..])
  }

  // The tile under the pointer, if it is another one.
  ghost function Landing(s: Scene, id: nat, over: Option<nat>): Option<nat>
    requires SceneOk(s)
  {
    if over.Some? && over.value != id && TiledSlot(s, over.value) then over else None
  }

  // What a motion asks of the workspace.
  datatype Wish =
    | Nothing
    | Place(window: nat, rect: Rect)
    | Divide(ratio: nat)
    | Weigh(ids: seq<nat>, weights: seq<nat>)

  ghost function WishOf(screen: Screen, op: Operation, delta: (int, int), moved: bool, at: Point): (r: Wish)
    requires ScreenOk(screen) && OperationOk(op)
    ensures r.Weigh? ==> |r.ids| == |r.weights|
  {
    match op
    case DragFloating(id, geometry, edges) =>
      if moved then Place(id, DraggedRect(screen, geometry, edges, id, delta)) else Nothing
    case DragTile(_, _) => Nothing
    case DragMaster(context, _, offset) => Divide(RatioAt(context, offset, at.0))
    case DragStack(_, ids, weights, pair, upper, lower) =>
      Weigh(ids, DraggedWeights(weights, pair, upper, lower, delta.1))
  }

  ghost function Granted(s: Scene, wish: Wish): (r: Scene)
    requires s.active < |s.workspaces| && (wish.Weigh? ==> |wish.ids| == |wish.weights|)
    ensures |r.workspaces| == |s.workspaces| && r == s.(workspaces := r.workspaces)
  {
    match wish
    case Nothing => s
    case Place(id, rect) => SetFloating(s, id, rect)
    case Divide(ratio) => WithRatio(s, Some(ratio))
    case Weigh(ids, weights) => WithWeights(s, ids, weights)
  }

  ghost function Wished(screen: Screen, d: Interaction, at: Point): (r: Wish)
    requires ScreenOk(screen) && OperationOk(d.operation)
    ensures r.Weigh? ==> |r.ids| == |r.weights|
  {
    WishOf(screen, d.operation, DeltaOf(d.start, at), MovedBy(d.start, d.moved, at), at)
  }

  ghost function MovedScene(s: Scene, d: Interaction, at: Point): Scene
    requires SceneOk(s) && OperationOk(d.operation) && Undisturbed(s, d)
  {
    Granted(s, Wished(s.screen, d, at))
  }

  ghost function MovedInteraction(s: Scene, d: Interaction, at: Point, over: Option<nat>): Interaction
    requires SceneOk(s)
  {
    var op := if d.operation.DragTile? then d.operation.(destination := Landing(s, d.operation.window, over))
        else d.operation;
    d.(operation := op, delta := DeltaOf(d.start, at), moved := MovedBy(d.start, d.moved, at))
  }

  ghost function Finished(s: Scene, d: Interaction, commit: bool): (r: Scene)
    requires SceneOk(s) && OperationOk(d.operation)
    ensures |r.workspaces| == |s.workspaces| && r.active == s.active
  {
    var undo := !commit && d.workspace == s.active;
    match d.operation
    case DragFloating(id, geometry, _) => if undo then SetFloating(s, id, geometry) else s
    case DragTile(id, destination) =>
      if commit && d.moved && destination.Some? then Swapped(s, id, destination.value) else s
    case DragMaster(_, initial, _) => if undo then WithRatio(s, initial) else s
    case DragStack(_, ids, weights, _, _, _) => if undo then WithWeights(s, ids, weights) else s
  }

  // A motion out of context cancels the drag.
  ghost function Step(s: Scene, d: Option<Interaction>, at: Point, over: Option<nat>): (r: (Scene, Option<Interaction>))
    requires SceneOk(s) && (d.Some? ==> OperationOk(d.value.operation))
    ensures r.1.Some? ==> OperationOk(r.1.value.operation)
    ensures d.None? ==> r == (s, d)
  {
    if d.None? then (s, d)
    else if Undisturbed(s, d.value) then (MovedScene(s, d.value, at), Some(MovedInteraction(s, d.value, at, over)))
    else (Finished(s, d.value, false), None)
  }

  // ------------------------------------------------------------------
  // The master divider

  // Where the divider should be: under the pointer, between a tenth and nine
  // tenths of the width.
  function DividerGoal(w: real, position: real): real {
    if position < w / 10.0 then w / 10.0 else if position > w * 9.0 / 10.0 then w * 9.0 / 10.0 else position
  }

  // The divider lands there up to half a step of the ratio and the rounding
  // down of one division, on screens of every width.
  lemma MasterFollowsPointer(context: Context, offset: real, x: real)
    requires context.area.w >= 10
    ensures var w := context.area.w as real;
            var goal, divider := DividerGoal(w, x - offset - context.area.x as real),
                                 MasterWidth(context.area.w, RatioAt(context, offset, x)) as real;
            goal - w / 20000.0 - 1.0 < divider <= goal + w / 20000.0
  {
    var w, width := context.area.w as real, x - offset - context.area.x as real;
    var scaled := width * 10000.0;
    DividerFollows(context.area.w, w, width, scaled, scaled / w, RatioAt(context, offset, x));
  }

  lemma DividerFollows(whole: nat, w: real, width: real, scaled: real, exact: real, ratio: nat)
    requires w == whole as real >= 10.0 && scaled == width * 10000.0 && exact == scaled / w
    requires ratio == Clamp(Rounded(exact), 1000, 9000)
    ensures var goal, divider := DividerGoal(w, width), MasterWidth(whole, ratio) as real;
            goal - w / 20000.0 - 1.0 < divider <= goal + w / 20000.0
  {
    var goal := DividerGoal(w, width);
    var wanted := goal * 10000.0;
    var share := wanted / w;
    assert exact * w == scaled by { Quotient(scaled, w); }
    assert share * w == wanted by { Quotient(wanted, w); }
    RatioNearGoal(w, width, goal, exact, share, ratio);
    GoalNear(whole, w, goal, share, ratio, ratio as real);
  }

  lemma Quotient(n: real, k: real)
    requires k > 0.0
    ensures n / k * k == n
  {
  }

  lemma GoalNear(whole: nat, w: real, goal: real, share: real, ratio: nat, r: real)
    requires 0.0 < w == whole as real && 1000 <= ratio <= 9000 && r == ratio as real
    requires share * w == goal * 10000.0 && r - 0.5 <= share <= r + 0.5
    ensures goal - w / 20000.0 - 1.0 < MasterWidth(whole, ratio) as real <= goal + w / 20000.0
  {
    var product := r * w;
    assert goal * 10000.0 - w / 2.0 <= product <= goal * 10000.0 + w / 2.0 by {
      ScaledGap(r, share, w, product, goal * 10000.0);
    }
    assert product == ratio as real * whole as real;
    DividerNear(whole, ratio, goal, product);
  }

  lemma DividerNear(w: nat, ratio: nat, goal: real, product: real)
    requires 1000 <= ratio <= 9000 && product == ratio as real * w as real
    requires goal * 10000.0 - w as real / 2.0 <= product <= goal * 10000.0 + w as real / 2.0
    ensures var step := w as real / 20000.0; goal - step - 1.0 < MasterWidth(w, ratio) as real <= goal + step
  {
    var whole := w * ratio;
    assert whole as real == product by { WholeProduct(w, ratio); }
    assert whole >= 0 by { MulMono(0, ratio, w); }
    WholeCut(whole, goal * 10000.0, w as real / 20000.0);
    assert MasterWidth(w, ratio) == whole / 10000;
  }

  lemma WholeProduct(a: nat, b: nat)
    ensures (a * b) as real == b as real * a as real
  {
  }

  // A division rounded down.
  lemma WholeCut(n: nat, scaled: real, step: real)
    requires scaled - step * 10000.0 <= n as real <= scaled + step * 10000.0
    ensures scaled / 10000.0 - step - 1.0 < (n / 10000) as real <= scaled / 10000.0 + step
  {
    DivMod(n, 10000);
  }

  lemma RatioNearGoal(w: real, width: real, goal: real, exact: real, share: real, ratio: nat)
    requires ratio == Clamp(Rounded(exact), 1000, 9000)
    requires w > 0.0 && exact * w == width * 10000.0 && share * w == goal * 10000.0
    requires goal == DividerGoal(w, width)
    ensures ratio as real - 0.5 <= share <= ratio as real + 0.5
  {
    ProductOrder(exact, width * 10000.0, 1000.0, 1000.0 * w, w);
    ProductOrder(exact, width * 10000.0, 9000.0, 9000.0 * w, w);
    ProductOrder(share, goal * 10000.0, 1000.0, 1000.0 * w, w);
    ProductOrder(share, goal * 10000.0, 9000.0, 9000.0 * w, w);
    ProductOrder(share, goal * 10000.0, exact, width * 10000.0, w);
  }

  lemma ProductOrder(a: real, ak: real, b: real, bk: real, k: real)
    requires ak == a * k && bk == b * k && 0.0 < k
    ensures (a <= b <==> ak <= bk) && (a == b <==> ak == bk)
  {
    if a < b {
      ProductGrows(a, ak, b, bk, k);
    } else if b < a {
      ProductGrows(b, bk, a, ak, k);
    }
  }

  lemma ProductGrows(a: real, ak: real, b: real, bk: real, k: real)
    requires ak == a * k && bk == b * k && 0.0 < k && a < b
    ensures ak < bk
  {
    var gap := b - a;
    var gapk := gap * k;
    assert gapk > 0.0;
    assert bk == ak + gapk by { ProductSum(a, gap, b, k); }
  }

  lemma ProductSum(a: real, b: real, c: real, k: real)
    requires c == a + b
    ensures c * k == a * k + b * k
  {
  }

  lemma ScaledGap(r: real, share: real, w: real, rw: real, sharew: real)
    requires r - 0.5 <= share <= r + 0.5 && 0.0 < w && rw == r * w && sharew == share * w
    ensures sharew - w / 2.0 <= rw <= sharew + w / 2.0
  {
    HalfMore(share, sharew, w);
    HalfMore(r, rw, w);
    ProductOrder(r, rw, share + 0.5, sharew + w / 2.0, w);
    ProductOrder(share, sharew, r + 0.5, rw + w / 2.0, w);
  }

  lemma HalfMore(a: real, ak: real, k: real)
    requires ak == a * k
    ensures (a + 0.5) * k == ak + k / 2.0
  {
    ProductSum(a, 0.5, a + 0.5, k);
  }

  // ------------------------------------------------------------------
  // What the changes leave alone

  lemma {:induction false} HomeStable(ws: seq<Workspace>, vs: seq<Workspace>, id: nat)
    requires |ws| == |vs|
    requires forall i :: 0 <= i < |ws| ==> Find(ws[i].windows, id).Some? == Find(vs[i].windows, id).Some?
    ensures Desk.WorkspaceOf(ws, id) == Desk.WorkspaceOf(vs, id)
  {
    if ws != [] {
      HomeStable(ws[1..], vs[1..], id);
    }
  }

  lemma {:induction false} IndexStable(ws: seq<Entry>, vs: seq<Entry>, id: nat)
    requires SameForest(ws, vs)
    ensures IndexOf(ws, id) == IndexOf(vs, id)
  {
    if ws != [] {
      IndexStable(ws[1..], vs[1..], id);
    }
  }

  // The last rectangle given to a floating window is the one it keeps.
  lemma SetFloatingTwice(s: Scene, id: nat, first: Rect, second: Rect)
    requires SceneOk(s)
    ensures var t := SetFloating(s, id, first);
            && SceneOk(t) && FloatingEntry(t, id) == FloatingEntry(s, id)
            && SetFloating(t, id, second) == SetFloating(s, id, second)
  {
    var at := FloatingEntry(s, id);
    if at.Some? {
      var (home, k) := at.value;
      var t := SetFloating(s, id, first);
      var ws, vs := s.workspaces[home].windows, t.workspaces[home].windows;
      assert SameForest(ws, vs);
      SameAcyclic(ws, vs);
      SameFind(ws, vs, id);
      HomeStable(s.workspaces, t.workspaces, id);
      IndexStable(ws, vs, id);
      assert FloatingEntry(t, id) == at;
      var once, twice := SetFloating(s, id, second), SetFloating(t, id, second);
      assert twice.workspaces[home].windows == once.workspaces[home].windows;
      assert twice.workspaces == once.workspaces;
    }
  }

  // Weights and ratios decide neither which windows are tiled nor where.
  lemma ContextStable(s: Scene, v: Workspace)
    requires SceneOk(s) && SameForest(s.workspaces[s.active].windows, v.windows)
    requires v.fullscreen == s.workspaces[s.active].fullscreen && v.maximized == s.workspaces[s.active].maximized
    ensures SceneOk(ActiveWith(s, v)) && SplitContext(ActiveWith(s, v)) == SplitContext(s)
  {
    var w := s.workspaces[s.active];
    SameAcyclic(w.windows, v.windows);
    SameExclusive(w, v);
    SameTiles(w.windows, v.windows, |w.windows|);
    assert w.windows[..|w.windows|] == w.windows && v.windows[..|v.windows|] == v.windows;
  }

  // The stack of the active workspace.
  ghost function StackIds(s: Scene): seq<nat>
    requires s.active < |s.workspaces|
  {
    IdsOf(Stack(s.workspaces[s.active].windows))
  }

  ghost function StackWeightsOf(s: Scene): seq<nat>
    requires s.active < |s.workspaces|
  {
    WeightsOf(Stack(s.workspaces[s.active].windows))
  }

  // Assigning weights to the whole stack and mapping it sets their normal form.
  lemma WithWeightsIs(s: Scene, weights: seq<nat>)
    requires SceneOk(s) && |weights| == |StackIds(s)|
    ensures var w := s.workspaces[s.active];
            var v := w.(windows := Reweigh(w.windows, StackIds(s), Normalized(AtLeastOne(weights))));
            && WithWeights(s, StackIds(s), weights) == ActiveWith(s, v)
            && WeightsOf(Stack(v.windows)) == Normalized(AtLeastOne(weights))
            && SceneOk(ActiveWith(s, v)) && SplitContext(ActiveWith(s, v)) == SplitContext(s)
            && StackIds(ActiveWith(s, v)) == StackIds(s)
  {
    var w, ids := s.workspaces[s.active], StackIds(s);
    var given := AtLeastOne(weights);
    var windows := Reweigh(w.windows, ids, given);
    ReweighedStack(w.windows, given);
    ReweighTwice(w.windows, ids, given, Normalized(given));
    ReweighedStack(w.windows, Normalized(given));
    ContextStable(s, w.(windows := Reweigh(w.windows, ids, Normalized(given))));
    assert NormalizedStack(windows) == Reweigh(w.windows, ids, Normalized(given));
    assert s.workspaces[s.active := w.(windows := windows)][s.active := w.(windows := NormalizedStack(windows))]
        == s.workspaces[s.active := w.(windows := NormalizedStack(windows))];
  }

  // Later weights replace earlier ones.
  lemma WithWeightsTwice(s: Scene, first: seq<nat>, second: seq<nat>)
    requires SceneOk(s) && |first| == |second| == |StackIds(s)|
    ensures WithWeights(WithWeights(s, StackIds(s), first), StackIds(s), second) == WithWeights(s, StackIds(s), second)
  {
    var t := WithWeights(s, StackIds(s), first);
    WithWeightsIs(s, first);
    WithWeightsIs(s, second);
    WithWeightsIs(t, second);
    ReweighTwice(s.workspaces[s.active].windows, StackIds(s), Normalized(AtLeastOne(first)),
        Normalized(AtLeastOne(second)));
    assert WithWeights(t, StackIds(s), second).workspaces == WithWeights(s, StackIds(s), second).workspaces;
  }

  // The stack is at a fixed point of renormalization.
  ghost predicate StackSettled(s: Scene)
    requires s.active < |s.workspaces|
  {
    Settled(StackWeightsOf(s)) && Positive(StackWeightsOf(s)) && WEIGHT_UNIT * |StackWeightsOf(s)| <= U32_MAX
  }

  lemma MappedSettled(s: Scene)
    requires SceneOk(s) && StackSettled(s)
    ensures Mapped(s) == s
  {
    var w := s.workspaces[s.active];
    NormalizedFixed(WeightsOf(Stack(w.windows)));
    ReweighSame(w.windows);
    assert s.workspaces[s.active := w] == s.workspaces;
  }

  lemma WithRatioSettled(s: Scene, ratio: Option<nat>)
    requires SceneOk(s) && StackSettled(s)
    ensures var clamped := if ratio.Some? then Some(Clamp(ratio.value, 1000, 9000)) else None;
            var t := ActiveWith(s, s.workspaces[s.active].(masterRatio := clamped));
            && WithRatio(s, ratio) == t && SceneOk(t) && StackSettled(t) && SplitContext(t) == SplitContext(s)
  {
    var clamped := if ratio.Some? then Some(Clamp(ratio.value, 1000, 9000)) else None;
    var t := ActiveWith(s, s.workspaces[s.active].(masterRatio := clamped));
    assert SceneOk(t);
    MappedSettled(t);
    ContextStable(s, t.workspaces[s.active]);
  }

  // ------------------------------------------------------------------
  // Only the last motion counts

  lemma StackOfContext(s: Scene, context: Context)
    requires SceneOk(s) && SplitContext(s) == Some(context)
    ensures context.windows != [] && StackIds(s) == context.windows[1..]
  {
    var tiles := TilesOf(s.workspaces[s.active].windows, s.workspaces[s.active].windows);
    assert IdsOf(tiles)[1..] == IdsOf(tiles[1..]);
  }

  ghost predicate Draggable(s: Scene, d: Interaction) {
    && SceneOk(s) && OperationOk(d.operation) && Undisturbed(s, d)
    && (d.operation.DragMaster? ==> StackSettled(s))
  }

  // After a motion the drag is still in context, and a second motion does what
  // it would have done alone, except that an earlier long one keeps counting.
  ghost predicate Absorbed(s: Scene, d: Interaction, at: Point, over: Option<nat>, next: Point, under: Option<nat>)
    requires Draggable(s, d)
  {
    var t, e := MovedScene(s, d, at), MovedInteraction(s, d, at, over);
    && Draggable(t, e)
    && MovedScene(t, e, next) == MovedScene(s, d.(moved := e.moved), next)
    && MovedInteraction(t, e, next, under) == MovedInteraction(s, d.(moved := e.moved), next, under)
  }

  // The wishes one drag makes.
  ghost predicate Fits(s: Scene, op: Operation, wish: Wish)
    requires SceneOk(s)
  {
    match op
    case DragFloating(id, _, _) => wish.Nothing? || (wish.Place? && wish.window == id)
    case DragTile(_, _) => wish.Nothing?
    case DragMaster(_, _, _) => wish.Divide? && StackSettled(s)
    case DragStack(_, ids, _, _, _, _) => wish.Weigh? && wish.ids == ids && |wish.weights| == |ids|
  }

  lemma WishFits(s: Scene, d: Interaction, at: Point)
    requires Draggable(s, d)
    ensures Fits(s, d.operation, Wished(s.screen, d, at))
  {
    if d.operation.DragStack? {
      StackOfContext(s, d.operation.context);
    }
  }

  // Granting a wish keeps the drag in context; granting another undoes the first.
  lemma GrantedTwice(s: Scene, op: Operation, first: Wish, second: Wish)
    requires SceneOk(s) && Live(s, op) && OperationOk(op) && Fits(s, op, first) && Fits(s, op, second)
    requires first.Place? ==> second.Place?
    ensures SceneOk(Granted(s, first)) && Live(Granted(s, first), op)
    ensures op.DragMaster? ==> StackSettled(Granted(s, first))
    ensures Granted(Granted(s, first), second) == Granted(s, second)
  {
    match first {
      case Nothing =>
      case Place(id, rect) => SetFloatingTwice(s, id, rect, second.rect);
      case Divide(ratio) =>
        WithRatioSettled(s, Some(ratio));
        WithRatioSettled(s, Some(second.ratio));
        WithRatioSettled(Granted(s, first), Some(second.ratio));
      case Weigh(ids, weights) =>
        StackOfContext(s, op.context);
        WithWeightsIs(s, weights);
        WithWeightsTwice(s, weights, second.weights);
    }
  }

  lemma StillDraggable(s: Scene, d: Interaction, at: Point, over: Option<nat>)
    requires Draggable(s, d)
    ensures Draggable(MovedScene(s, d, at), MovedInteraction(s, d, at, over))
  {
    var wish := Wished(s.screen, d, at);
    WishFits(s, d, at);
    GrantedTwice(s, d.operation, wish, wish);
  }

  lemma MotionAbsorbs(s: Scene, d: Interaction, at: Point, over: Option<nat>, next: Point, under: Option<nat>)
    requires Draggable(s, d)
    ensures Absorbed(s, d, at, over, next, under)
  {
    var e := MovedInteraction(s, d, at, over);
    var sticky := d.(moved := e.moved);
    StillDraggable(s, d, at, over);
    WishFits(s, d, at);
    WishFits(s, sticky, next);
    GrantedTwice(s, d.operation, Wished(s.screen, d, at), Wished(s.screen, sticky, next));
  }

  lemma KeepsSceneOk(s: Scene, t: Scene)
    requires SceneOk(s) && |t.workspaces| == |s.workspaces| && t.active == s.active && t.screen == s.screen
    requires forall i :: 0 <= i < |s.workspaces| ==> SameForest(s.workspaces[i].windows, t.workspaces[i].windows)
    ensures SceneOk(t)
  {
    forall i | 0 <= i < |s.workspaces| ensures UniqueIds(t.workspaces[i].windows) {
      SameAcyclic(s.workspaces[i].windows, t.workspaces[i].windows);
    }
  }

  ghost predicate SameForests(s: Scene, t: Scene) {
    && |t.workspaces| == |s.workspaces| && t.active == s.active && t.screen == s.screen
    && forall i :: 0 <= i < |s.workspaces| ==> SameForest(s.workspaces[i].windows, t.workspaces[i].windows)
  }

  lemma CancelKeepsOrder(s: Scene, d: Interaction)
    requires SceneOk(s) && OperationOk(d.operation)
    ensures SameForests(s, Finished(s, d, false)) && SceneOk(Finished(s, d, false))
  {
    match d.operation {
      case DragFloating(id, geometry, _) => GrantedKeepsOrder(s, Place(id, geometry));
      case DragTile(_, _) =>
      case DragMaster(_, _, _) =>
      case DragStack(_, ids, weights, _, _, _) => GrantedKeepsOrder(s, Weigh(ids, weights));
    }
    KeepsSceneOk(s, Finished(s, d, false));
  }

  // Short of a committed swap, dragging changes weights, ratios and floating
  // rectangles only: every workspace keeps its windows in their order.
  lemma StepKeepsOrder(s: Scene, d: Interaction, at: Point, over: Option<nat>)
    requires SceneOk(s) && OperationOk(d.operation)
    ensures SameForests(s, Step(s, Some(d), at, over).0) && SceneOk(Step(s, Some(d), at, over).0)
  {
    if Undisturbed(s, d) {
      var wish := Wished(s.screen, d, at);
      GrantedKeepsOrder(s, wish);
      KeepsSceneOk(s, Granted(s, wish));
    } else {
      CancelKeepsOrder(s, d);
    }
  }

  lemma GrantedKeepsOrder(s: Scene, wish: Wish)
    requires SceneOk(s) && (wish.Weigh? ==> |wish.ids| == |wish.weights|)
    ensures SameForests(s, Granted(s, wish))
  {
    match wish
    case Nothing =>
    case Place(id, rect) => PlaceKeepsOrder(s, id, rect);
    case Divide(_) =>
    case Weigh(_, _) =>
  }

  lemma PlaceKeepsOrder(s: Scene, id: nat, rect: Rect)
    requires SceneOk(s)
    ensures SameForests(s, SetFloating(s, id, rect))
  {
  }

  ghost function Run(s: Scene, d: Option<Interaction>,
                     moves: seq<(Point, Option<nat>)>): (r: (Scene, Option<Interaction>))
    requires SceneOk(s) && (d.Some? ==> OperationOk(d.value.operation))
    ensures SceneOk(r.0) && SameForests(s, r.0) && (r.1.Some? ==> OperationOk(r.1.value.operation))
  {
    if moves == [] then (s, d)
    else
      var before := Run(s, d, moves[..|moves| - 1]);
      var (at, over) := moves[|moves| - 1];
      if before.1.Some? then
        StepKeepsOrder(before.0, before.1.value, at, over);
        Step(before.0, before.1, at, over)
      else before
  }

  ghost predicate EverMoved(d: Interaction, moves: seq<(Point, Option<nat>)>) {
    d.moved || exists i :: 0 <= i < |moves| && MovedBy(d.start, false, moves[i].0)
  }

  // Undisturbed, any number of motions leaves what the last one alone would
  // have, except that a long enough earlier one has made it a drag.
  lemma {:induction false} LastMotionDecides(s: Scene, d: Interaction, moves: seq<(Point, Option<nat>)>)
    requires Draggable(s, d) && moves != []
    ensures var (at, over) := moves[|moves| - 1];
            var sticky := d.(moved := EverMoved(d, moves[..|moves| - 1]));
            Run(s, Some(d), moves) == (MovedScene(s, sticky, at), Some(MovedInteraction(s, sticky, at, over)))
  {
    var front := moves[..|moves| - 1];
    var (at, over) := moves[|moves| - 1];
    if front == [] {
      assert d.(moved := EverMoved(d, front)) == d;
    } else {
      LastMotionDecides(s, d, front);
      var (from, under) := front[|front| - 1];
      var sticky := d.(moved := EverMoved(d, front[..|front| - 1]));
      MotionAbsorbs(s, sticky, from, under, at, over);
      EverMovedStep(d, front);
    }
  }

  lemma EverMovedStep(d: Interaction, moves: seq<(Point, Option<nat>)>)
    requires moves != []
    ensures EverMoved(d, moves)
        <==> MovedBy(d.start, EverMoved(d, moves[..|moves| - 1]), moves[|moves| - 1].0)
  {
    var n := |moves| - 1;
    if i :| 0 <= i < |moves[..n]| && MovedBy(d.start, false, moves[..n][i].0) {
      assert moves[i] == moves[..n][i];
    }
    if i :| 0 <= i < |moves| && MovedBy(d.start, false, moves[i].0) {
      assert i < n ==> moves[..n][i] == moves[i];
    }
  }

  // ------------------------------------------------------------------
  // Cancelling

  // A drag that starts from the scene as it is.
  ghost predicate Fresh(s: Scene, d: Interaction) {
    && Draggable(s, d)
    && match d.operation
       case DragFloating(id, geometry, _) => FloatingGeometry(s, id) == Some(geometry)
       case DragTile(_, _) => true
       case DragMaster(_, initial, _) => initial == s.workspaces[s.active].masterRatio
       case DragStack(_, _, weights, _, _, _) => weights == StackWeightsOf(s) && WEIGHT_UNIT * |weights| <= U32_MAX
  }

  // When cancelling can restore the scene: the shown rectangle is one that
  // constraining maps to the saved one, the override is a legal one, the
  // weights are at a fixed point of renormalization.
  ghost predicate Restorable(s: Scene, d: Interaction)
    requires SceneOk(s) && Live(s, d.operation)
  {
    match d.operation
    case DragFloating(id, geometry, _) =>
      var (home, k) := FloatingEntry(s, id).value;
      var hints := HintsOf(s.screen, id);
      Constrain(geometry, s.screen.output, hints.0, hints.1) == s.workspaces[home].windows[k].floating.value
    case DragTile(_, _) => true
    case DragMaster(_, initial, _) => initial.None? || 1000 <= initial.value <= 9000
    case DragStack(_, _, weights, _, _, _) => Settled(weights)
  }

  // Without gaps and borders around floating windows, that is a rectangle
  // already within its constraints.
  lemma PlainFloatingRestorable(s: Scene, d: Interaction)
    requires Fresh(s, d) && d.operation.DragFloating?
    requires !s.screen.look.floating.gaps && !s.screen.look.floating.borders
    ensures var geometry, hints := d.operation.geometry, HintsOf(s.screen, d.operation.window);
            Restorable(s, d) <==> Constrain(geometry, s.screen.output, hints.0, hints.1) == geometry
  {
  }

  // Without gaps and borders a resize keeps the edges opposite to the ones held,
  // in the rectangle that is stored, and the stored rectangle fits the hints.
  lemma ResizeKeepsOppositeEdges(s: Scene, d: Interaction, at: Point)
    requires Fresh(s, d) && d.operation.DragFloating? && d.operation.edges.Some?
    requires !s.screen.look.floating.gaps && !s.screen.look.floating.borders
    requires var start, hints, output := d.operation.geometry, HintsOf(s.screen, d.operation.window), s.screen.output;
             && InI32(start.x) && InI32(start.y) && InI32(start.w) && InI32(start.h) && InI32(output.w)
             && InI32(output.h)
             && InI32(hints.0.w) && InI32(hints.0.h) && InI32(hints.1.w) && InI32(hints.1.h)
             && Constrain(start, output, hints.0, hints.1) == start
    ensures var start, edges := d.operation.geometry, d.operation.edges.value;
            var r := FloatingGeometry(MovedScene(s, d, at), d.operation.window);
            && r.Some? && WithinHints(s.screen, d.operation.window, r.value)
            && (if edges.left then r.value.x + r.value.w == start.x + start.w else r.value.x == start.x)
            && (if edges.top then r.value.y + r.value.h == start.y + start.h else r.value.y == start.y)
  {
    var id, start, edges := d.operation.window, d.operation.geometry, d.operation.edges.value;
    var hints, delta := HintsOf(s.screen, id), DeltaOf(d.start, at);
    ResizeKeepsConstraints(start, delta.0, delta.1, edges, s.screen.output, hints.0, hints.1);
    if MovedBy(d.start, d.moved, at) {
      StoredGeometry(s, id, DraggedRect(s.screen, start, Some(edges), id, delta));
    }
  }

  predicate WithinHints(screen: Screen, id: nat, rect: Rect) {
    Constrain(rect, screen.output, HintsOf(screen, id).0, HintsOf(screen, id).1) == rect
  }

  lemma StoredGeometry(s: Scene, id: nat, rect: Rect)
    requires SceneOk(s) && FloatingGeometry(s, id).Some? && WithinHints(s.screen, id, rect)
    requires !s.screen.look.floating.gaps && !s.screen.look.floating.borders
    ensures FloatingGeometry(SetFloating(s, id, rect), id) == Some(rect)
  {
    SetFloatingTwice(s, id, rect, rect);
  }

  // Cancelling right away.
  lemma UndoAtOnce(s: Scene, d: Interaction)
    requires Fresh(s, d)
    ensures Finished(s, d, false) == s <==> Restorable(s, d)
  {
    match d.operation {
      case DragFloating(id, geometry, _) => PlaceAgain(s, id, geometry);
      case DragTile(_, _) =>
      case DragMaster(_, initial, _) =>
        WithRatioSettled(s, initial);
        assert s.workspaces[s.active := s.workspaces[s.active]] == s.workspaces;
      case DragStack(context, ids, weights, _, _, _) =>
        StackOfContext(s, context);
        WithWeightsIs(s, weights);
        NormalizedFixed(weights);
        ReweighSame(s.workspaces[s.active].windows);
        assert s.workspaces[s.active := s.workspaces[s.active]] == s.workspaces;
    }
  }

  lemma PlaceAgain(s: Scene, id: nat, rect: Rect)
    requires SceneOk(s) && FloatingEntry(s, id).Some?
    ensures var (home, k) := FloatingEntry(s, id).value;
            var hints := HintsOf(s.screen, id);
            SetFloating(s, id, rect) == s
            <==> Constrain(rect, s.screen.output, hints.0, hints.1) == s.workspaces[home].windows[k].floating.value
  {
    var (home, k) := FloatingEntry(s, id).value;
    var w := s.workspaces[home];
    var e := SetFloating(s, id, rect).workspaces[home].windows[k];
    if e.floating == w.windows[k].floating {
      assert w.windows[k := e] == w.windows;
      assert s.workspaces[home := w] == s.workspaces;
    }
  }

  lemma UndoAfter(s: Scene, d: Interaction, at: Point)
    requires Draggable(s, d)
    ensures Finished(MovedScene(s, d, at), d, false) == Finished(s, d, false)
  {
    var wish := Wished(s.screen, d, at);
    WishFits(s, d, at);
    match d.operation {
      case DragFloating(id, geometry, _) => GrantedTwice(s, d.operation, wish, Place(id, geometry));
      case DragTile(_, _) =>
      case DragMaster(_, initial, _) =>
        WithRatioSettled(s, Some(wish.ratio));
        WithRatioSettled(s, initial);
        WithRatioSettled(Granted(s, wish), initial);
      case DragStack(_, ids, weights, _, _, _) => GrantedTwice(s, d.operation, wish, Weigh(ids, weights));
    }
  }

  // Cancelling after any motions restores the whole scene exactly when the drag was restorable.
  lemma CancelUndoes(s: Scene, d: Interaction, moves: seq<(Point, Option<nat>)>)
    requires Fresh(s, d)
    ensures var r := Run(s, Some(d), moves);
            r.1.Some? && (Finished(r.0, r.1.value, false) == s <==> Restorable(s, d))
  {
    UndoAtOnce(s, d);
    if moves != [] {
      LastMotionDecides(s, d, moves);
      var (at, over) := moves[|moves| - 1];
      var sticky := d.(moved := EverMoved(d, moves[..|moves| - 1]));
      UndoAfter(s, sticky, at);
    }
  }

  lemma RatioKeepsContext(s: Scene, ratio: Option<nat>)
    requires SceneOk(s)
    ensures var t := WithRatio(s, ratio);
            && SceneOk(t) && SplitContext(t) == SplitContext(s)
            && t.workspaces[s.active].masterRatio
                == (if ratio.Some? then Some(Clamp(ratio.value, 1000, 9000)) else None)
  {
    var w, v := s.workspaces[s.active], WithRatio(s, ratio).workspaces[s.active];
    var t := ActiveWith(s, v);
    ContextStable(s, v);
    assert WithRatio(s, ratio).workspaces == t.workspaces;
  }

  // Even from unsettled weights a master drag's ratio is the last motion's, and
  // cancelling restores the override's legal value.
  lemma {:induction false} LastRatioDecides(s: Scene, d: Interaction, moves: seq<(Point, Option<nat>)>)
    requires SceneOk(s) && OperationOk(d.operation) && Undisturbed(s, d) && d.operation.DragMaster?
    ensures var r, op := Run(s, Some(d), moves), d.operation;
            && r.1.Some? && Undisturbed(r.0, r.1.value) && r.1.value.operation == op
            && (moves != [] ==> r.0.workspaces[s.active].masterRatio
                                == Some(RatioAt(op.context, op.offset, moves[|moves| - 1].0.0)))
            && Finished(r.0, r.1.value, false).workspaces[s.active].masterRatio
               == (if op.initial.Some? then Some(Clamp(op.initial.value, 1000, 9000)) else None)
  {
    if moves != [] {
      var front := moves[..|moves| - 1];
      LastRatioDecides(s, d, front);
      var r, at := Run(s, Some(d), front), moves[|moves| - 1].0;
      RatioKeepsContext(r.0, Some(RatioAt(d.operation.context, d.operation.offset, at.0)));
    }
    RatioKeepsContext(Run(s, Some(d), moves).0, d.operation.initial);
  }

  // On target, a divider drag sets exactly the dragged weights: every cut but
  // the pair's own stays where it was, and the weights stay on target.
  lemma DividerDragMovesOneCut(s: Scene, pair: nat, upper: int, lower: int, delta: int, height: int, i: nat)
    requires SceneOk(s) && pair + 1 < |StackIds(s)| && upper + lower >= 2
    requires Positive(StackWeightsOf(s)) && OnTarget(StackWeightsOf(s))
    requires i <= |StackIds(s)| && i != pair + 1
    ensures var dragged := DraggedWeights(StackWeightsOf(s), pair, upper, lower, delta);
            var t := Granted(s, Weigh(StackIds(s), dragged));
            && StackWeightsOf(t) == dragged && OnTarget(dragged) && StackIds(t) == StackIds(s)
            && Cut(height, dragged, i) == Cut(height, StackWeightsOf(s), i)
  {
    var weights := StackWeightsOf(s);
    DividerMovesOneCut(height, weights, pair, upper, lower, delta, i);
    DraggedSettled(weights, pair, upper, lower, delta);
    ExactWeights(s, DraggedWeights(weights, pair, upper, lower, delta));
  }

  lemma DraggedSettled(weights: seq<nat>, pair: nat, upper: int, lower: int, delta: int)
    requires pair + 1 < |weights| && upper + lower >= 2 && Positive(weights) && OnTarget(weights)
    ensures var r := DraggedWeights(weights, pair, upper, lower, delta);
            OnTarget(r) && Normalized(AtLeastOne(r)) == r
  {
    DragKeepsSum(weights, pair, upper, lower, delta);
  }

  lemma ExactWeights(s: Scene, weights: seq<nat>)
    requires SceneOk(s) && |weights| == |StackIds(s)| && Normalized(AtLeastOne(weights)) == weights
    ensures var t := WithWeights(s, StackIds(s), weights);
            t.active == s.active && StackWeightsOf(t) == weights && StackIds(t) == StackIds(s)
  {
    WithWeightsIs(s, weights);
  }

  // ------------------------------------------------------------------
  // Swapping tiles

  // The exchange of two ids.
  function Other(source: nat, destination: nat, id: nat): nat {
    if id == source then destination else if id == destination then source else id
  }

  lemma ExchangedLinks(ws: seq<Entry>, a: nat, b: nat)
    requires UniqueIds(ws) && a < |ws| && b < |ws|
    ensures UniqueIds(Exchanged(ws, a, b)) && SameLinks(ws, Exchanged(ws, a, b)) && SameLinks(Exchanged(ws, a, b), ws)
  {
    var vs := Exchanged(ws, a, b);
    assert UniqueIds(vs);
    forall id: nat
      ensures Find(ws, id).Some? == Find(vs, id).Some?
      ensures Find(ws, id).Some? ==> SameLink(Find(ws, id).value, Find(vs, id).value)
    {
      if Find(ws, id).Some? {
        var i :| 0 <= i < |ws| && ws[i] == Find(ws, id).value;
        var j := if i == a then b else if i == b then a else i;
        assert vs[j].id == id && SameLink(ws[i], vs[j]);
        FindUnique(vs, vs[j]);
      }
    }
  }

  lemma ExchangedTiled(ws: seq<Entry>, a: nat, b: nat, i: nat)
    requires UniqueIds(ws) && a < |ws| && b < |ws| && i < |ws|
    requires Tiled(ws, ws[a]) && Tiled(ws, ws[b])
    ensures Tiled(Exchanged(ws, a, b), Exchanged(ws, a, b)[i]) <==> Tiled(ws, ws[i])
  {
    var vs := Exchanged(ws, a, b);
    ExchangedLinks(ws, a, b);
    LinkedHidden(ws, vs, vs[i].id);
    LinkedHidden(vs, ws, vs[i].id);
  }

  ghost predicate SameSlots(before: seq<Entry>, after: seq<Entry>, source: nat, destination: nat) {
    |after| == |before|
    && forall k :: 0 <= k < |before| ==>
         after[k].stackWeight == before[k].stackWeight && after[k].id == Other(source, destination, before[k].id)
  }

  lemma {:induction false} ExchangedTiles(ws: seq<Entry>, a: nat, b: nat, n: nat)
    requires UniqueIds(ws) && a < |ws| && b < |ws| && n <= |ws|
    requires Tiled(ws, ws[a]) && Tiled(ws, ws[b])
    ensures var vs := Exchanged(ws, a, b);
            SameSlots(TilesOf(ws, ws[..n]), TilesOf(vs, vs[..n]), ws[a].id, ws[b].id)
  {
    if n > 0 {
      var vs := Exchanged(ws, a, b);
      ExchangedTiles(ws, a, b, n - 1);
      ExchangedTiled(ws, a, b, n - 1);
      assert ws[..n][..n - 1] == ws[..n - 1] && vs[..n][..n - 1] == vs[..n - 1];
      ExchangedSlot(ws, a, b, n - 1);
      SlotsOn(TilesOf(ws, ws[..n - 1]), TilesOf(vs, vs[..n - 1]), ws[a].id, ws[b].id, ws[n - 1], vs[n - 1],
              Tiled(ws, ws[n - 1]));
    }
  }

  lemma ExchangedSlot(ws: seq<Entry>, a: nat, b: nat, i: nat)
    requires UniqueIds(ws) && a < |ws| && b < |ws| && i < |ws|
    ensures var e := Exchanged(ws, a, b)[i];
            e.stackWeight == ws[i].stackWeight && e.id == Other(ws[a].id, ws[b].id, ws[i].id)
  {
  }

  lemma SlotsOn(before: seq<Entry>, after: seq<Entry>, source: nat, destination: nat, e: Entry, f: Entry, tiled: bool)
    requires SameSlots(before, after, source, destination)
    requires f.stackWeight == e.stackWeight && f.id == Other(source, destination, e.id)
    ensures SameSlots(before + if tiled then [e] else [], after + if tiled then [f] else [], source, destination)
  {
  }

  // Swapping two tiles exchanges their places in the layout and nothing else:
  // every slot keeps its weight, hence its rectangle.
  lemma SwapKeepsSlots(ws: seq<Entry>, source: nat, destination: nat)
    requires UniqueIds(ws) && Find(ws, source).Some? && Find(ws, destination).Some?
    requires Tiled(ws, Find(ws, source).value) && Tiled(ws, Find(ws, destination).value)
    ensures var vs := SwappedTiles(ws, source, destination);
            && UniqueIds(vs) && |TilesOf(vs, vs)| == |TilesOf(ws, ws)|
            && WeightsOf(TilesOf(vs, vs)) == WeightsOf(TilesOf(ws, ws))
            && (forall k :: 0 <= k < |TilesOf(ws, ws)| ==>
                  TilesOf(vs, vs)[k].id == Other(source, destination, TilesOf(ws, ws)[k].id))
  {
    var a, b := IndexOf(ws, source).value, IndexOf(ws, destination).value;
    FindUnique(ws, ws[a]);
    FindUnique(ws, ws[b]);
    ExchangedSlots(ws, a, b);
  }

  lemma ExchangedSlots(ws: seq<Entry>, a: nat, b: nat)
    requires UniqueIds(ws) && a < |ws| && b < |ws| && Tiled(ws, ws[a]) && Tiled(ws, ws[b])
    ensures var vs := Exchanged(ws, a, b);
            && UniqueIds(vs) && SameSlots(TilesOf(ws, ws), TilesOf(vs, vs), ws[a].id, ws[b].id)
            && WeightsOf(TilesOf(vs, vs)) == WeightsOf(TilesOf(ws, ws))
  {
    var vs := Exchanged(ws, a, b);
    assert UniqueIds(vs) by { ExchangedLinks(ws, a, b); }
    assert SameSlots(TilesOf(ws, ws), TilesOf(vs, vs), ws[a].id, ws[b].id) by {
      assert ws[..|ws|] == ws && vs[..|vs|] == vs;
      ExchangedTiles(ws, a, b, |ws|);
    }
    SameSlotWeights(TilesOf(ws, ws), TilesOf(vs, vs), ws[a].id, ws[b].id);
  }

  lemma SameSlotWeights(before: seq<Entry>, after: seq<Entry>, source: nat, destination: nat)
    requires SameSlots(before, after, source, destination)
    ensures WeightsOf(after) == WeightsOf(before)
  {
  }

  lemma IndexAt(ws: seq<Entry>, i: nat)
    requires UniqueIds(ws) && i < |ws|
    ensures IndexOf(ws, ws[i].id) == Some(i)
  {
  }

  lemma SwapTwice(ws: seq<Entry>, source: nat, destination: nat)
    requires UniqueIds(ws)
    ensures SwappedTiles(SwappedTiles(ws, source, destination), source, destination) == ws
  {
    var at, to := IndexOf(ws, source), IndexOf(ws, destination);
    if at.Some? && to.Some? {
      var vs := SwappedTiles(ws, source, destination);
      ExchangedLinks(ws, at.value, to.value);
      IndexAt(vs, to.value);
      IndexAt(vs, at.value);
    }
  }

  // Swapping and mapping from settled weights is the exchange alone, and undone by itself.
  lemma SettledSwap(s: Scene, source: nat, destination: nat)
    requires SceneOk(s) && StackSettled(s)
    requires TiledSlot(s, source) && TiledSlot(s, destination)
    ensures var w := s.workspaces[s.active];
            var t := Swapped(s, source, destination);
            && t == ActiveWith(s, w.(windows := SwappedTiles(w.windows, source, destination)))
            && Swapped(t, source, destination) == s
  {
    var w := s.workspaces[s.active];
    var v := w.(windows := SwappedTiles(w.windows, source, destination));
    var t := ActiveWith(s, v);
    TiledSlotTiled(s, source);
    TiledSlotTiled(s, destination);
    SwapKeepsSlots(w.windows, source, destination);
    assert SceneOk(t);
    SameStackWeights(w.windows, v.windows);
    MappedSettled(t);
    SwapTwice(w.windows, source, destination);
    MappedSettled(s);
    assert t.workspaces[s.active := w] == s.workspaces;
    FoundAfter(w.windows, source, destination);
  }

  lemma SameStackWeights(ws: seq<Entry>, vs: seq<Entry>)
    requires WeightsOf(TilesOf(ws, ws)) == WeightsOf(TilesOf(vs, vs))
    ensures WeightsOf(Stack(ws)) == WeightsOf(Stack(vs))
  {
    var before, after := TilesOf(ws, ws), TilesOf(vs, vs);
    assert |before| == |after|;
    if before != [] {
      assert WeightsOf(before)[1..] == WeightsOf(before[1..]) && WeightsOf(after)[1..] == WeightsOf(after[1..]);
    }
  }

  lemma TileListed(ws: seq<Entry>, id: nat)
    requires UniqueIds(ws)
    ensures id in IdsOf(TilesOf(ws, ws)) <==> Find(ws, id).Some? && Tiled(ws, Find(ws, id).value)
  {
    var tiles := TilesOf(ws, ws);
    if id in IdsOf(tiles) {
      var k :| 0 <= k < |tiles| && IdsOf(tiles)[k] == id;
      assert tiles[k] in tiles;
      FindUnique(ws, tiles[k]);
    }
    if Find(ws, id).Some? && Tiled(ws, Find(ws, id).value) {
      assert Find(ws, id).value in tiles;
      var k :| 0 <= k < |tiles| && tiles[k] == Find(ws, id).value;
      assert IdsOf(tiles)[k] == id;
    }
  }

  ghost predicate IsTile(s: Scene, id: nat)
    requires s.active < |s.workspaces|
  {
    id in IdsOf(TilesOf(s.workspaces[s.active].windows, s.workspaces[s.active].windows))
  }

  // The operation as a whole: the tiles trade places, and the slots' weights are renormalized.
  lemma SwapNormalizes(s: Scene, source: nat, destination: nat)
    requires SceneOk(s) && IsTile(s, source) && IsTile(s, destination)
    ensures var t := Swapped(s, source, destination);
            && SceneOk(t) && IsTile(t, source) && IsTile(t, destination)
            && StackWeightsOf(t) == Normalized(StackWeightsOf(s))
  {
    var w := s.workspaces[s.active];
    var vs := SwappedTiles(w.windows, source, destination);
    TileListed(w.windows, source);
    TileListed(w.windows, destination);
    NormalizedSwap(w.windows, source, destination);
    assert Swapped(s, source, destination).workspaces == s.workspaces[s.active := w.(windows := NormalizedStack(vs))];
  }

  lemma NormalizedSwap(ws: seq<Entry>, source: nat, destination: nat)
    requires UniqueIds(ws) && source in IdsOf(TilesOf(ws, ws)) && destination in IdsOf(TilesOf(ws, ws))
    ensures var us := NormalizedStack(SwappedTiles(ws, source, destination));
            && UniqueIds(us) && source in IdsOf(TilesOf(us, us)) && destination in IdsOf(TilesOf(us, us))
            && WeightsOf(Stack(us)) == Normalized(WeightsOf(Stack(ws)))
  {
    var vs := SwappedTiles(ws, source, destination);
    TileListed(ws, source);
    TileListed(ws, destination);
    SwapKeepsSlots(ws, source, destination);
    SameStackWeights(ws, vs);
    SwappedListed(ws, source, destination);
    NormalizedListed(vs);
  }

  lemma NormalizedListed(vs: seq<Entry>)
    requires UniqueIds(vs)
    ensures var us := NormalizedStack(vs);
            && UniqueIds(us) && IdsOf(TilesOf(us, us)) == IdsOf(TilesOf(vs, vs))
            && WeightsOf(Stack(us)) == Normalized(WeightsOf(Stack(vs)))
  {
    var us := NormalizedStack(vs);
    ReweighedStack(vs, Normalized(WeightsOf(Stack(vs))));
    SameTiles(vs, us, |vs|);
    assert vs[..|vs|] == vs && us[..|us|] == us;
    SameAcyclic(vs, us);
  }

  lemma SwappedListed(ws: seq<Entry>, source: nat, destination: nat)
    requires UniqueIds(ws) && source in IdsOf(TilesOf(ws, ws)) && destination in IdsOf(TilesOf(ws, ws))
    ensures var vs := SwappedTiles(ws, source, destination);
            source in IdsOf(TilesOf(vs, vs)) && destination in IdsOf(TilesOf(vs, vs))
  {
    var vs := SwappedTiles(ws, source, destination);
    TileListed(ws, source);
    TileListed(ws, destination);
    SwapKeepsSlots(ws, source, destination);
    var before, after := IdsOf(TilesOf(ws, ws)), IdsOf(TilesOf(vs, vs));
    var i :| 0 <= i < |before| && before[i] == source;
    var j :| 0 <= j < |before| && before[j] == destination;
    assert after[i] == destination && after[j] == source;
  }

  // Swapping the same tiles again restores everything exactly when the stack's
  // weights were at a fixed point of renormalization.
  lemma SwapIsOwnInverse(s: Scene, source: nat, destination: nat)
    requires SceneOk(s) && Bounded(StackWeightsOf(s)) && TiledSlot(s, source) && TiledSlot(s, destination)
    ensures Swapped(Swapped(s, source, destination), source, destination) == s <==> Settled(StackWeightsOf(s))
  {
    var ws, t := s.workspaces[s.active].windows, Swapped(s, source, destination);
    TiledSlotTiled(s, source);
    TiledSlotTiled(s, destination);
    TileListed(ws, source);
    TileListed(ws, destination);
    SwapNormalizes(s, source, destination);
    SwapNormalizes(t, source, destination);
    var weights := StackWeightsOf(s);
    assert Iterated(weights, 2) == Normalized(Iterated(weights, 1))
           && Iterated(weights, 1) == Normalized(Iterated(weights, 0));
    IteratedReturns(weights, 2);
    if Settled(weights) {
      SettledSwap(s, source, destination);
    }
  }

  lemma {:induction false} AllTiled(all: seq<Entry>, ws: seq<Entry>)
    requires forall e :: e in ws ==> Tiled(all, e)
    ensures TilesOf(all, ws) == ws
  {
    if ws != [] {
      var n := |ws| - 1;
      assert ws == ws[..n] + [ws[n]];
      assert TilesOf(all, ws[..n]) == ws[..n] by { AllTiled(all, ws[..n]); }
      assert ws[n] in ws;
    }
  }

  lemma TiledSlotTiled(s: Scene, id: nat)
    requires SceneOk(s) && TiledSlot(s, id)
    ensures Tiled(s.workspaces[s.active].windows, Find(s.workspaces[s.active].windows, id).value)
  {
    var ws := s.workspaces[s.active].windows;
    OnlyEntry(ws, Find(ws, id).value);
  }

  lemma FoundAfter(ws: seq<Entry>, source: nat, destination: nat)
    requires UniqueIds(ws) && Find(ws, source).Some? && Find(ws, destination).Some?
    ensures Find(SwappedTiles(ws, source, destination), source).Some?
    ensures Find(SwappedTiles(ws, source, destination), destination).Some?
  {
    ExchangedLinks(ws, IndexOf(ws, source).value, IndexOf(ws, destination).value);
  }
}
