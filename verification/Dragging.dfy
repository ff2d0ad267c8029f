// The interaction that a pointer drags through the desktop, in place.
module Dragging {
  import opened Common
  import opened Model
  import opened Stacking
  import opened Raising
  import opened Tiling
  import opened Geometry
  import opened Visibility
  import opened Drag
  import Desk

  class Pointer {
    var workspaces: seq<Workspace>
    var active: nat
    var screen: Screen
    var interaction: Option<Interaction>

    ghost function State(): Scene
      reads this
    {
      Scene(workspaces, active, screen)
    }

    ghost predicate Valid()
      reads this
    {
      SceneOk(State()) && (interaction.Some? ==> OperationOk(interaction.value.operation))
    }

    constructor (workspaces: seq<Workspace>, active: nat, screen: Screen)
      requires SceneOk(Scene(workspaces, active, screen))
      ensures Valid() && State() == Scene(workspaces, active, screen) && interaction.None?
    {
      this.workspaces, this.active, this.screen, this.interaction := workspaces, active, screen, None;
    }

    // ----------------------------------------------------------------
    // Reading

    method SplitContextHere() returns (r: Option<Context>)
      requires SceneOk(State())
      ensures r == SplitContext(State())
      ensures r.Some? ==>
                && r.value.workspace == active && LeavesGaps(screen, r.value.area) && |r.value.windows| >= 2
                && r.value.area.w >= 10 && r.value.area.h >= 1 && Exclusive(workspaces[active]).None?
    {
      var w, area := workspaces[active], TiledArea(screen);
      if area.w < 10 || area.h < 1 {
        return None;
      }
      var fullscreen := ShownOwner(w, w.fullscreen);
      var maximized := ShownOwner(w, w.maximized);
      if fullscreen.Some? || maximized.Some? {
        return None;
      }
      var tiles := TiledEntries(w.windows);
      r := if |tiles| >= 2 then Some(Context(active, area, IdsOf(tiles))) else None;
    }

    method IsTiledSlot(id: nat) returns (r: bool)
      requires SceneOk(State())
      ensures r == TiledSlot(State(), id)
    {
      var w := workspaces[active];
      var visible := IsVisible(w, id);
      var entry := Find(w.windows, id);
      r := visible && w.fullscreen != Some(id) && w.maximized != Some(id) && entry.Some? && entry.value.floating.None?;
    }

    method IsLive(op: Operation) returns (r: bool)
      requires SceneOk(State())
      ensures r == Live(State(), op)
    {
      match op {
        case DragFloating(id, _, _) => r := FloatingEntry(Scene(workspaces, active, screen), id).Some?;
        case DragTile(id, _) => r := IsTiledSlot(id);
        case DragMaster(context, _, _) =>
          var here := SplitContextHere();
          r := here == Some(context);
        case DragStack(context, _, _, _, _, _) =>
          var here := SplitContextHere();
          r := here == Some(context);
      }
    }

    // ----------------------------------------------------------------
    // Changing the workspace

    method MapActiveWorkspace()
      requires SceneOk(State())
      modifies this`workspaces
      ensures State() == Mapped(old(State()))
    {
      var w := workspaces[active];
      var windows := NormalizeStack(w.windows);
      workspaces := workspaces[active := w.(windows := windows)];
    }

    method SetFloatingGeometry(id: nat, rect: Rect)
      requires SceneOk(State())
      modifies this`workspaces
      ensures State() == SetFloating(old(State()), id, rect) && SceneOk(State())
    {
      GrantedKeepsOrder(State(), Place(id, rect));
      KeepsSceneOk(State(), SetFloating(State(), id, rect));
      var at := FloatingEntry(Scene(workspaces, active, screen), id);
      if at.None? {
        return;
      }
      var (home, k) := at.value;
      var w, hints := workspaces[home], HintsOf(screen, id);
      var e := w.windows[k].(floating := Some(Constrain(rect, screen.output, hints.0, hints.1)));
      workspaces := workspaces[home := w.(windows := w.windows[k := e])];
    }

    method ApplyMasterRatio(ratio: Option<nat>)
      requires SceneOk(State())
      modifies this`workspaces
      ensures State() == WithRatio(old(State()), ratio) && SceneOk(State())
    {
      ghost var s := State();
      RatioKeepsOrder(s, ratio);
      KeepsSceneOk(s, WithRatio(s, ratio));
      var before := MasterRatio(Scene(workspaces, active, screen));
      var clamped := if ratio.Some? then Some(Clamp(ratio.value, 1000, 9000)) else None;
      workspaces := workspaces[active := workspaces[active].(masterRatio := clamped)];
      assert State() == ActiveWith(s, s.workspaces[active].(masterRatio := clamped));
      if MasterRatio(Scene(workspaces, active, screen)) != before {
        MapActiveWorkspace();
      }
    }

    method ApplyStackWeights(ids: seq<nat>, weights: seq<nat>)
      requires SceneOk(State()) && |ids| == |weights|
      modifies this`workspaces
      ensures State() == WithWeights(old(State()), ids, weights) && SceneOk(State())
    {
      ghost var s := State();
      GrantedKeepsOrder(s, Weigh(ids, weights));
      KeepsSceneOk(s, WithWeights(s, ids, weights));
      var w := workspaces[active];
      var windows := AssignWeights(w.windows, ids, weights);
      SameAcyclic(w.windows, windows);
      workspaces := workspaces[active := w.(windows := windows)];
      assert State() == ActiveWith(s, w.(windows := windows));
      MapActiveWorkspace();
    }

    method SwapTiles(source: nat, destination: nat)
      requires SceneOk(State())
      modifies this`workspaces
      ensures State() == Swapped(old(State()), source, destination)
    {
      ghost var s := State();
      var w := workspaces[active];
      var a, b := IndexOf(w.windows, source), IndexOf(w.windows, destination);
      if a.Some? && b.Some? {
        assert w.windows[a.value] in w.windows && w.windows[b.value] in w.windows;
        ExchangedLinks(w.windows, a.value, b.value);
        var windows := w.windows[a.value := w.windows[b.value]][b.value := w.windows[a.value]];
        windows := windows[a.value := windows[a.value].(stackWeight := w.windows[a.value].stackWeight)];
        windows := windows[b.value := windows[b.value].(stackWeight := w.windows[b.value].stackWeight)];
        assert windows == Exchanged(w.windows, a.value, b.value);
        workspaces := workspaces[active := w.(windows := windows)];
        assert State() == ActiveWith(s, w.(windows := SwappedTiles(w.windows, source, destination)));
        MapActiveWorkspace();
      }
    }

    // ----------------------------------------------------------------
    // The interaction

    // A motion in context changes the workspace as the drag wishes; out of
    // context it cancels. The pointer's tile, if any, is an input.
    method InteractionMotion(at: Point, over: Option<nat>)
      requires Valid()
      modifies this`workspaces, this`interaction
      ensures Valid()
      ensures (State(), interaction) == Step(old(State()), old(interaction), at, over)
    {
      if interaction.None? {
        return;
      }
      var drag := interaction.value;
      StepKeepsOrder(State(), drag, at, over);
      var live := IsLive(drag.operation);
      if drag.workspace != active || drag.area != screen.usable || drag.output != screen.output || !live {
        FinishWindowInteraction(false);
        return;
      }
      drag := drag.(delta := DeltaOf(drag.start, at), moved := MovedBy(drag.start, drag.moved, at));
      if drag.operation.DragTile? {
        var destination := FindLanding(drag.operation.window, over);
        drag := drag.(operation := drag.operation.(destination := destination));
      } else {
        Pursue(drag.operation, drag.delta, drag.moved, at);
      }
      interaction := Some(drag);
    }

    // Change the workspace as the drag wishes.
    method Pursue(op: Operation, delta: (int, int), moved: bool, at: Point)
      requires SceneOk(State()) && OperationOk(op) && !op.DragTile?
      modifies this`workspaces
      ensures State() == Granted(old(State()), WishOf(screen, op, delta, moved, at))
    {
      match op {
        case DragFloating(id, geometry, edges) =>
          if moved {
            SetFloatingGeometry(id, DraggedRect(screen, geometry, edges, id, delta));
          }
        case DragMaster(context, _, offset) =>
          ApplyMasterRatio(Some(RatioAt(context, offset, at.0)));
        case DragStack(_, ids, weights, pair, upper, lower) =>
          var next := MoveDivider(weights, pair, upper, lower, delta.1);
          ApplyStackWeights(ids, next);
      }
    }

    method FindLanding(id: nat, over: Option<nat>) returns (r: Option<nat>)
      requires SceneOk(State())
      ensures r == Landing(State(), id, over)
    {
      r := None;
      if over.Some? && over.value != id {
        var slot := IsTiledSlot(over.value);
        r := if slot then over else None;
      }
    }

    method FinishWindowInteraction(commit: bool)
      requires Valid()
      modifies this`workspaces, this`interaction
      ensures interaction.None?
      ensures State() == if old(interaction).Some? then Finished(old(State()), old(interaction).value, commit)
              else old(State())
      ensures !commit ==> Valid()
    {
      if interaction.None? {
        return;
      }
      var drag := interaction.value;
      if !commit {
        CancelKeepsOrder(State(), drag);
      }
      interaction := None;
      var undo := !commit && drag.workspace == active;
      match drag.operation {
        case DragFloating(id, geometry, _) =>
          if undo {
            SetFloatingGeometry(id, geometry);
          }
        case DragTile(id, destination) =>
          if commit && drag.moved && destination.Some? {
            SwapTiles(id, destination.value);
          }
        case DragMaster(_, initial, _) =>
          if undo {
            ApplyMasterRatio(initial);
          }
        case DragStack(_, ids, weights, _, _, _) =>
          if undo {
            ApplyStackWeights(ids, weights);
          }
      }
    }

    // ----------------------------------------------------------------
    // Starting, and a drag as a whole

    // A floating window is moved or resized; a tile is moved, or resized by its split.
    method BeginWindowDrag(id: nat, resize: bool, edges: Option<ResizeEdges>, at: Point) returns (ok: bool)
      requires Valid() && interaction.None?
      requires Find(workspaces[active].windows, id).Some? ==> Desk.WorkspaceOf(workspaces, id) == Some(active)
      modifies this`interaction
      ensures Valid() && ok == interaction.Some?
      ensures ok ==> Undisturbed(State(), interaction.value) && !interaction.value.moved
      ensures ok && StackSettled(State()) ==> Fresh(State(), interaction.value)
      ensures ok ==> Takes(State(), id, resize, edges, at, interaction.value.operation)
      ensures ok ==> interaction.value.start == at
      ensures ok <==> Visible(workspaces[active], id) && workspaces[active].fullscreen != Some(id)
                      && workspaces[active].maximized != Some(id)
                      && (FloatingGeometry(State(), id).Some? || !resize || SplitContext(State()).Some?)
    {
      var w := workspaces[active];
      var visible := IsVisible(w, id);
      if !visible || w.fullscreen == Some(id) || w.maximized == Some(id) {
        return false;
      }
      VisibleEntry(w, id);
      var geometry := FloatingGeometry(Scene(workspaces, active, screen), id);
      var operation;
      if geometry.Some? {
        NearestHeld(geometry.value, at);
        operation := DragFloating(id, geometry.value,
                                  if !resize then None
                                  else if edges.Some? then edges else Some(NearestEdges(geometry.value, at)));
      } else if !resize {
        NotFloating(State(), id);
        operation := DragTile(id, None);
      } else {
        var context := SplitContextHere();
        if context.None? {
          return false;
        }
        var divider :=
            context.value.area.x + MasterWidth(context.value.area.w, MasterRatio(Scene(workspaces, active, screen)));
        operation := DragMaster(context.value, w.masterRatio, at.0 - divider as real);
      }
      interaction := Some(Interaction(operation, at, active, screen.usable, screen.output, (0, 0), false));
      ok := true;
    }

    // The divider below the given stack slot, with the heights of the two slots it parts.
    method BeginStackDrag(pair: nat, at: Point) returns (ok: bool)
      requires Valid() && interaction.None?
      requires Positive(StackWeightsOf(State())) && WEIGHT_UNIT * |StackWeightsOf(State())| <= U32_MAX
      modifies this`interaction
      ensures Valid() && ok == interaction.Some?
      ensures ok ==> Fresh(State(), interaction.value) && interaction.value.operation.DragStack?
      ensures ok ==> var op := interaction.value.operation;
                     && op.pair == pair && pair + 1 < |op.weights|
                     && op.upper
                        == Cut(op.context.area.h, op.weights, pair + 1) - Cut(op.context.area.h, op.weights, pair)
                     && op.lower
                        == Cut(op.context.area.h, op.weights, pair + 2) - Cut(op.context.area.h, op.weights, pair + 1)
    {
      var context := SplitContextHere();
      if context.None? || |context.value.windows| < 3 || pair + 2 >= |context.value.windows| {
        return false;
      }
      StackOfContext(State(), context.value);
      var ids, weights := StackWeights(workspaces[active].windows);
      var heights := WeightedHeights(context.value.area.h, weights);
      if heights[pair] + heights[pair + 1] < 2 {
        return false;
      }
      var operation := DragStack(context.value, ids, weights, pair, heights[pair], heights[pair + 1]);
      interaction := Some(Interaction(operation, at, active, screen.usable, screen.output, (0, 0), false));
      ok := true;
    }

    // An undisturbed drag leaves what its last motion asked for; a cancelled one
    // leaves everything as it was exactly when the drag was restorable.
    method Drag(moves: seq<(Point, Option<nat>)>, commit: bool)
      requires Valid() && interaction.Some? && Fresh(State(), interaction.value)
      modifies this`workspaces, this`interaction
      ensures interaction.None?
      ensures !commit ==> (State() == old(State()) <==> Restorable(old(State()), old(interaction).value))
      ensures commit && moves != [] ==>
                var s, d := old(State()),
                    old(interaction).value.(moved := EverMoved(old(interaction).value, moves[..|moves| - 1]));
                var (at, over) := moves[|moves| - 1];
                State() == if d.operation.DragTile? then Finished(s, MovedInteraction(s, d, at, over), true)
                           else MovedScene(s, d, at)
    {
      ghost var s, d := State(), interaction.value;
      for i := 0 to |moves|
        invariant Valid() && (State(), interaction) == Run(s, Some(d), moves[..i])
      {
        assert moves[..i + 1][..i] == moves[..i];
        InteractionMotion(moves[i].0, moves[i].1);
      }
      assert moves[..|moves|] == moves;
      CancelUndoes(s, d, moves);
      if moves != [] {
        LastMotionDecides(s, d, moves);
      }
      FinishWindowInteraction(commit);
    }
  }

  lemma VisibleEntry(w: Workspace, id: nat)
    requires UniqueIds(w.windows) && Visible(w, id)
    ensures Find(w.windows, id).Some? && IndexOf(w.windows, id).Some? && !Find(w.windows, id).value.minimized
  {
    OnlyEntry(w.windows, Find(w.windows, id).value);
  }

  lemma NotFloating(s: Scene, id: nat)
    requires SceneOk(s) && Desk.WorkspaceOf(s.workspaces, id) == Some(s.active) && FloatingEntry(s, id).None?
    requires Visible(s.workspaces[s.active], id)
    requires s.workspaces[s.active].fullscreen != Some(id) && s.workspaces[s.active].maximized != Some(id)
    ensures TiledSlot(s, id)
  {
    var w := s.workspaces[s.active];
    VisibleEntry(w, id);
    OnlyEntry(w.windows, w.windows[IndexOf(w.windows, id).value]);
  }

  // The usable area, less the outer gaps where tiles have them and they fit.
  ghost predicate LeavesGaps(screen: Screen, area: Rect) {
    var usable, outer := screen.usable, screen.look.outer;
    if !screen.look.tiledGaps then area == usable
    else
      && Inside(area, usable)
      && (outer.left + outer.right < usable.w ==>
            area.x == usable.x + outer.left && area.x + area.w == usable.x + usable.w - outer.right)
      && (outer.top + outer.bottom < usable.h ==>
            area.y == usable.y + outer.top && area.y + area.h == usable.y + usable.h - outer.bottom)
  }

  // What a drag takes hold of: a floating window as it is shown, by the given edges
  // or the nearest ones if it is to be resized; a tile; or the master split, where
  // it is, at some way from the pointer.
  ghost predicate Takes(s: Scene, id: nat, resize: bool, edges: Option<ResizeEdges>, at: Point, op: Operation)
    requires SceneOk(s)
  {
    if FloatingGeometry(s, id).Some? then
      && op.DragFloating? && op.window == id && Some(op.geometry) == FloatingGeometry(s, id)
      && (op.edges.Some? <==> resize)
      && (resize && edges.Some? ==> op.edges == edges)
      && (resize && edges.None? ==> HoldsNearest(op.geometry, at, op.edges.value))
    else if !resize then op == DragTile(id, None)
    else
      && op.DragMaster? && Some(op.context) == SplitContext(s) && op.initial == s.workspaces[s.active].masterRatio
      && (op.context.area.x + MasterWidth(op.context.area.w, MasterRatio(s))) as real + op.offset == at.0
  }

  function Distance(a: real, b: int): real {
    if a < b as real then b as real - a else a - b as real
  }

  // On either axis the edge that is held is no farther from the pointer than the other one.
  ghost predicate HoldsNearest(rect: Rect, at: Point, edges: ResizeEdges) {
    && edges.left != edges.right && edges.top != edges.bottom
    && (rect.w >= 0 ==>
          if edges.left then Distance(at.0, rect.x) <= Distance(at.0, rect.x + rect.w)
          else Distance(at.0, rect.x + rect.w) <= Distance(at.0, rect.x))
    && (rect.h >= 0 ==>
          if edges.top then Distance(at.1, rect.y) <= Distance(at.1, rect.y + rect.h)
          else Distance(at.1, rect.y + rect.h) <= Distance(at.1, rect.y))
  }

  lemma NearestHeld(rect: Rect, at: Point)
    ensures HoldsNearest(rect, at, NearestEdges(rect, at))
  {
  }

  // The corner of the quadrant under the pointer.
  function NearestEdges(rect: Rect, at: Point): ResizeEdges {
    var left, top := at.0 < rect.x as real + rect.w as real / 2.0, at.1 < rect.y as real + rect.h as real / 2.0;
    ResizeEdges(left, !left, top, !top)
  }

  lemma RatioKeepsOrder(s: Scene, ratio: Option<nat>)
    requires SceneOk(s)
    ensures SameForests(s, WithRatio(s, ratio))
  {
  }

  // The pair's weight is shared anew in proportion to the requested heights.
  method MoveDivider(weights: seq<nat>, pair: nat, upper: int, lower: int, delta: int) returns (next: seq<nat>)
    requires pair + 1 < |weights| && upper + lower >= 2 && weights[pair] + weights[pair + 1] >= 2
    ensures next == DraggedWeights(weights, pair, upper, lower, delta)
  {
    next := weights;
    var total := weights[pair] + weights[pair + 1];
    var first := Clamp(total * RequestedHeight(upper, lower, delta) / (upper + lower), 1, total - 1);
    next := next[pair := first];
    next := next[pair + 1 := total - first];
  }

  method AssignWeights(ws: seq<Entry>, ids: seq<nat>, weights: seq<nat>) returns (r: seq<Entry>)
    requires |ids| == |weights|
    ensures r == Reweigh(ws, ids, AtLeastOne(weights))
  {
    r := ws;
    ghost var given := AtLeastOne(weights);
    for i := 0 to |ws|
      invariant |r| == |ws|
      invariant forall k :: i <= k < |ws| ==> r[k] == ws[k]
      invariant forall k :: 0 <= k < i ==> r[k] == Reweigh(ws, ids, given)[k]
    {
      if r[i].id in ids {
        r := r[i := r[i].(stackWeight := Max(weights[Pos(ids, r[i].id)], 1))];
      }
    }
  }
}
