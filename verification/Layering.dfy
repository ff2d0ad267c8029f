// The layers of the drawing order, and the order of tiles.
module Layering {
  import opened Common
  import opened Model
  import opened ParentGraph
  import opened Stacking
  import opened Sifting
  import opened Visibility

  predicate Expanded(w: Workspace, id: nat) {
    w.fullscreen == Some(id) || w.maximized == Some(id)
  }

  // Tiles lie below expanded windows, and both below the other floating ones.
  lemma LayersStack(w: Workspace, a: nat, b: nat)
    requires UniqueIds(w.windows) && Find(w.windows, a).Some? && Find(w.windows, b).Some? && !Expanded(w, a)
    ensures !Floating(w.windows, a) && (Expanded(w, b) || Floating(w.windows, b)) ==> DrawnBefore(w, a, b)
    ensures Floating(w.windows, a) && Expanded(w, b) ==> DrawnBefore(w, b, a)
  {
    InLayer(w, a);
    InLayer(w, b);
  }

  // Where a window is found in the drawing order.
  lemma InLayer(w: Workspace, id: nat)
    requires UniqueIds(w.windows) && Find(w.windows, id).Some?
    ensures var p, tiles, expanded := Pos(LayoutOrder(w), id), |LayerIds(w, w.windows, 0)|,
                                     |LayerIds(w, w.windows, 1)|;
            if Expanded(w, id) then tiles <= p < tiles + expanded
            else if Floating(w.windows, id) then tiles + expanded <= p
            else p < tiles
  {
    var tiles, expanded := LayerIds(w, w.windows, 0), LayerIds(w, w.windows, 1);
    var floats := SortByPath(w.windows, LayerIds(w, w.windows, 2));
    LayerMember(w, id, 0);
    LayerMember(w, id, 1);
    LayerMember(w, id, 2);
    PosConcat(tiles + expanded, floats, id);
    PosConcat(tiles, expanded, id);
  }

  ghost function LayerMarks(w: Workspace, ws: seq<Entry>, layer: nat): (r: seq<bool>)
    ensures |r| == |ws| && forall i :: 0 <= i < |ws| ==> r[i] == (Layer(w, ws[i]) == layer)
  {
    seq(|ws|, i requires 0 <= i < |ws| => Layer(w, ws[i]) == layer)
  }

  lemma {:induction false} LayerSifts(w: Workspace, ws: seq<Entry>, layer: nat)
    ensures Sifted(LayerIds(w, ws, layer), IdsOf(ws), LayerMarks(w, ws, layer))
  {
    if ws == [] {
      SiftedNothing<nat>();
    } else {
      LayerSifts(w, ws[1..], layer);
      assert IdsOf(ws)[1..] == IdsOf(ws[1..]);
      assert LayerMarks(w, ws, layer)[1..] == LayerMarks(w, ws[1..], layer);
      SiftedOn(LayerIds(w, ws[1..], layer), IdsOf(ws), LayerMarks(w, ws, layer));
    }
  }

  ghost predicate Unfloating(w: Workspace, marks: seq<bool>) {
    |marks| == |w.windows|
    && forall i :: 0 <= i < |marks| ==>
         marks[i] == (w.windows[i].floating.None? && !Expanded(w, w.windows[i].id))
  }

  // The drawing order begins with the tiles as they are laid out.
  lemma TilesFirst(w: Workspace)
    ensures exists tiles, marks ::
              tiles <= LayoutOrder(w) && Unfloating(w, marks) && Sifted(tiles, IdsOf(w.windows), marks)
  {
    var tiles := LayerIds(w, w.windows, 0);
    LayerSifts(w, w.windows, 0);
    assert Unfloating(w, LayerMarks(w, w.windows, 0));
    assert tiles <= LayoutOrder(w);
  }

  // Of two floating siblings the one that stays on top is above, else the one
  // with the higher rank, else the younger one.
  lemma SiblingsOrder(w: Workspace, a: nat, b: nat)
    requires UniqueIds(w.windows) && Acyclic(w.windows)
    requires Floating(w.windows, a) && Floating(w.windows, b) && !Expanded(w, a) && !Expanded(w, b)
    requires FloatingParent(w.windows, a) == FloatingParent(w.windows, b)
    ensures var e, f := Find(w.windows, a).value, Find(w.windows, b).value;
            DrawnBefore(w, a, b)
            <==> (!e.stayOnTop && f.stayOnTop)
                 || (e.stayOnTop == f.stayOnTop
                     && (e.stackingOrder < f.stackingOrder || (e.stackingOrder == f.stackingOrder && a < b)))
  {
    var ws := w.windows;
    var e, f, above := Find(ws, a).value, Find(ws, b).value, FloatingParent(ws, a);
    PathUnfold(ws, a);
    PathUnfold(ws, b);
    LayerMember(w, a, 2);
    LayerMember(w, b, 2);
    FloatingOrder(w, a, b);
    LastKey(if above.Some? then Path(ws, above.value) else [], KeyOf(e), KeyOf(f));
  }

  function FloatingParent(ws: seq<Entry>, id: nat): Option<nat> {
    match ParentOf(ws, id)
    case Some(p) => if Floating(ws, p) then Some(p) else None
    case None => None
  }

  lemma {:induction false} LastKey(p: seq<Key>, x: Key, y: Key)
    ensures PathLess(p + [x], p + [y]) <==> KeyLess(x, y)
  {
    if p != [] {
      LastKey(p[1..], x, y);
      assert (p + [x])[1..] == p[1..] + [x] && (p + [y])[1..] == p[1..] + [y];
    }
  }

  // ------------------------------------------------------------------
  // Tiles

  ghost function TiledMarks(all: seq<Entry>, ws: seq<Entry>): (r: seq<bool>)
    ensures |r| == |ws| && forall i :: 0 <= i < |ws| ==> r[i] == Tiled(all, ws[i])
  {
    seq(|ws|, i requires 0 <= i < |ws| => Tiled(all, ws[i]))
  }

  // The tiles are the shown windows that do not float, as they are laid out.
  lemma {:induction false} TilesSift(all: seq<Entry>, ws: seq<Entry>)
    ensures Sifted(TilesOf(all, ws), ws, TiledMarks(all, ws))
  {
    if ws == [] {
      SiftedNothing<Entry>();
    } else {
      var front, last := ws[..|ws| - 1], ws[|ws| - 1];
      TilesSift(all, front);
      SiftedSnoc(TilesOf(all, front), front, TiledMarks(all, front), last, Tiled(all, last));
      assert ws == front + [last];
      assert TiledMarks(all, ws) == TiledMarks(all, front) + [Tiled(all, last)];
    }
  }
}
