// Dragging as operations on the desktop: what pointer motions, cancelled drags
// and dropped tiles do between relayouts.
module DeskDrags {
  import opened Common
  import opened Model
  import opened Stacking
  import opened Tiling
  import opened Visibility
  import opened Focus
  import opened Desk
  import opened Drag

  function SceneOf(d: Desk, screen: Screen): Scene {
    Scene(d.workspaces, d.active, screen)
  }

  // Weights meant for the whole stack may be anything; others were some stack's
  // weights when the drag began.
  ghost predicate Admissible(d: Desk, wish: Wish)
    requires d.active < |d.workspaces|
  {
    wish.Weigh? ==>
      && |wish.ids| == |wish.weights|
      && (wish.ids == IdsOf(Stack(d.workspaces[d.active].windows))
          || forall i :: 0 <= i < |wish.weights| ==> wish.weights[i] <= WEIGHT_UNIT * d.census.peak)
  }

  ghost function WishGranted(d: Desk, screen: Screen, wish: Wish): Desk
    requires Inv(d)
  {
    if Admissible(d, wish) then d.(workspaces := Granted(SceneOf(d, screen), wish).workspaces) else d
  }

  ghost function RatioSet(d: Desk, screen: Screen, ratio: Option<nat>): Desk
    requires Inv(d)
  {
    d.(workspaces := WithRatio(SceneOf(d, screen), ratio).workspaces)
  }

  ghost function TilesSwapped(d: Desk, screen: Screen, source: nat, destination: nat): Desk
    requires Inv(d)
  {
    d.(workspaces := Swapped(SceneOf(d, screen), source, destination).workspaces)
  }

  // ------------------------------------------------------------------
  // They keep the invariant and sound focus

  // A workspace with the same marks and sane weights.
  lemma MarksInv(d: Desk, i: nat, v: Workspace)
    requires Inv(d) && i < |d.workspaces| && SameMarks(d.workspaces[i], v)
             && Weighted(v.windows, WEIGHT_UNIT * d.census.peak)
    ensures Inv(With(d, i, v))
    ensures FocusOk(d) ==> FocusOk(With(d, i, v))
  {
    FrameTidy(d.workspaces[i], v, d.census);
    WithInv(d, i, v);
    if FocusOk(d) && i == d.active {
      SoundByFrame(StageOf(d), v);
    }
  }

  lemma MapInv(d: Desk, v: Workspace)
    requires Inv(d) && SameMarks(d.workspaces[d.active], v) && Weighted(v.windows, WEIGHT_UNIT * d.census.peak)
    ensures var m := v.(windows := NormalizedStack(v.windows));
            && Inv(With(d, d.active, m)) && (FocusOk(d) ==> FocusOk(With(d, d.active, m)))
  {
    FewWindows(d.workspaces[d.active], d.census.alive);
    NormalizedWeighted(v.windows, WEIGHT_UNIT * d.census.peak);
    MarksInv(d, d.active, v.(windows := NormalizedStack(v.windows)));
  }

  lemma RatioSetInv(d: Desk, screen: Screen, ratio: Option<nat>)
    requires Inv(d)
    ensures Inv(RatioSet(d, screen, ratio)) && (FocusOk(d) ==> FocusOk(RatioSet(d, screen, ratio)))
  {
    var w := d.workspaces[d.active];
    var v := w.(masterRatio := if ratio.Some? then Some(Clamp(ratio.value, 1000, 9000)) else None);
    MapInv(d, v);
    MarksInv(d, d.active, v);
    assert d.workspaces[d.active := v][d.active := v.(windows := NormalizedStack(v.windows))]
        == d.workspaces[d.active := v.(windows := NormalizedStack(v.windows))];
  }

  lemma PlacedRectInv(d: Desk, screen: Screen, id: nat, rect: Rect)
    requires Inv(d)
    ensures var r := d.(workspaces := SetFloating(SceneOf(d, screen), id, rect).workspaces);
            Inv(r) && (FocusOk(d) ==> FocusOk(r))
  {
    var at := FloatingEntry(SceneOf(d, screen), id);
    if at.Some? {
      var (home, k) := at.value;
      var v := SetFloating(SceneOf(d, screen), id, rect).workspaces[home];
      forall e | e in v.windows ensures 1 <= e.stackWeight <= WEIGHT_UNIT * d.census.peak {
        var i :| 0 <= i < |v.windows| && v.windows[i] == e;
        assert d.workspaces[home].windows[i] in d.workspaces[home].windows;
      }
      MarksInv(d, home, v);
    }
  }

  // Any weights for the whole stack end up within bounds once they are mapped.
  lemma StackWeighted(w: Workspace, weights: seq<nat>, census: Census)
    requires Tidy(w) && Entries(w, census) && |census.alive| <= census.peak && |weights| == |Stack(w.windows)|
    ensures Weighted(Reweigh(w.windows, IdsOf(Stack(w.windows)), Normalized(AtLeastOne(weights))),
            WEIGHT_UNIT * census.peak)
  {
    var ids, given := IdsOf(Stack(w.windows)), AtLeastOne(weights);
    var vs := Reweigh(w.windows, ids, Normalized(given));
    FewWindows(w, census.alive);
    FewTiles(w.windows, w.windows);
    forall i | 0 <= i < |given| ensures 1 <= Normalized(given)[i] <= WEIGHT_UNIT * census.peak {
      NormalizedCapped(given, i);
    }
    forall e | e in vs ensures 1 <= e.stackWeight <= WEIGHT_UNIT * census.peak {
      var i :| 0 <= i < |vs| && vs[i] == e;
      assert w.windows[i] in w.windows;
    }
  }

  lemma StackWeighedInv(d: Desk, screen: Screen, weights: seq<nat>)
    requires Inv(d) && ScreenOk(screen) && |weights| == |Stack(d.workspaces[d.active].windows)|
    ensures var r := WishGranted(d, screen, Weigh(IdsOf(Stack(d.workspaces[d.active].windows)), weights));
            Inv(r) && (FocusOk(d) ==> FocusOk(r))
  {
    var w := d.workspaces[d.active];
    StackWeighedIs(d, screen, weights);
    StackWeighted(w, weights, d.census);
    MarksInv(d, d.active, StackWeighed(w, weights));
  }

  ghost function StackWeighed(w: Workspace, weights: seq<nat>): Workspace
    requires |weights| == |Stack(w.windows)|
  {
    w.(windows := Reweigh(w.windows, IdsOf(Stack(w.windows)), Normalized(AtLeastOne(weights))))
  }

  lemma StackWeighedIs(d: Desk, screen: Screen, weights: seq<nat>)
    requires Inv(d) && ScreenOk(screen) && |weights| == |Stack(d.workspaces[d.active].windows)|
    ensures var w := d.workspaces[d.active];
            WishGranted(d, screen, Weigh(IdsOf(Stack(w.windows)), weights))
                == With(d, d.active, StackWeighed(w, weights))
  {
    var s, w := SceneOf(d, screen), d.workspaces[d.active];
    var wish := Weigh(IdsOf(Stack(w.windows)), weights);
    assert Granted(s, wish).workspaces == d.workspaces[d.active := StackWeighed(w, weights)] by {
      StackGranted(s, weights);
    }
    assert Admissible(d, wish);
  }

  lemma StackGranted(s: Scene, weights: seq<nat>)
    requires SceneOk(s) && |weights| == |StackIds(s)|
    ensures var w := s.workspaces[s.active];
            Granted(s, Weigh(StackIds(s), weights)).workspaces == s.workspaces[s.active := StackWeighed(w, weights)]
  {
    WithWeightsIs(s, weights);
  }

  lemma SomeWeighedInv(d: Desk, screen: Screen, ids: seq<nat>, weights: seq<nat>)
    requires Inv(d) && |ids| == |weights|
             && forall i :: 0 <= i < |weights| ==> weights[i] <= WEIGHT_UNIT * d.census.peak
    ensures var r := WishGranted(d, screen, Weigh(ids, weights));
            Inv(r) && (FocusOk(d) ==> FocusOk(r))
  {
    var w := d.workspaces[d.active];
    var v := w.(windows := Reweigh(w.windows, ids, AtLeastOne(weights)));
    ReweighWeighted(w, ids, weights, d.census);
    MapInv(d, v);
    assert d.workspaces[d.active := v][d.active := v.(windows := NormalizedStack(v.windows))]
        == d.workspaces[d.active := v.(windows := NormalizedStack(v.windows))];
  }

  lemma ReweighWeighted(w: Workspace, ids: seq<nat>, weights: seq<nat>, census: Census)
    requires Entries(w, census) && |ids| == |weights|
    requires forall i :: 0 <= i < |weights| ==> weights[i] <= WEIGHT_UNIT * census.peak
    ensures Weighted(Reweigh(w.windows, ids, AtLeastOne(weights)), WEIGHT_UNIT * census.peak)
  {
    var vs := Reweigh(w.windows, ids, AtLeastOne(weights));
    forall e | e in vs ensures 1 <= e.stackWeight <= WEIGHT_UNIT * census.peak {
      var i :| 0 <= i < |vs| && vs[i] == e;
      assert w.windows[i] in w.windows;
    }
  }

  lemma WishGrantedInv(d: Desk, screen: Screen, wish: Wish)
    requires Inv(d) && ScreenOk(screen)
    ensures Inv(WishGranted(d, screen, wish)) && (FocusOk(d) ==> FocusOk(WishGranted(d, screen, wish)))
  {
    if Admissible(d, wish) {
      match wish {
        case Nothing =>
        case Place(id, rect) => PlacedRectInv(d, screen, id, rect);
        case Divide(ratio) => RatioSetInv(d, screen, Some(ratio));
        case Weigh(ids, weights) =>
          if ids == IdsOf(Stack(d.workspaces[d.active].windows)) {
            StackWeighedInv(d, screen, weights);
          } else {
            SomeWeighedInv(d, screen, ids, weights);
          }
      }
    }
  }

  // Where a window stands after the exchange.
  function Mirror(a: nat, b: nat, i: nat): nat {
    if i == a then b else if i == b then a else i
  }

  lemma ExchangedMember(ws: seq<Entry>, a: nat, b: nat, e: Entry)
    requires a < |ws| && b < |ws| && e in ws
    ensures exists f :: f in Exchanged(ws, a, b) && f.id == e.id && f.minimized == e.minimized
  {
    var i :| 0 <= i < |ws| && ws[i] == e;
    assert Exchanged(ws, a, b)[Mirror(a, b, i)] in Exchanged(ws, a, b);
  }

  lemma ExchangedFrom(ws: seq<Entry>, a: nat, b: nat, e: Entry)
    requires a < |ws| && b < |ws| && e in Exchanged(ws, a, b)
    ensures exists f :: f in ws && f.id == e.id && f.minimized == e.minimized
    ensures exists f :: f in ws && f.stackWeight == e.stackWeight
  {
    var i :| 0 <= i < |ws| && Exchanged(ws, a, b)[i] == e;
    assert ws[Mirror(a, b, i)] in ws && ws[i] in ws;
  }

  lemma ExchangedEntries(w: Workspace, a: nat, b: nat, census: Census)
    requires Entries(w, census) && a < |w.windows| && b < |w.windows|
    ensures Entries(w.(windows := Exchanged(w.windows, a, b)), census)
  {
    forall e | e in Exchanged(w.windows, a, b) ensures e.id in census.alive
        && 1 <= e.stackWeight <= WEIGHT_UNIT * census.peak {
      ExchangedFrom(w.windows, a, b, e);
    }
  }

  ghost function MinimizedIds(ws: seq<Entry>): set<nat> {
    set e | e in ws && e.minimized :: e.id
  }

  lemma ExchangedIds(ws: seq<Entry>, a: nat, b: nat)
    requires a < |ws| && b < |ws|
    ensures Ids(Exchanged(ws, a, b)) == Ids(ws)
    ensures MinimizedIds(Exchanged(ws, a, b)) == MinimizedIds(ws)
  {
    forall e | e in ws ensures exists f :: f in Exchanged(ws, a, b) && f.id == e.id && f.minimized == e.minimized {
      ExchangedMember(ws, a, b, e);
    }
    forall e | e in Exchanged(ws, a, b) ensures exists f :: f in ws && f.id == e.id && f.minimized == e.minimized {
      ExchangedFrom(ws, a, b, e);
    }
  }

  lemma ExchangedTidy(w: Workspace, a: nat, b: nat, census: Census)
    requires Tidy(w) && Entries(w, census) && a < |w.windows| && b < |w.windows|
    ensures var v := w.(windows := Exchanged(w.windows, a, b));
            Tidy(v) && Entries(v, census) && Ids(v.windows) == Ids(w.windows)
  {
    ExchangedLinks(w.windows, a, b);
    ExchangedIds(w.windows, a, b);
    ExchangedEntries(w, a, b, census);
    assert forall id :: id in w.minimizedHistory <==> id in MinimizedIds(w.windows);
  }

  lemma ExchangedSound(s: Stage, a: nat, b: nat)
    requires UniqueIds(s.w.windows) && FocusSound(s) && a < |s.w.windows| && b < |s.w.windows|
    ensures FocusSound(Stage(s.w.(windows := Exchanged(s.w.windows, a, b)), s.focus))
  {
    var v := s.w.(windows := Exchanged(s.w.windows, a, b));
    ExchangedLinks(s.w.windows, a, b);
    assert forall x :: ShownId(s.w.windows, x) <==> ShownId(v.windows, x) by {
      LinkedExclusive(s.w, v);
    }
    assert s.focus.Some? ==> Visible(v, s.focus.value) by {
      if s.focus.Some? {
        ExchangedVisible(s.w, a, b, s.focus.value);
      }
    }
    SoundByShown(s, v);
  }

  lemma ExchangedVisible(w: Workspace, a: nat, b: nat, id: nat)
    requires UniqueIds(w.windows) && a < |w.windows| && b < |w.windows| && Visible(w, id)
    ensures Visible(w.(windows := Exchanged(w.windows, a, b)), id)
  {
    ExchangedLinks(w.windows, a, b);
    if Floating(w.windows, id) {
      ExchangedFloats(w.windows, a, b, id);
    }
    LinkedVisible(w, w.(windows := Exchanged(w.windows, a, b)), id);
  }

  lemma ExchangedFloats(ws: seq<Entry>, a: nat, b: nat, id: nat)
    requires UniqueIds(ws) && a < |ws| && b < |ws| && Floating(ws, id)
    ensures Floating(Exchanged(ws, a, b), id)
  {
    var vs := Exchanged(ws, a, b);
    ExchangedLinks(ws, a, b);
    var i :| 0 <= i < |ws| && ws[i] == Find(ws, id).value;
    FindUnique(vs, vs[if i == a then b else if i == b then a else i]);
  }

  lemma TilesSwappedInv(d: Desk, screen: Screen, source: nat, destination: nat)
    requires Inv(d)
    ensures var r := TilesSwapped(d, screen, source, destination);
            Inv(r) && (FocusOk(d) ==> FocusOk(r))
  {
    var w := d.workspaces[d.active];
    var a, b := IndexOf(w.windows, source), IndexOf(w.windows, destination);
    if a.Some? && b.Some? {
      assert w.windows[a.value] in w.windows && w.windows[b.value] in w.windows;
      var v := w.(windows := Exchanged(w.windows, a.value, b.value));
      assert Inv(With(d, d.active, v)) by {
        ExchangedTidy(w, a.value, b.value, d.census);
        WithInv(d, d.active, v);
      }
      if FocusOk(d) {
        ExchangedSound(StageOf(d), a.value, b.value);
      }
      MapInv(With(d, d.active, v), v);
      SwappedIs(d, screen, source, destination, v);
    }
  }

  lemma SwappedIs(d: Desk, screen: Screen, source: nat, destination: nat, v: Workspace)
    requires Inv(d)
    requires var w := d.workspaces[d.active]; var a, b := IndexOf(w.windows, source), IndexOf(w.windows, destination);
             a.Some? && b.Some? && v == w.(windows := Exchanged(w.windows, a.value, b.value))
    ensures TilesSwapped(d, screen, source, destination)
         == With(With(d, d.active, v), d.active, v.(windows := NormalizedStack(v.windows)))
  {
    assert d.workspaces[d.active].windows[IndexOf(d.workspaces[d.active].windows, source).value]
        in d.workspaces[d.active].windows;
    assert d.workspaces[d.active].windows[IndexOf(d.workspaces[d.active].windows, destination).value]
        in d.workspaces[d.active].windows;
  }

  // ------------------------------------------------------------------
  // They are what a pointer does

  // A motion in context grants its wish.
  lemma MotionIsWish(d: Desk, screen: Screen, drag: Interaction, at: Point, over: Option<nat>)
    requires Inv(d) && ScreenOk(screen) && OperationOk(drag.operation) && Undisturbed(SceneOf(d, screen), drag)
    ensures Step(SceneOf(d, screen), Some(drag), at, over).0
         == SceneOf(WishGranted(d, screen, Wished(screen, drag, at)), screen)
  {
    if drag.operation.DragStack? {
      StackOfContext(SceneOf(d, screen), drag.operation.context);
    }
  }

  // Cancelling on the drag's own workspace grants what it began with.
  lemma CancelIsWish(d: Desk, screen: Screen, drag: Interaction)
    requires Inv(d) && ScreenOk(screen) && OperationOk(drag.operation) && drag.workspace == d.active
    ensures SceneOf(match drag.operation
                    case DragFloating(id, geometry, _) => WishGranted(d, screen, Place(id, geometry))
                    case DragTile(_, _) => d
                    case DragMaster(_, initial, _) => RatioSet(d, screen, initial)
                    case DragStack(_, ids, weights, _, _, _) => WishGranted(d, screen, Weigh(ids, weights)),
                    screen) == Finished(SceneOf(d, screen), drag, false)
            || (drag.operation.DragStack? && !Admissible(d, Weigh(drag.operation.ids, drag.operation.weights)))
  {
  }

  // Dropping a tile on another swaps them.
  lemma DropIsSwap(d: Desk, screen: Screen, drag: Interaction)
    requires Inv(d) && ScreenOk(screen) && drag.operation.DragTile? && drag.moved && drag.operation.destination.Some?
    ensures Finished(SceneOf(d, screen), drag, true)
         == SceneOf(TilesSwapped(d, screen, drag.operation.window, drag.operation.destination.value), screen)
  {
  }
}
