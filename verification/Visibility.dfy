// Which windows of a workspace show, and which of them share the tiled stack.
module Visibility {
  import opened Common
  import opened Model
  import opened ParentGraph
  import opened Stacking
  import opened Raising
  import opened Tiling

  // Neither minimized nor behind a minimized ancestor.
  ghost predicate Shown(ws: seq<Entry>, e: Entry) {
    !e.minimized && !Hidden(ws, e.id)
  }

  ghost predicate ShownId(ws: seq<Entry>, id: nat) {
    exists e :: e in ws && e.id == id && Shown(ws, e)
  }

  ghost function Owner(w: Workspace, owner: Option<nat>): Option<nat> {
    if owner.Some? && ShownId(w.windows, owner.value) then owner else None
  }

  // The expanded window that covers the workspace; fullscreen wins.
  ghost function Exclusive(w: Workspace): Option<nat> {
    if Owner(w, w.fullscreen).Some? then Owner(w, w.fullscreen) else Owner(w, w.maximized)
  }

  ghost predicate Visible(w: Workspace, id: nat) {
    exists e :: e in w.windows && e.id == id && Shown(w.windows, e)
      && (Exclusive(w).None? || Exclusive(w).value == id
          || (e.floating.Some? && Reaches(w.windows, id, Exclusive(w).value)))
  }

  // Something is visible whenever anything is left unminimized.
  lemma SomethingVisible(w: Workspace, id: nat)
    requires ShownId(w.windows, id)
    ensures Exclusive(w).Some? ==> Visible(w, Exclusive(w).value)
    ensures Exclusive(w).None? ==> Visible(w, id)
  {
  }

  lemma SameShown(ws: seq<Entry>, vs: seq<Entry>, id: nat)
    requires SameForest(ws, vs)
    ensures ShownId(ws, id) ==> ShownId(vs, id)
  {
    SameNodes(vs, ws);
    if e :| e in ws && e.id == id && Shown(ws, e) {
      SameMembers(ws, vs, e);
      if Hidden(vs, id) {
        SameHidden(vs, ws, id);
      }
    }
  }

  lemma SameVisible(w: Workspace, v: Workspace, id: nat)
    requires SameForest(w.windows, v.windows) && w.fullscreen == v.fullscreen && w.maximized == v.maximized
    ensures Visible(w, id) <==> Visible(v, id)
    ensures ShownId(w.windows, id) <==> ShownId(v.windows, id)
  {
    SameNodes(v.windows, w.windows);
    SameVisibleOneWay(w, v, id);
    SameVisibleOneWay(v, w, id);
    SameShown(w.windows, v.windows, id);
    SameShown(v.windows, w.windows, id);
  }

  lemma SameExclusive(w: Workspace, v: Workspace)
    requires SameForest(w.windows, v.windows) && w.fullscreen == v.fullscreen && w.maximized == v.maximized
    ensures Exclusive(w) == Exclusive(v)
  {
    SameNodes(v.windows, w.windows);
    forall x ensures ShownId(w.windows, x) <==> ShownId(v.windows, x) {
      SameShown(w.windows, v.windows, x);
      SameShown(v.windows, w.windows, x);
    }
  }

  lemma SameVisibleOneWay(w: Workspace, v: Workspace, id: nat)
    requires SameForest(w.windows, v.windows) && w.fullscreen == v.fullscreen && w.maximized == v.maximized
    ensures Visible(w, id) ==> Visible(v, id)
  {
    SameExclusive(w, v);
    if Visible(w, id) {
      var e :| e in w.windows && e.id == id && Shown(w.windows, e)
        && (Exclusive(w).None? || Exclusive(w).value == id
            || (e.floating.Some? && Reaches(w.windows, id, Exclusive(w).value)));
      SameMembers(w.windows, v.windows, e);
      SameNodes(v.windows, w.windows);
      if Hidden(v.windows, id) {
        SameHidden(v.windows, w.windows, id);
      }
      if Exclusive(w).Some? {
        SameReach(w.windows, v.windows, id, Exclusive(w).value);
      }
    }
  }

  // Visibility does not depend on the order of the windows.
  lemma LinkedShown(ws: seq<Entry>, vs: seq<Entry>, id: nat)
    requires SameLinks(ws, vs) && SameLinks(vs, ws) && UniqueIds(ws) && UniqueIds(vs)
    ensures ShownId(ws, id) ==> ShownId(vs, id)
  {
    if e :| e in ws && e.id == id && Shown(ws, e) {
      FindUnique(ws, e);
      LinkedHidden(vs, ws, id);
      assert Shown(vs, Find(vs, id).value);
    }
  }

  lemma LinkedExclusive(w: Workspace, v: Workspace)
    requires SameLinks(w.windows, v.windows) && SameLinks(v.windows, w.windows)
    requires UniqueIds(w.windows) && UniqueIds(v.windows)
    requires w.fullscreen == v.fullscreen && w.maximized == v.maximized
    ensures Exclusive(w) == Exclusive(v)
    ensures forall x :: ShownId(w.windows, x) <==> ShownId(v.windows, x)
  {
    forall x ensures ShownId(w.windows, x) <==> ShownId(v.windows, x) {
      LinkedShown(w.windows, v.windows, x);
      LinkedShown(v.windows, w.windows, x);
    }
  }

  lemma LinkedVisible(w: Workspace, v: Workspace, id: nat)
    requires SameLinks(w.windows, v.windows) && SameLinks(v.windows, w.windows)
    requires UniqueIds(w.windows) && UniqueIds(v.windows)
    requires w.fullscreen == v.fullscreen && w.maximized == v.maximized
    requires Visible(w, id) && (Floating(w.windows, id) ==> Floating(v.windows, id))
    ensures Visible(v, id)
  {
    LinkedExclusive(w, v);
    var e := Find(w.windows, id).value;
    OnlyEntry(w.windows, e);
    assert ShownId(w.windows, id);
    OnlyEntry(v.windows, Find(v.windows, id).value);
    if e.floating.Some? && Exclusive(w).Some? && Exclusive(w).value != id {
      var k: nat :| 1 <= k && Ancestor(w.windows, id, k) == Some(Exclusive(w).value);
      LinkedAncestor(w.windows, v.windows, id, k);
    }
  }

  // ------------------------------------------------------------------
  // Deciding visibility

  method IsShown(ws: seq<Entry>, entry: Entry) returns (r: bool)
    requires UniqueIds(ws) && entry in ws
    ensures r == Shown(ws, entry)
  {
    if entry.minimized {
      return false;
    }
    var hidden := HiddenByParent(ws, entry);
    r := !hidden;
  }

  method ShownOwner(w: Workspace, owner: Option<nat>) returns (r: Option<nat>)
    requires UniqueIds(w.windows)
    ensures r == Owner(w, owner)
  {
    r := None;
    if owner.Some? {
      var entry := Find(w.windows, owner.value);
      if entry.Some? {
        var shown := IsShown(w.windows, entry.value);
        if shown {
          r := owner;
        } else {
          OnlyEntry(w.windows, entry.value);
        }
      }
    }
  }

  lemma OnlyEntry(ws: seq<Entry>, e: Entry)
    requires UniqueIds(ws) && e in ws
    ensures forall f :: f in ws && f.id == e.id ==> f == e
  {
    forall f | f in ws && f.id == e.id ensures f == e {
      FindUnique(ws, e);
      FindUnique(ws, f);
    }
  }

  method IsVisible(w: Workspace, id: nat) returns (r: bool)
    requires UniqueIds(w.windows)
    ensures r == Visible(w, id)
  {
    var entry := Find(w.windows, id);
    if entry.None? {
      return false;
    }
    var e := entry.value;
    OnlyEntry(w.windows, e);
    var shown := IsShown(w.windows, e);
    if !shown {
      return false;
    }
    var exclusive := ShownOwner(w, w.fullscreen);
    if exclusive.None? {
      exclusive := ShownOwner(w, w.maximized);
    }
    if exclusive.None? || exclusive.value == id {
      return true;
    }
    if e.floating.None? {
      return false;
    }
    r := DescendantOf(w.windows, e, exclusive.value);
  }

  // ------------------------------------------------------------------
  // The tiled stack

  ghost predicate Tiled(ws: seq<Entry>, e: Entry) {
    e.floating.None? && Shown(ws, e)
  }

  // Tiles in layout order; the first is the master.
  ghost function TilesOf(all: seq<Entry>, ws: seq<Entry>): (r: seq<Entry>)
    ensures forall e :: e in r <==> e in ws && Tiled(all, e)
  {
    if ws == [] then []
    else TilesOf(all, ws[..|ws| - 1]) + if Tiled(all, ws[|ws| - 1]) then [ws[|ws| - 1]] else []
  }

  ghost function Stack(ws: seq<Entry>): seq<Entry> {
    var tiles := TilesOf(ws, ws);
    if tiles == [] then [] else tiles[1..]
  }

  function IdsOf(es: seq<Entry>): (r: seq<nat>)
    ensures |r| == |es| && forall i :: 0 <= i < |es| ==> r[i] == es[i].id
  {
    seq(|es|, i requires 0 <= i < |es| => es[i].id)
  }

  function WeightsOf(es: seq<Entry>): (r: seq<nat>)
    ensures |r| == |es| && forall i :: 0 <= i < |es| ==> r[i] == es[i].stackWeight
  {
    seq(|es|, i requires 0 <= i < |es| => es[i].stackWeight)
  }

  method TiledEntries(ws: seq<Entry>) returns (tiles: seq<Entry>)
    requires UniqueIds(ws)
    ensures tiles == TilesOf(ws, ws)
  {
    tiles := [];
    for i := 0 to |ws|
      invariant tiles == TilesOf(ws, ws[..i])
    {
      assert ws[..i + 1][..i] == ws[..i];
      if ws[i].floating.None? {
        var shown := IsShown(ws, ws[i]);
        if shown {
          tiles := tiles + [ws[i]];
        }
      }
    }
    assert ws[..|ws|] == ws;
  }

  // `stack_weights`: the stack's ids with their weights.
  method StackWeights(ws: seq<Entry>) returns (ids: seq<nat>, weights: seq<nat>)
    requires UniqueIds(ws)
    ensures ids == IdsOf(Stack(ws)) && weights == WeightsOf(Stack(ws))
  {
    var tiles := TiledEntries(ws);
    var stack := if tiles == [] then [] else tiles[1..];
    ids, weights := IdsOf(stack), WeightsOf(stack);
  }

  // Assign weights[k] to the entry with id ids[k]; everything else stays.
  function Reweigh(ws: seq<Entry>, ids: seq<nat>, weights: seq<nat>): (r: seq<Entry>)
    requires |ids| == |weights|
    ensures |r| == |ws| && SameForest(ws, r)
  {
    seq(|ws|, i requires 0 <= i < |ws| =>
          if ws[i].id in ids then ws[i].(stackWeight := weights[Pos(ids, ws[i].id)]) else ws[i])
  }

  ghost function NormalizedStack(ws: seq<Entry>): (r: seq<Entry>)
    ensures |r| == |ws| && SameForest(ws, r)
  {
    Reweigh(ws, IdsOf(Stack(ws)), Normalized(WeightsOf(Stack(ws))))
  }

  lemma {:induction false} TilesUnique(all: seq<Entry>, ws: seq<Entry>)
    requires UniqueIds(ws)
    ensures UniqueIds(TilesOf(all, ws))
  {
    if ws != [] {
      var front := ws[..|ws| - 1];
      TilesUnique(all, front);
      forall e | e in TilesOf(all, front) ensures e.id != ws[|ws| - 1].id {
        var i :| 0 <= i < |front| && front[i] == e;
      }
    }
  }

  lemma StackUnique(ws: seq<Entry>)
    requires UniqueIds(ws)
    ensures NoDup(IdsOf(Stack(ws)))
    ensures forall e :: e in Stack(ws) ==> e in ws
  {
    TilesUnique(ws, ws);
  }

  // Changing weights does not change who is tiled where.
  lemma {:induction false} SameTiles(ws: seq<Entry>, vs: seq<Entry>, n: nat)
    requires SameForest(ws, vs) && n <= |ws|
    ensures IdsOf(TilesOf(ws, ws[..n])) == IdsOf(TilesOf(vs, vs[..n]))
  {
    if n > 0 {
      SameTiles(ws, vs, n - 1);
      assert ws[..n][..n - 1] == ws[..n - 1] && vs[..n][..n - 1] == vs[..n - 1];
      assert Tiled(ws, ws[n - 1]) <==> Tiled(vs, vs[n - 1]) by { SameTiled(ws, vs, n - 1); }
    }
  }

  lemma SameTiled(ws: seq<Entry>, vs: seq<Entry>, i: nat)
    requires SameForest(ws, vs) && i < |ws|
    ensures Tiled(ws, ws[i]) <==> Tiled(vs, vs[i])
  {
    SameNodes(vs, ws);
    if Hidden(ws, ws[i].id) {
      SameHidden(ws, vs, ws[i].id);
    }
    if Hidden(vs, ws[i].id) {
      SameHidden(vs, ws, ws[i].id);
    }
  }

  lemma SameStack(ws: seq<Entry>, vs: seq<Entry>)
    requires SameForest(ws, vs)
    ensures IdsOf(Stack(ws)) == IdsOf(Stack(vs))
  {
    SameTiles(ws, vs, |ws|);
    assert ws[..|ws|] == ws && vs[..|vs|] == vs;
    var a, b := TilesOf(ws, ws), TilesOf(vs, vs);
    assert |a| == |b|;
    if a != [] {
      assert IdsOf(a)[1..] == IdsOf(a[1..]) && IdsOf(b)[1..] == IdsOf(b[1..]);
    }
  }

  // The stack's weights after assigning them are the assigned ones.
  lemma ReweighedStack(ws: seq<Entry>, weights: seq<nat>)
    requires UniqueIds(ws) && |weights| == |Stack(ws)|
    ensures var vs := Reweigh(ws, IdsOf(Stack(ws)), weights);
            IdsOf(Stack(vs)) == IdsOf(Stack(ws)) && WeightsOf(Stack(vs)) == weights
  {
    var ids := IdsOf(Stack(ws));
    var vs := Reweigh(ws, ids, weights);
    SameStack(ws, vs);
    StackUnique(ws);
    SameAcyclic(ws, vs);
    StackUnique(vs);
    forall k | 0 <= k < |weights| ensures Stack(vs)[k].stackWeight == weights[k] {
      var e := Stack(vs)[k];
      assert IdsOf(Stack(vs))[k] == ids[k];
      assert e in Stack(vs);
      var i :| 0 <= i < |vs| && vs[i] == e;
      PosAt(ids, k);
    }
  }

  lemma ReweighTwice(ws: seq<Entry>, ids: seq<nat>, first: seq<nat>, second: seq<nat>)
    requires |ids| == |first| == |second|
    ensures Reweigh(Reweigh(ws, ids, first), ids, second) == Reweigh(ws, ids, second)
  {
  }

  // Assigning the weights already there changes nothing.
  lemma ReweighSame(ws: seq<Entry>)
    requires UniqueIds(ws)
    ensures Reweigh(ws, IdsOf(Stack(ws)), WeightsOf(Stack(ws))) == ws
  {
    var ids, weights := IdsOf(Stack(ws)), WeightsOf(Stack(ws));
    StackUnique(ws);
    forall i | 0 <= i < |ws| && ws[i].id in ids
      ensures weights[Pos(ids, ws[i].id)] == ws[i].stackWeight
    {
      var k := Pos(ids, ws[i].id);
      assert Stack(ws)[k] in Stack(ws);
      OnlyEntry(ws, ws[i]);
    }
  }

  method RescaleStack(ws: seq<Entry>, ids: seq<nat>, weights: seq<nat>, target: nat, sum: nat) returns (r: seq<Entry>)
    requires |ids| == |weights| && sum > 0
    ensures r == Reweigh(ws, ids, seq(|weights|, i requires 0 <= i < |weights| => Rescale(weights[i], target, sum)))
  {
    r := ws;
    ghost var scaled := seq(|weights|, i requires 0 <= i < |weights| => Rescale(weights[i], target, sum));
    for i := 0 to |ws|
      invariant |r| == |ws|
      invariant forall k :: i <= k < |ws| ==> r[k] == ws[k]
      invariant forall k :: 0 <= k < i ==> r[k] == Reweigh(ws, ids, scaled)[k]
    {
      if r[i].id in ids {
        r := r[i := r[i].(stackWeight := Rescale(weights[Pos(ids, r[i].id)], target, sum))];
      }
    }
  }

  // Bring the stack's weights to their target sum.
  method NormalizeStack(ws: seq<Entry>) returns (r: seq<Entry>)
    requires UniqueIds(ws)
    ensures r == NormalizedStack(ws)
  {
    var ids, weights := StackWeights(ws);
    var sum := PlainSum(weights);
    var target := WEIGHT_UNIT * |weights|;
    if sum == 0 || sum == target {
      ReweighSame(ws);
      return ws;
    }
    r := RescaleStack(ws, ids, weights, target, sum);
  }
}
