// Raising a floating window together with its family.
module Raising {
  import opened Common
  import opened Model
  import opened ParentGraph
  import opened Stacking

  // The bounded climb through floating parents to the top of a family.
  function OuterFloat(ws: seq<Entry>, id: nat, fuel: nat): nat
    decreases fuel
  {
    if fuel == 0 then id
    else
      match ParentOf(ws, id)
      case Some(p) => if Floating(ws, p) then OuterFloat(ws, p, fuel - 1) else id
      case None => id
  }

  ghost function FloatFamily(ws: seq<Entry>, target: nat): set<nat> {
    FamilyOf(ws, OuterFloat(ws, target, |ws|))
  }

  // The layout order stably sorted by (in the family, in the target's subtree).
  ghost function RaisedOrder(w: Workspace, target: nat): seq<nat> {
    var order, family := LayoutOrder(w), FloatFamily(w.windows, target);
    var inside := PickIds(order, family, true);
    PickIds(order, family, false)
    + PickIds(inside, FamilyOf(w.windows, target), false)
    + PickIds(inside, FamilyOf(w.windows, target), true)
  }

  function Ranked(ws: seq<Entry>, order: seq<nat>): seq<Entry> {
    seq(|ws|, i requires 0 <= i < |ws| => ws[i].(stackingOrder := Pos(order, ws[i].id)))
  }

  ghost function Raised(w: Workspace, target: nat): Workspace {
    if Floating(w.windows, target)
    then w.(windows := Ranked(w.windows, RaisedOrder(w, target)))
    else w
  }

  // ------------------------------------------------------------------
  // What renumbering cannot change

  ghost predicate SameForest(ws: seq<Entry>, vs: seq<Entry>) {
    && |ws| == |vs|
    && forall i :: 0 <= i < |ws| ==> SameNode(ws[i], vs[i])
  }

  ghost predicate SameNode(a: Entry, b: Entry) {
    && a.id == b.id && a.parent == b.parent && a.minimized == b.minimized
    && a.floating.Some? == b.floating.Some?
  }

  ghost predicate SameTops(ws: seq<Entry>, vs: seq<Entry>) {
    |ws| == |vs| && forall i :: 0 <= i < |ws| ==> ws[i].stayOnTop == vs[i].stayOnTop
  }

  lemma {:induction false} SameFind(ws: seq<Entry>, vs: seq<Entry>, id: nat)
    requires SameForest(ws, vs)
    ensures Find(ws, id).Some? == Find(vs, id).Some?
    ensures Find(ws, id).Some? ==> SameNode(Find(ws, id).value, Find(vs, id).value)
    ensures Find(ws, id).Some? && SameTops(ws, vs) ==> Find(ws, id).value.stayOnTop == Find(vs, id).value.stayOnTop
  {
    if ws != [] {
      SameFind(ws[1..], vs[1..], id);
    }
  }

  lemma {:induction false} SameAncestor(ws: seq<Entry>, vs: seq<Entry>, id: nat, k: nat)
    requires SameForest(ws, vs)
    ensures Ancestor(ws, id, k) == Ancestor(vs, id, k)
  {
    if k > 0 {
      SameAncestor(ws, vs, id, k - 1);
      if Ancestor(ws, id, k - 1).Some? {
        SameFind(ws, vs, Ancestor(ws, id, k - 1).value);
      }
    }
  }

  lemma SameReach(ws: seq<Entry>, vs: seq<Entry>, x: nat, y: nat)
    requires SameForest(ws, vs)
    ensures Reaches(ws, x, y) <==> Reaches(vs, x, y)
  {
    if k: nat :| 1 <= k && Ancestor(ws, x, k) == Some(y) {
      SameAncestor(ws, vs, x, k);
    }
    if k: nat :| 1 <= k && Ancestor(vs, x, k) == Some(y) {
      SameAncestor(ws, vs, x, k);
    }
  }

  lemma SameMembers(ws: seq<Entry>, vs: seq<Entry>, e: Entry)
    requires SameForest(ws, vs) && e in ws
    ensures exists f :: f in vs && SameNode(e, f)
  {
    var i :| 0 <= i < |ws| && ws[i] == e;
    assert vs[i] in vs;
  }

  lemma SameFamily(ws: seq<Entry>, vs: seq<Entry>, root: nat)
    requires SameForest(ws, vs)
    ensures FamilyOf(ws, root) == FamilyOf(vs, root)
  {
    SameNodes(vs, ws);
    forall e | e in ws ensures e.id in FamilyOf(ws, root) <==> e.id in FamilyOf(vs, root) {
      SameMembers(ws, vs, e);
      SameReach(ws, vs, e.id, root);
    }
    forall e | e in vs ensures e.id in FamilyOf(ws, root) <==> e.id in FamilyOf(vs, root) {
      SameMembers(vs, ws, e);
      SameReach(ws, vs, e.id, root);
    }
  }

  lemma SameNodes(vs: seq<Entry>, ws: seq<Entry>)
    requires SameForest(ws, vs)
    ensures SameForest(vs, ws)
  {
  }

  lemma SameAcyclic(ws: seq<Entry>, vs: seq<Entry>)
    requires SameForest(ws, vs)
    ensures Acyclic(ws) ==> Acyclic(vs)
    ensures UniqueIds(ws) ==> UniqueIds(vs)
  {
    SameNodes(vs, ws);
    if Acyclic(ws) {
      forall e | e in vs ensures !Reaches(vs, e.id, e.id) {
        SameMembers(vs, ws, e);
        SameReach(ws, vs, e.id, e.id);
      }
    }
  }

  lemma SameHidden(ws: seq<Entry>, vs: seq<Entry>, id: nat)
    requires SameForest(ws, vs)
    ensures Hidden(ws, id) ==> Hidden(vs, id)
  {
    if Hidden(ws, id) {
      var p :| p in ws && p.minimized && Reaches(ws, id, p.id);
      SameMembers(ws, vs, p);
      SameReach(ws, vs, id, p.id);
    }
  }

  lemma {:induction false} SameClimb(ws: seq<Entry>, vs: seq<Entry>, e: Option<Entry>, f: Option<Entry>, fuel: nat)
    requires SameForest(ws, vs) && SameTops(ws, vs)
    requires e.Some? == f.Some? && (e.Some? ==> SameNode(e.value, f.value) && e.value.stayOnTop == f.value.stayOnTop)
    ensures var p, q := Climb(ws, e, fuel), Climb(vs, f, fuel);
            |p| == |q| && forall i :: 0 <= i < |p| ==> p[i].id == q[i].id && p[i].top == q[i].top
    decreases fuel
  {
    if fuel > 0 && e.Some? && e.value.floating.Some? {
      if e.value.parent.Some? {
        SameFind(ws, vs, e.value.parent.value);
        SameClimb(ws, vs, Find(ws, e.value.parent.value), Find(vs, e.value.parent.value), fuel - 1);
      }
    }
  }

  lemma SamePath(ws: seq<Entry>, vs: seq<Entry>, id: nat)
    requires SameForest(ws, vs) && SameTops(ws, vs)
    ensures Floating(ws, id) == Floating(vs, id)
    ensures |Path(ws, id)| == |Path(vs, id)|
    ensures forall i :: 0 <= i < |Path(ws, id)| ==>
              Path(ws, id)[i].id == Path(vs, id)[i].id && Path(ws, id)[i].top == Path(vs, id)[i].top
  {
    SameFind(ws, vs, id);
    SameClimb(ws, vs, Find(ws, id), Find(vs, id), |ws|);
  }

  // Where the paths of a and b part.
  ghost function Fork(ws: seq<Entry>, a: nat, b: nat): nat {
    Divergence(Path(ws, a), Path(ws, b))
  }

  ghost predicate Forks(ws: seq<Entry>, a: nat, b: nat) {
    Fork(ws, a, b) < |Path(ws, a)| && Fork(ws, a, b) < |Path(ws, b)|
  }

  lemma ForkNodes(ws: seq<Entry>, a: nat, b: nat)
    requires Acyclic(ws) && Floating(ws, a) && Floating(ws, b) && Forks(ws, a, b)
    ensures var d := Fork(ws, a, b);
            var x, y := Path(ws, a)[d].id, Path(ws, b)[d].id;
            && Floating(ws, x) && Floating(ws, y) && x != y
            && Within(ws, a, x) && Within(ws, b, y)
            && (PathLess(Path(ws, x), Path(ws, y)) <==> PathLess(Path(ws, a), Path(ws, b)))
  {
    var d := Fork(ws, a, b);
    PathPrefix(ws, a, d);
    PathPrefix(ws, b, d);
    var p, q := Path(ws, a), Path(ws, b);
    assert p[..d + 1][..d] == p[..d] && q[..d + 1][..d] == q[..d];
    LessAt(p[..d + 1], q[..d + 1], d);
    LessAt(p, q, d);
  }

  // Renumbering keeps two windows in order if it keeps the two siblings under
  // which their paths part in order.
  lemma OrderFollowsFork(ws: seq<Entry>, vs: seq<Entry>, a: nat, b: nat)
    requires SameForest(ws, vs) && SameTops(ws, vs) && Acyclic(ws) && Floating(ws, a) && Floating(ws, b)
    requires Forks(ws, a, b) ==>
               var d := Fork(ws, a, b);
               |Path(vs, a)| > d && |Path(vs, b)| > d
               && (KeyLess(Path(vs, a)[d], Path(vs, b)[d]) <==> KeyLess(Path(ws, a)[d], Path(ws, b)[d]))
    ensures PathLess(Path(vs, a), Path(vs, b)) <==> PathLess(Path(ws, a), Path(ws, b))
  {
    SameAcyclic(ws, vs);
    SamePath(ws, vs, a);
    SamePath(ws, vs, b);
    var d := Fork(ws, a, b);
    var p, q := Path(vs, a), Path(vs, b);
    forall i | 0 <= i < d ensures p[i] == q[i] {
      PathPrefix(vs, a, i);
      PathPrefix(vs, b, i);
      assert Path(ws, a)[i] == Path(ws, a)[..d][i] == Path(ws, b)[..d][i] == Path(ws, b)[i];
    }
    if Forks(ws, a, b) {
      ForkNodes(ws, a, b);
    }
    LessAt(Path(ws, a), Path(ws, b), d);
    LessAt(p, q, d);
  }

  // ------------------------------------------------------------------
  // Ranks after a raise

  ghost function Class(ws: seq<Entry>, target: nat, id: nat): nat {
    if id !in FloatFamily(ws, target) then 0
    else if id !in FamilyOf(ws, target) then 1
    else 2
  }

  lemma RankOrder(w: Workspace, target: nat, x: nat, y: nat)
    requires x in LayoutOrder(w) && y in LayoutOrder(w)
    requires Class(w.windows, target, x) <= Class(w.windows, target, y)
    ensures Class(w.windows, target, x) < Class(w.windows, target, y) ==>
              Pos(RaisedOrder(w, target), x) < Pos(RaisedOrder(w, target), y)
    ensures Class(w.windows, target, x) == Class(w.windows, target, y) ==>
              (Pos(RaisedOrder(w, target), x) < Pos(RaisedOrder(w, target), y)
               <==> Pos(LayoutOrder(w), x) < Pos(LayoutOrder(w), y))
  {
    var order, family, sub := LayoutOrder(w), FloatFamily(w.windows, target), FamilyOf(w.windows, target);
    var inside := PickIds(order, family, true);
    var a, b, c := PickIds(order, family, false), PickIds(inside, sub, false), PickIds(inside, sub, true);
    forall z | z in {x, y}
      ensures Pos(a + b + c, z) == if z in a then Pos(a, z) else if z in b then |a| + Pos(b, z)
              else |a| + |b| + Pos(c, z)
    {
      PosConcat(a + b, c, z);
      PosConcat(a, b, z);
    }
    if Class(w.windows, target, x) == Class(w.windows, target, y) {
      if x in a {
        PosPick(order, family, false, x, y);
      } else {
        PosPick(order, family, true, x, y);
        PosPick(inside, sub, x in sub, x, y);
      }
    }
  }

  lemma RankedForest(ws: seq<Entry>, order: seq<nat>)
    ensures SameForest(ws, Ranked(ws, order)) && SameTops(ws, Ranked(ws, order))
  {
  }

  lemma {:induction false} RankedFind(ws: seq<Entry>, order: seq<nat>, id: nat)
    requires Find(ws, id).Some?
    ensures Find(Ranked(ws, order), id) == Some(Find(ws, id).value.(stackingOrder := Pos(order, id)))
  {
    if ws[0].id != id {
      RankedFind(ws[1..], order, id);
      assert Ranked(ws, order)[1..] == Ranked(ws[1..], order);
    }
  }

  // The i-th key of a path after renumbering.
  lemma RankedKey(ws: seq<Entry>, order: seq<nat>, id: nat, i: nat)
    requires Acyclic(ws) && Floating(ws, id) && i < |Path(ws, id)|
    ensures |Path(Ranked(ws, order), id)| == |Path(ws, id)|
    ensures var k := Path(ws, id)[i];
            Path(Ranked(ws, order), id)[i] == Key(k.top, Pos(order, k.id), k.id)
  {
    var vs := Ranked(ws, order);
    RankedForest(ws, order);
    SameAcyclic(ws, vs);
    SamePath(ws, vs, id);
    PathPrefix(ws, id, i);
    PathPrefix(vs, id, i);
    RankedFind(ws, order, Path(ws, id)[i].id);
  }

  ghost predicate NothingExpanded(w: Workspace) {
    w.fullscreen.None? && w.maximized.None?
  }

  ghost predicate Raisable(w: Workspace, target: nat) {
    UniqueIds(w.windows) && Acyclic(w.windows) && NothingExpanded(w) && Floating(w.windows, target)
  }

  lemma FloatsAreTopLayer(w: Workspace, id: nat)
    requires UniqueIds(w.windows) && NothingExpanded(w) && Floating(w.windows, id)
    ensures id in LayerIds(w, w.windows, 2) && id in LayoutOrder(w)
  {
    LayerMember(w, id, 2);
  }

  lemma RaisedShape(w: Workspace, target: nat)
    requires Raisable(w, target)
    ensures Raisable(Raised(w, target), target)
    ensures SameForest(w.windows, Raised(w, target).windows) && SameTops(w.windows, Raised(w, target).windows)
    ensures FloatFamily(Raised(w, target).windows, target) == FloatFamily(w.windows, target)
    ensures FamilyOf(Raised(w, target).windows, target) == FamilyOf(w.windows, target)
  {
    var vs := Raised(w, target).windows;
    RankedForest(w.windows, RaisedOrder(w, target));
    SameAcyclic(w.windows, vs);
    SamePath(w.windows, vs, target);
    OuterSame(w.windows, vs, target, |vs|);
    SameFamily(w.windows, vs, OuterFloat(vs, target, |vs|));
    SameFamily(w.windows, vs, target);
  }

  lemma {:induction false} OuterSame(ws: seq<Entry>, vs: seq<Entry>, id: nat, fuel: nat)
    requires SameForest(ws, vs)
    ensures OuterFloat(ws, id, fuel) == OuterFloat(vs, id, fuel)
    decreases fuel
  {
    SameFind(ws, vs, id);
    if fuel > 0 && ParentOf(ws, id).Some? {
      SameFind(ws, vs, ParentOf(ws, id).value);
      OuterSame(ws, vs, ParentOf(ws, id).value, fuel - 1);
    }
  }

  lemma {:induction false} OuterIsFirst(ws: seq<Entry>, id: nat, fuel: nat)
    requires Acyclic(ws) && Floating(ws, id) && |Path(ws, id)| <= fuel + 1
    ensures |Path(ws, id)| > 0 && OuterFloat(ws, id, fuel) == Path(ws, id)[0].id
    decreases fuel
  {
    PathUnfold(ws, id);
    if fuel > 0 && ParentOf(ws, id).Some? && Floating(ws, ParentOf(ws, id).value) {
      PathUnfold(ws, ParentOf(ws, id).value);
      OuterIsFirst(ws, ParentOf(ws, id).value, fuel - 1);
    }
  }

  // On one parent chain, of two ancestors the nearer reaches the farther.
  lemma NearerReachesFarther(ws: seq<Entry>, f: nat, g: nat, root: nat, m: nat, k: nat)
    requires m <= k && Ancestor(ws, f, m) == Some(g) && Ancestor(ws, f, k) == Some(root)
    ensures Within(ws, g, root)
  {
    AncestorAdd(ws, f, m, k - m);
    assert Ancestor(ws, g, 0) == Some(g);
    assert Ancestor(ws, g, k - m) == Some(root);
  }

  // The outermost floating ancestor of a family member is in the family too.
  lemma FamilyHasOuter(ws: seq<Entry>, target: nat, f: nat)
    requires Acyclic(ws) && Floating(ws, target) && Floating(ws, f) && f in FloatFamily(ws, target)
    ensures |Path(ws, f)| > 0 && Path(ws, f)[0].id in FloatFamily(ws, target)
  {
    OuterIsFirst(ws, target, |ws|);
    PathPrefix(ws, target, 0);
    PathUnfold(ws, f);
    var root := Path(ws, target)[0].id;
    PathPrefix(ws, f, 0);
    OuterNotBelow(ws, f, root);
    assert Find(ws, Path(ws, f)[0].id).value in ws;
  }

  lemma OuterNotBelow(ws: seq<Entry>, f: nat, root: nat)
    requires Acyclic(ws) && Floating(ws, f) && Within(ws, f, root)
    requires |Path(ws, root)| == 1 && |Path(ws, f)| > 0
    ensures Within(ws, Path(ws, f)[0].id, root)
  {
    var m := |Path(ws, f)| - 1;
    assert Ancestor(ws, f, 0) == Some(f);
    var k: nat :| Ancestor(ws, f, k) == Some(root);
    ClimbVisits(ws, f, |ws|, m);
    if m > k {
      ClimbVisits(ws, f, |ws|, k);
      PathPrefix(ws, f, m - k);
      assert false;
    }
    NearerReachesFarther(ws, f, Path(ws, f)[0].id, root, m, k);
  }

  // Windows of one class keep their order if the siblings they hang under are of one class too.
  lemma ClassKeepsOrder(w: Workspace, target: nat, a: nat, b: nat)
    requires Raisable(w, target) && Floating(w.windows, a) && Floating(w.windows, b)
    requires Forks(w.windows, a, b) ==>
               var d := Fork(w.windows, a, b);
               Class(w.windows, target, Path(w.windows, a)[d].id) == Class(w.windows, target, Path(w.windows, b)[d].id)
    ensures var vs := Raised(w, target).windows;
            PathLess(Path(vs, a), Path(vs, b)) <==> PathLess(Path(w.windows, a), Path(w.windows, b))
  {
    var ws, order := w.windows, RaisedOrder(w, target);
    RankedForest(ws, order);
    if Forks(ws, a, b) {
      var d := Fork(ws, a, b);
      var x, y := Path(ws, a)[d].id, Path(ws, b)[d].id;
      ForkNodes(ws, a, b);
      RankedKey(ws, order, a, d);
      RankedKey(ws, order, b, d);
      FloatsAreTopLayer(w, x);
      FloatsAreTopLayer(w, y);
      RankOrder(w, target, x, y);
      FloatingOrder(w, x, y);
      LessAt(Path(ws, a), Path(ws, b), d);
      RaisedMember(w, target, x);
      RaisedMember(w, target, y);
    }
    OrderFollowsFork(ws, Ranked(ws, order), a, b);
  }

  lemma RaisedMember(w: Workspace, target: nat, x: nat)
    requires x in LayoutOrder(w)
    ensures x in RaisedOrder(w, target)
  {
    var inside := PickIds(LayoutOrder(w), FloatFamily(w.windows, target), true);
    assert x in FloatFamily(w.windows, target) ==> x in inside;
  }

  // ------------------------------------------------------------------
  // The promises of a raise

  // The family rises above every floating window outside it whose outermost
  // ancestor has the same stay-on-top flag.
  lemma FamilyRises(w: Workspace, target: nat, other: nat, member: nat)
    requires Raisable(w, target)
    requires Floating(w.windows, other) && other !in FloatFamily(w.windows, target)
    requires Floating(w.windows, member) && member in FloatFamily(w.windows, target)
    requires |Path(w.windows, other)| > 0 && |Path(w.windows, member)| > 0
    requires Path(w.windows, other)[0].top == Path(w.windows, member)[0].top
    ensures DrawnBefore(Raised(w, target), other, member)
  {
    var ws, order, r := w.windows, RaisedOrder(w, target), Raised(w, target);
    FamilyHasOuter(ws, target, member);
    PathPrefix(ws, other, 0);
    PathPrefix(ws, member, 0);
    var x, y := Path(ws, other)[0].id, Path(ws, member)[0].id;
    OutsideStaysOutside(ws, target, other, x);
    FloatsAreTopLayer(w, x);
    FloatsAreTopLayer(w, y);
    RankOrder(w, target, x, y);
    RankedKey(ws, order, other, 0);
    RankedKey(ws, order, member, 0);
    LessAt(Path(r.windows, other), Path(r.windows, member), 0);
    RaisedShape(w, target);
    SamePath(ws, r.windows, other);
    SamePath(ws, r.windows, member);
    FloatsAreTopLayer(r, other);
    FloatsAreTopLayer(r, member);
    FloatingOrder(r, other, member);
  }

  lemma OutsideStaysOutside(ws: seq<Entry>, target: nat, id: nat, above: nat)
    requires Find(ws, id).Some? && Within(ws, id, above) && id !in FloatFamily(ws, target)
    ensures above !in FloatFamily(ws, target)
  {
    var root := OuterFloat(ws, target, |ws|);
    assert Find(ws, id).value in ws;
    if Reaches(ws, id, above) && Reaches(ws, above, root) {
      ReachesTransitive(ws, id, above, root);
    }
  }

  // The raised window's subtree rises above each sibling's subtree of the same flag.
  lemma SubtreeRises(w: Workspace, target: nat, sibling: nat, p: nat, lower: nat, upper: nat)
    requires Raisable(w, target) && sibling != target && Floating(w.windows, sibling)
    requires ParentOf(w.windows, target) == Some(p) && ParentOf(w.windows, sibling) == Some(p)
    requires Floating(w.windows, p)
    requires Find(w.windows, sibling).value.stayOnTop == Find(w.windows, target).value.stayOnTop
    requires Floating(w.windows, lower) && FloatsBelow(w.windows, lower, sibling)
    requires Floating(w.windows, upper) && FloatsBelow(w.windows, upper, target)
    ensures DrawnBefore(Raised(w, target), lower, upper)
  {
    var ws, r := w.windows, Raised(w, target);
    PathUnfold(ws, sibling);
    PathUnfold(ws, target);
    SubtreeIsPathPrefix(ws, lower, sibling);
    SubtreeIsPathPrefix(ws, upper, target);
    SiblingNotInSubtree(ws, target, sibling, p);
    TargetInFamily(ws, target);
    FloatsAreTopLayer(w, sibling);
    FloatsAreTopLayer(w, target);
    RankOrder(w, target, sibling, target);
    RanksDecide(ws, RaisedOrder(w, target), lower, upper, sibling, target, Path(ws, p));
    RaisedShape(w, target);
    SamePath(ws, r.windows, lower);
    SamePath(ws, r.windows, upper);
    FloatsAreTopLayer(r, lower);
    FloatsAreTopLayer(r, upper);
    FloatingOrder(r, lower, upper);
  }

  // After renumbering, subtrees of two siblings are ordered by the siblings' ranks.
  lemma RanksDecide(ws: seq<Entry>, order: seq<nat>, lower: nat, upper: nat, x: nat, y: nat, stem: seq<Key>)
    requires Acyclic(ws) && Floating(ws, lower) && Floating(ws, upper)
    requires Floating(ws, x) && Floating(ws, y) && x != y
    requires stem + [KeyOf(Find(ws, x).value)] <= Path(ws, lower)
    requires stem + [KeyOf(Find(ws, y).value)] <= Path(ws, upper)
    requires Find(ws, x).value.stayOnTop == Find(ws, y).value.stayOnTop
    requires Pos(order, x) < Pos(order, y)
    ensures PathLess(Path(Ranked(ws, order), lower), Path(Ranked(ws, order), upper))
  {
    var d := |stem|;
    var p, q := Path(Ranked(ws, order), lower), Path(Ranked(ws, order), upper);
    RankedKey(ws, order, lower, d);
    RankedKey(ws, order, upper, d);
    assert Path(ws, lower)[d] == (stem + [KeyOf(Find(ws, x).value)])[d];
    assert Path(ws, upper)[d] == (stem + [KeyOf(Find(ws, y).value)])[d];
    forall i | 0 <= i < d ensures p[i] == q[i] {
      RankedKey(ws, order, lower, i);
      RankedKey(ws, order, upper, i);
      assert Path(ws, lower)[i] == (stem + [KeyOf(Find(ws, x).value)])[i] == stem[i];
      assert Path(ws, upper)[i] == (stem + [KeyOf(Find(ws, y).value)])[i] == stem[i];
    }
    LessAt(p, q, d);
  }

  lemma SiblingNotInSubtree(ws: seq<Entry>, target: nat, sibling: nat, p: nat)
    requires Acyclic(ws) && sibling != target && Find(ws, target).Some?
    requires ParentOf(ws, target) == Some(p) && ParentOf(ws, sibling) == Some(p)
    ensures sibling !in FamilyOf(ws, target)
  {
    assert Find(ws, target).value in ws;
    ReachesStep(ws, sibling, p, target);
    ReachesStep(ws, target, p, target);
  }

  lemma TargetInFamily(ws: seq<Entry>, target: nat)
    requires Acyclic(ws) && Floating(ws, target)
    ensures Class(ws, target, target) == 2
  {
    OuterIsFirst(ws, target, |ws|);
    PathPrefix(ws, target, 0);
    assert Find(ws, target).value in ws;
  }

  // Windows outside the family keep their order among themselves, tiles included.
  lemma OutsidersKeepOrder(w: Workspace, target: nat, a: nat, b: nat)
    requires Raisable(w, target)
    requires Find(w.windows, a).Some? && Find(w.windows, b).Some?
    requires a !in FloatFamily(w.windows, target) && b !in FloatFamily(w.windows, target)
    ensures DrawnBefore(Raised(w, target), a, b) <==> DrawnBefore(w, a, b)
  {
    var r := Raised(w, target);
    RaisedShape(w, target);
    SameLayers(w, r);
    SamePath(w.windows, r.windows, a);
    SamePath(w.windows, r.windows, b);
    if Floating(w.windows, a) && Floating(w.windows, b) {
      if Forks(w.windows, a, b) {
        ForkNodes(w.windows, a, b);
        var d := Fork(w.windows, a, b);
        OutsideStaysOutside(w.windows, target, a, Path(w.windows, a)[d].id);
        OutsideStaysOutside(w.windows, target, b, Path(w.windows, b)[d].id);
      }
      ClassKeepsOrder(w, target, a, b);
      FloatsAreTopLayer(w, a);
      FloatsAreTopLayer(w, b);
      FloatsAreTopLayer(r, a);
      FloatsAreTopLayer(r, b);
      FloatingOrder(w, a, b);
      FloatingOrder(r, a, b);
    } else {
      BelowFloats(w, a, b);
      BelowFloats(r, a, b);
    }
  }

  lemma {:induction false} SameLayerIds(w: Workspace, v: Workspace, ws: seq<Entry>, vs: seq<Entry>, layer: nat)
    requires w.fullscreen == v.fullscreen && w.maximized == v.maximized && SameForest(ws, vs)
    ensures LayerIds(w, ws, layer) == LayerIds(v, vs, layer)
  {
    if ws != [] {
      SameLayerIds(w, v, ws[1..], vs[1..], layer);
    }
  }

  lemma SameLayers(w: Workspace, v: Workspace)
    requires w.fullscreen == v.fullscreen && w.maximized == v.maximized && SameForest(w.windows, v.windows)
    ensures forall layer :: LayerIds(w, w.windows, layer) == LayerIds(v, v.windows, layer)
  {
    forall layer ensures LayerIds(w, w.windows, layer) == LayerIds(v, v.windows, layer) {
      SameLayerIds(w, v, w.windows, v.windows, layer);
    }
  }

  // With a tile among two windows the tile list decides.
  lemma BelowFloats(w: Workspace, a: nat, b: nat)
    requires UniqueIds(w.windows) && NothingExpanded(w)
    requires Find(w.windows, a).Some? && Find(w.windows, b).Some?
    requires !Floating(w.windows, a) || !Floating(w.windows, b)
    ensures var tiles := LayerIds(w, w.windows, 0);
            DrawnBefore(w, a, b) <==>
              (if !Floating(w.windows, a) && !Floating(w.windows, b) then Pos(tiles, a) < Pos(tiles, b)
               else !Floating(w.windows, a))
  {
    var tiles, expanded := LayerIds(w, w.windows, 0), LayerIds(w, w.windows, 1);
    var floats := SortByPath(w.windows, LayerIds(w, w.windows, 2));
    forall x | x in {a, b}
      ensures x in tiles <==> !Floating(w.windows, x)
      ensures x !in expanded
      ensures Pos(LayoutOrder(w), x) == if x in tiles then Pos(tiles, x) else |tiles| + |expanded| + Pos(floats, x)
    {
      LayerMember(w, x, 0);
      LayerMember(w, x, 1);
      LayerMember(w, x, 2);
      PosConcat(tiles + expanded, floats, x);
      PosConcat(tiles, expanded, x);
    }
  }

  // Raising again leaves the picture as it is, and from then on nothing at all moves.
  lemma RaiseSettles(w: Workspace, target: nat)
    requires Raisable(w, target)
    ensures var once := Raised(w, target); var twice := Raised(once, target);
            LayoutOrder(twice) == LayoutOrder(once) && Raised(twice, target) == twice
  {
    var once := Raised(w, target);
    var twice := Raised(once, target);
    RaisedShape(w, target);
    RaisedShape(once, target);
    SameLayers(once, twice);
    var floats := LayerIds(once, once.windows, 2);
    forall a, b | a in floats && b in floats
      ensures PathLess(Path(once.windows, a), Path(once.windows, b))
          <==> PathLess(Path(twice.windows, a), Path(twice.windows, b))
    {
      LayerMember(once, a, 2);
      LayerMember(once, b, 2);
      SamePath(w.windows, once.windows, a);
      SamePath(w.windows, once.windows, b);
      RaiseAgain(w, target, a, b);
    }
    SameSort(once.windows, twice.windows, floats);
    RankedTwice(once.windows, RaisedOrder(once, target));
  }

  lemma RankedTwice(ws: seq<Entry>, order: seq<nat>)
    ensures Ranked(Ranked(ws, order), order) == Ranked(ws, order)
  {
  }

  lemma RaiseAgain(w: Workspace, target: nat, a: nat, b: nat)
    requires Raisable(w, target) && Floating(w.windows, a) && Floating(w.windows, b)
    ensures var once := Raised(w, target); var twice := Raised(once, target);
            PathLess(Path(twice.windows, a), Path(twice.windows, b))
            <==> PathLess(Path(once.windows, a), Path(once.windows, b))
  {
    var once := Raised(w, target);
    RaisedShape(w, target);
    SamePath(w.windows, once.windows, a);
    SamePath(w.windows, once.windows, b);
    var vs := once.windows;
    var d := Fork(vs, a, b);
    if Forks(vs, a, b) && Class(vs, target, Path(vs, a)[d].id) != Class(vs, target, Path(vs, b)[d].id) {
      ForkedClasses(w, target, a, b);
      RankedForest(vs, RaisedOrder(once, target));
      OrderFollowsFork(vs, Raised(once, target).windows, a, b);
    } else {
      ClassKeepsOrder(once, target, a, b);
    }
  }

  // Siblings of different classes are ordered by class in both renumberings.
  lemma ForkedClasses(w: Workspace, target: nat, a: nat, b: nat)
    requires Raisable(w, target) && Floating(w.windows, a) && Floating(w.windows, b)
    ensures var vs := Raised(w, target).windows; var d := Fork(vs, a, b);
            var us := Raised(Raised(w, target), target).windows;
            Forks(vs, a, b) && Class(vs, target, Path(vs, a)[d].id) != Class(vs, target, Path(vs, b)[d].id) ==>
              && |Path(us, a)| > d && |Path(us, b)| > d
              && (KeyLess(Path(us, a)[d], Path(us, b)[d]) <==> KeyLess(Path(vs, a)[d], Path(vs, b)[d]))
  {
    var once := Raised(w, target);
    var vs, d := once.windows, Fork(once.windows, a, b);
    if Forks(vs, a, b) && Class(vs, target, Path(vs, a)[d].id) != Class(vs, target, Path(vs, b)[d].id) {
      RaisedShape(w, target);
      SamePath(w.windows, vs, a);
      SamePath(w.windows, vs, b);
      ClassDecides(w, target, a, b, d);
      ClassDecides(once, target, a, b, d);
    }
  }

  lemma ClassDecides(w: Workspace, target: nat, a: nat, b: nat, d: nat)
    requires Raisable(w, target) && Floating(w.windows, a) && Floating(w.windows, b)
    requires d < |Path(w.windows, a)| && d < |Path(w.windows, b)|
    requires Class(w.windows, target, Path(w.windows, a)[d].id) != Class(w.windows, target, Path(w.windows, b)[d].id)
    ensures var vs := Raised(w, target).windows; var x, y := Path(w.windows, a)[d], Path(w.windows, b)[d];
            && |Path(vs, a)| > d && |Path(vs, b)| > d
            && Path(vs, a)[d].id == x.id && Path(vs, b)[d].id == y.id
            && (KeyLess(Path(vs, a)[d], Path(vs, b)[d]) <==>
                  if x.top != y.top then y.top
                  else Class(w.windows, target, x.id) < Class(w.windows, target, y.id))
  {
    var x, y := Path(w.windows, a)[d].id, Path(w.windows, b)[d].id;
    PathPrefix(w.windows, a, d);
    PathPrefix(w.windows, b, d);
    FloatsAreTopLayer(w, x);
    FloatsAreTopLayer(w, y);
    RankedKey(w.windows, RaisedOrder(w, target), a, d);
    RankedKey(w.windows, RaisedOrder(w, target), b, d);
    ClassOrders(w, target, x, y);
  }

  lemma ClassOrders(w: Workspace, target: nat, x: nat, y: nat)
    requires x in LayoutOrder(w) && y in LayoutOrder(w)
    requires Class(w.windows, target, x) != Class(w.windows, target, y)
    ensures Pos(RaisedOrder(w, target), x) < Pos(RaisedOrder(w, target), y)
        <==> Class(w.windows, target, x) < Class(w.windows, target, y)
    ensures Pos(RaisedOrder(w, target), x) != Pos(RaisedOrder(w, target), y)
  {
    if Class(w.windows, target, x) < Class(w.windows, target, y) {
      RankOrder(w, target, x, y);
    } else {
      RankOrder(w, target, y, x);
    }
  }

  lemma {:induction false} SameInsert(ws: seq<Entry>, vs: seq<Entry>, s: seq<nat>, id: nat)
    requires forall x :: x in s ==>
               (PathLess(Path(ws, id), Path(ws, x)) <==> PathLess(Path(vs, id), Path(vs, x)))
    ensures Insert(ws, s, id) == Insert(vs, s, id)
  {
    if s != [] {
      SameInsert(ws, vs, s[1..], id);
    }
  }

  lemma {:induction false} SameSort(ws: seq<Entry>, vs: seq<Entry>, s: seq<nat>)
    requires forall a, b :: a in s && b in s ==>
               (PathLess(Path(ws, a), Path(ws, b)) <==> PathLess(Path(vs, a), Path(vs, b)))
    ensures SortByPath(ws, s) == SortByPath(vs, s)
  {
    if s != [] {
      var front := s[..|s| - 1];
      assert forall x :: x in front ==> x in s;
      SameSort(ws, vs, front);
      SameInsert(ws, vs, SortByPath(ws, front), s[|s| - 1]);
    }
  }
}
