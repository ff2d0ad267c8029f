// When raising a window a second time changes anything.
module RaisingTwice {
  import opened Common
  import opened Model
  import opened ParentGraph
  import opened Stacking
  import opened Raising

  lemma FamilyNode(ws: seq<Entry>, target: nat, f: nat, i: nat)
    requires Acyclic(ws) && Floating(ws, target) && Floating(ws, f) && i < |Path(ws, f)|
    ensures f in FloatFamily(ws, target) ==> Path(ws, f)[i].id in FloatFamily(ws, target)
    ensures f !in FamilyOf(ws, target) ==> Path(ws, f)[i].id !in FamilyOf(ws, target)
  {
    var x, root := Path(ws, f)[i].id, OuterFloat(ws, target, |ws|);
    PathPrefix(ws, f, i);
    assert Find(ws, f).value in ws && Find(ws, x).value in ws;
    if f in FloatFamily(ws, target) {
      FamilyHasOuter(ws, target, f);
      PathPrefix(ws, x, 0);
      assert Path(ws, x)[0] == Path(ws, f)[0];
      WithinTransitive(ws, x, Path(ws, f)[0].id, root);
    }
    if x in FamilyOf(ws, target) {
      WithinTransitive(ws, f, x, target);
    }
  }

  lemma WithinTransitive(ws: seq<Entry>, a: nat, b: nat, c: nat)
    requires Within(ws, a, b) && Within(ws, b, c)
    ensures Within(ws, a, c)
  {
    if a != b && b != c {
      ReachesTransitive(ws, a, b, c);
    }
  }

  // Family members outside the subtree keep their order, like outsiders.
  lemma MiddleKeepsOrder(w: Workspace, target: nat, a: nat, b: nat)
    requires Raisable(w, target)
    requires Find(w.windows, a).Some? && Find(w.windows, b).Some?
    requires Class(w.windows, target, a) == 1 && Class(w.windows, target, b) == 1
    ensures DrawnBefore(Raised(w, target), a, b) <==> DrawnBefore(w, a, b)
  {
    if Floating(w.windows, a) && Floating(w.windows, b) && Forks(w.windows, a, b) {
      var d := Fork(w.windows, a, b);
      FamilyNode(w.windows, target, a, d);
      FamilyNode(w.windows, target, b, d);
    }
    SameForkClassesKeepOrder(w, target, a, b);
  }

  lemma SameForkClassesKeepOrder(w: Workspace, target: nat, a: nat, b: nat)
    requires Raisable(w, target)
    requires Find(w.windows, a).Some? && Find(w.windows, b).Some?
    requires Floating(w.windows, a) && Floating(w.windows, b) && Forks(w.windows, a, b) ==>
               var d := Fork(w.windows, a, b);
               Class(w.windows, target, Path(w.windows, a)[d].id) == Class(w.windows, target, Path(w.windows, b)[d].id)
    ensures DrawnBefore(Raised(w, target), a, b) <==> DrawnBefore(w, a, b)
  {
    var r := Raised(w, target);
    RaisedShape(w, target);
    SameLayers(w, r);
    SamePath(w.windows, r.windows, a);
    SamePath(w.windows, r.windows, b);
    SameFind(w.windows, r.windows, a);
    SameFind(w.windows, r.windows, b);
    if Floating(w.windows, a) && Floating(w.windows, b) {
      ClassKeepsOrder(w, target, a, b);
      FloatsAreTopLayer(w, a);
      FloatsAreTopLayer(w, b);
      FloatsAreTopLayer(r, a);
      FloatsAreTopLayer(r, b);
      FloatingOrder(w, a, b);
      FloatingOrder(r, a, b);
    } else {
      BelowFloats(w, a, b);
      BelowFloats(r, a, b);
    }
  }

  // The first raise leaves the target's own subtree in order.
  ghost predicate SubtreeKeepsOrder(w: Workspace, target: nat) {
    forall a, b :: a in FamilyOf(w.windows, target) && b in FamilyOf(w.windows, target) ==>
      (DrawnBefore(Raised(w, target), a, b) <==> DrawnBefore(w, a, b))
  }

  ghost predicate SameOrder(s: seq<nat>, t: seq<nat>) {
    forall a, b :: a in s && b in s ==> (Pos(s, a) < Pos(s, b) <==> Pos(t, a) < Pos(t, b))
  }

  lemma {:induction false} SameOrderSame(s: seq<nat>, t: seq<nat>)
    requires NoDup(s) && NoDup(t) && forall x :: x in s <==> x in t
    requires SameOrder(s, t)
    ensures s == t
  {
    EmptyTogether(s, t);
    if s != [] {
      assert s[0] in t && t[0] in s;
      SameHead(s, t);
      TailNoDup(s);
      TailNoDup(t);
      TailElements(s);
      TailElements(t);
      TailOrder(s, t);
      SameOrderSame(s[1..], t[1..]);
    }
  }

  lemma EmptyTogether(s: seq<nat>, t: seq<nat>)
    requires forall x :: x in s <==> x in t
    ensures s == [] <==> t == []
  {
    if s != [] {
      assert s[0] in t;
    }
    if t != [] {
      assert t[0] in s;
    }
  }

  lemma SameHead(s: seq<nat>, t: seq<nat>)
    requires s != [] && t != [] && SameOrder(s, t) && t[0] in s && s[0] in t
    ensures s[0] == t[0]
  {
    assert s[0] in s;
    assert Pos(s, s[0]) == 0 && Pos(t, t[0]) == 0;
  }

  lemma TailElements(s: seq<nat>)
    requires NoDup(s) && s != []
    ensures forall x :: x in s[1..] <==> x in s && x != s[0]
  {
    assert s == [s[0]] + s[1..];
  }

  lemma TailOrder(s: seq<nat>, t: seq<nat>)
    requires NoDup(s) && s != [] && t != [] && s[0] == t[0] && SameOrder(s, t)
    ensures SameOrder(s[1..], t[1..])
  {
    TailElements(s);
    forall a, b | a in s[1..] && b in s[1..]
      ensures Pos(s[1..], a) < Pos(s[1..], b) <==> Pos(t[1..], a) < Pos(t[1..], b)
    {
      assert a != s[0] && b != s[0];
      assert Pos(s, a) < Pos(s, b) <==> Pos(t, a) < Pos(t, b);
    }
  }

  lemma TailNoDup(s: seq<nat>)
    requires NoDup(s) && s != []
    ensures NoDup(s[1..])
  {
  }

  lemma RaisedOrderNoDup(w: Workspace, target: nat)
    requires UniqueIds(w.windows)
    ensures NoDup(RaisedOrder(w, target))
    ensures forall x :: x in RaisedOrder(w, target) <==> x in LayoutOrder(w)
  {
    var order, family, sub := LayoutOrder(w), FloatFamily(w.windows, target), FamilyOf(w.windows, target);
    var inside := PickIds(order, family, true);
    var a, b, c := PickIds(order, family, false), PickIds(inside, sub, false), PickIds(inside, sub, true);
    LayoutNoDup(w);
    PickIdsNoDup(order, family, true);
    PickIdsNoDup(order, family, false);
    PickIdsNoDup(inside, sub, false);
    PickIdsNoDup(inside, sub, true);
    NoDupConcat(a, b);
    NoDupConcat(a + b, c);
    forall x ensures x in RaisedOrder(w, target) <==> x in LayoutOrder(w) {
      assert x in RaisedOrder(w, target) <==> x in a || x in b || x in c;
    }
  }

  // A second raise changes nothing exactly when the first one did not reorder
  // the raised window's own subtree.
  lemma IdleIfSubtreeKept(w: Workspace, target: nat)
    requires Raisable(w, target)
    ensures var once := Raised(w, target);
            Raised(once, target) == once <==> SubtreeKeepsOrder(w, target)
  {
    var once := Raised(w, target);
    RaisedShape(w, target);
    var first, second := RaisedOrder(w, target), RaisedOrder(once, target);
    assert once.windows == Ranked(w.windows, first);
    assert Raised(once, target) == once.(windows := Ranked(once.windows, second));
    if SubtreeKeepsOrder(w, target) {
      OrderFromSubtree(w, target);
      RankedTwice(w.windows, first);
    }
    if Raised(once, target) == once {
      RaisedOrderNoDup(w, target);
      RaisedOrderNoDup(once, target);
      LayoutMembers(w, once);
      SameRanksSame(w.windows, first, second);
      SubtreeOrderFromRanks(w, target);
    }
  }

  lemma OrderFromSubtree(w: Workspace, target: nat)
    requires Raisable(w, target) && SubtreeKeepsOrder(w, target)
    ensures RaisedOrder(w, target) == RaisedOrder(Raised(w, target), target)
  {
    var once := Raised(w, target);
    RaisedShape(w, target);
    RaisedOrderNoDup(w, target);
    RaisedOrderNoDup(once, target);
    LayoutMembers(w, once);
    RanksAgree(w, target);
    SameOrderSame(RaisedOrder(w, target), RaisedOrder(once, target));
  }

  lemma RanksAgree(w: Workspace, target: nat)
    requires Raisable(w, target) && SubtreeKeepsOrder(w, target)
    ensures SameOrder(RaisedOrder(w, target), RaisedOrder(Raised(w, target), target))
  {
    RaisedOrderNoDup(w, target);
    var first, second := RaisedOrder(w, target), RaisedOrder(Raised(w, target), target);
    forall a, b | a in first && b in first
      ensures Pos(first, a) < Pos(first, b) <==> Pos(second, a) < Pos(second, b)
    {
      SameRanks(w, target, a, b);
    }
  }

  lemma LayoutMembers(w: Workspace, v: Workspace)
    requires SameForest(w.windows, v.windows)
    ensures forall x :: x in LayoutOrder(w) <==> x in LayoutOrder(v)
  {
    forall x ensures x in LayoutOrder(w) <==> x in LayoutOrder(v) {
      if e :| e in w.windows && e.id == x {
        SameMembers(w.windows, v.windows, e);
      }
      SameNodes(v.windows, w.windows);
      if e :| e in v.windows && e.id == x {
        SameMembers(v.windows, w.windows, e);
      }
    }
  }

  lemma SubtreeOrderFromRanks(w: Workspace, target: nat)
    requires Raisable(w, target)
    ensures RaisedOrder(w, target) == RaisedOrder(Raised(w, target), target) ==> SubtreeKeepsOrder(w, target)
  {
    var once := Raised(w, target);
    if RaisedOrder(w, target) == RaisedOrder(once, target) {
      RaisedShape(w, target);
      LayoutMembers(w, once);
      forall a, b | a in FamilyOf(w.windows, target) && b in FamilyOf(w.windows, target)
        ensures DrawnBefore(once, a, b) <==> DrawnBefore(w, a, b)
      {
        SubtreeClass(w.windows, target, a);
        SubtreeClass(w.windows, target, b);
        RankOrder(w, target, a, b);
        RankOrder(once, target, a, b);
      }
    }
  }

  lemma SubtreeClass(ws: seq<Entry>, target: nat, a: nat)
    requires Acyclic(ws) && Floating(ws, target) && a in FamilyOf(ws, target)
    ensures Class(ws, target, a) == 2 && exists e :: e in ws && e.id == a
  {
    TargetInFamily(ws, target);
    WithinTransitive(ws, a, target, OuterFloat(ws, target, |ws|));
  }

  lemma SameRanks(w: Workspace, target: nat, a: nat, b: nat)
    requires Raisable(w, target) && SubtreeKeepsOrder(w, target)
    requires a in LayoutOrder(w) && b in LayoutOrder(w)
    ensures Pos(RaisedOrder(w, target), a) < Pos(RaisedOrder(w, target), b)
        <==> Pos(RaisedOrder(Raised(w, target), target), a) < Pos(RaisedOrder(Raised(w, target), target), b)
  {
    var once := Raised(w, target);
    RaisedShape(w, target);
    LayoutMembers(w, once);
    if Class(w.windows, target, a) == Class(w.windows, target, b) {
      ClassmatesKeepOrder(w, target, a, b);
      RankOrder(w, target, a, b);
      RankOrder(once, target, a, b);
    } else {
      ClassOrders(w, target, a, b);
      ClassOrders(once, target, a, b);
    }
  }

  lemma ClassmatesKeepOrder(w: Workspace, target: nat, a: nat, b: nat)
    requires Raisable(w, target) && SubtreeKeepsOrder(w, target)
    requires a in LayoutOrder(w) && b in LayoutOrder(w)
    requires Class(w.windows, target, a) == Class(w.windows, target, b)
    ensures DrawnBefore(Raised(w, target), a, b) <==> DrawnBefore(w, a, b)
  {
    if Class(w.windows, target, a) == 0 {
      OutsidersKeepOrder(w, target, a, b);
    } else if Class(w.windows, target, a) == 1 {
      MiddleKeepsOrder(w, target, a, b);
    }
  }

  lemma SameRanksSame(ws: seq<Entry>, first: seq<nat>, second: seq<nat>)
    requires Ranked(Ranked(ws, first), second) == Ranked(ws, first)
    requires NoDup(first) && NoDup(second)
    requires forall x :: x in first <==> x in second
    requires forall x :: x in first <==> exists e :: e in ws && e.id == x
    ensures first == second
  {
    forall x | x in first ensures Pos(first, x) == Pos(second, x) {
      var e :| e in ws && e.id == x;
      var i :| 0 <= i < |ws| && ws[i] == e;
      assert Ranked(ws, first)[i].stackingOrder == Pos(first, x);
      assert Ranked(Ranked(ws, first), second)[i].stackingOrder == Pos(second, x);
    }
    SameOrderSame(first, second);
  }

  lemma ForkPast(stem: seq<Key>, p: seq<Key>, q: seq<Key>)
    requires stem <= p && stem <= q
    ensures Divergence(p, q) >= |stem|
  {
    forall i | 0 <= i < |stem| ensures p[i] == q[i] {
      assert p[i] == stem[i] && q[i] == stem[i];
    }
  }

  lemma SubtreeFloats(ws: seq<Entry>, target: nat, a: nat)
    requires Acyclic(ws) && Floating(ws, target) && a in FamilyOf(ws, target)
    requires forall x :: x in FamilyOf(ws, target) ==> Floating(ws, x)
    ensures Path(ws, target) <= Path(ws, a)
  {
    assert Ancestor(ws, a, 0) == Some(a);
    var k: nat :| Ancestor(ws, a, k) == Some(target);
    forall j | 0 <= j <= k ensures Ancestor(ws, a, j).Some? && Floating(ws, Ancestor(ws, a, j).value) {
      if j < k {
        AncestorDefined(ws, a, j, k);
      }
      var x := Ancestor(ws, a, j).value;
      NearerReachesFarther(ws, a, x, target, j, k);
      ChainMember(ws, a, j, k);
    }
    assert FloatsBelow(ws, a, target);
    SubtreeIsPathPrefix(ws, a, target);
  }

  lemma ChainMember(ws: seq<Entry>, a: nat, j: nat, k: nat)
    requires j <= k && Ancestor(ws, a, j).Some? && Ancestor(ws, a, k).Some?
    requires Find(ws, Ancestor(ws, a, k).value).Some?
    ensures exists e :: e in ws && e.id == Ancestor(ws, a, j).value
  {
    if j < k {
      if j + 1 < k {
        AncestorDefined(ws, a, j + 1, k);
      }
      assert ParentOf(ws, Ancestor(ws, a, j).value).Some?;
    }
    assert Find(ws, Ancestor(ws, a, j).value).Some?;
  }

  // A floating window that hangs below the target through a tile, and starts out below it.
  ghost predicate HangsLow(w: Workspace, target: nat, c: nat) {
    var p, q := Path(w.windows, target), Path(w.windows, c);
    && c in FamilyOf(w.windows, target) && Floating(w.windows, c) && p != [] && q != []
    && p[0].id !in FamilyOf(w.windows, target) && q[0].id in FamilyOf(w.windows, target)
    && p[0].top == q[0].top && DrawnBefore(w, c, target)
  }

  // A second raise changes nothing exactly when no window hangs low before the
  // first: a raise lifts such a window above the target, and nothing else in
  // the raised subtree moves.
  lemma SecondRaiseIdle(w: Workspace, target: nat)
    requires Raisable(w, target)
    ensures Raised(Raised(w, target), target) == Raised(w, target) <==> forall c :: !HangsLow(w, target, c)
  {
    IdleIfSubtreeKept(w, target);
    if forall c :: !HangsLow(w, target, c) {
      KeptWithoutLow(w, target);
    } else {
      var c :| HangsLow(w, target, c);
      LiftedAbove(w, target, c);
      TargetInFamily(w.windows, target);
    }
  }

  lemma LiftedAbove(w: Workspace, target: nat, c: nat)
    requires Raisable(w, target) && HangsLow(w, target, c)
    ensures !DrawnBefore(Raised(w, target), c, target)
  {
    var ws, once := w.windows, Raised(w, target);
    RaisedShape(w, target);
    TargetInFamily(ws, target);
    FamilyHasOuter(ws, target, target);
    PathPrefix(ws, target, 0);
    SubtreeClass(ws, target, Path(ws, c)[0].id);
    ClassDecides(w, target, target, c, 0);
    LessAt(Path(once.windows, target), Path(once.windows, c), 0);
    SamePath(ws, once.windows, target);
    SamePath(ws, once.windows, c);
    FloatsAreTopLayer(once, target);
    FloatsAreTopLayer(once, c);
    FloatingOrder(once, target, c);
  }

  lemma KeptWithoutLow(w: Workspace, target: nat)
    requires Raisable(w, target) && forall c :: !HangsLow(w, target, c)
    ensures SubtreeKeepsOrder(w, target)
  {
    forall a, b | a in FamilyOf(w.windows, target) && b in FamilyOf(w.windows, target)
      ensures DrawnBefore(Raised(w, target), a, b) <==> DrawnBefore(w, a, b)
    {
      PairKept(w, target, a, b);
    }
  }

  lemma PairKept(w: Workspace, target: nat, a: nat, b: nat)
    requires Raisable(w, target) && !HangsLow(w, target, a) && !HangsLow(w, target, b)
    requires a in FamilyOf(w.windows, target) && b in FamilyOf(w.windows, target)
    ensures DrawnBefore(Raised(w, target), a, b) <==> DrawnBefore(w, a, b)
  {
    var ws := w.windows;
    SubtreeClass(ws, target, a);
    SubtreeClass(ws, target, b);
    if Floating(ws, a) && Floating(ws, b) && Forks(ws, a, b) {
      SubtreeFork(ws, target, a, b);
      if Class(ws, target, Path(ws, a)[Fork(ws, a, b)].id) != Class(ws, target, Path(ws, b)[Fork(ws, a, b)].id) {
        if Beneath(ws, target, a) {
          SidesKept(w, target, a, b);
        } else {
          SidesKept(w, target, b, a);
        }
        return;
      }
    }
    SameForkClassesKeepOrder(w, target, a, b);
  }

  // The floating chain up from f reaches the target.
  ghost predicate Beneath(ws: seq<Entry>, target: nat, f: nat) {
    Path(ws, target) <= Path(ws, f)
  }

  // Two windows of the subtree part among windows of one class, or at the very
  // root: one hangs below the target through floats only, the other through a tile.
  lemma SubtreeFork(ws: seq<Entry>, target: nat, a: nat, b: nat)
    requires Acyclic(ws) && Floating(ws, target) && Floating(ws, a) && Floating(ws, b) && Forks(ws, a, b)
    requires a in FamilyOf(ws, target) && b in FamilyOf(ws, target)
    ensures var d := Fork(ws, a, b);
            Class(ws, target, Path(ws, a)[d].id) != Class(ws, target, Path(ws, b)[d].id) ==>
              d == 0 && (if Beneath(ws, target, a) then Across(ws, target, a, b) else Across(ws, target, b, a))
  {
    var d := Fork(ws, a, b);
    if Beneath(ws, target, a) && Beneath(ws, target, b) {
      ForkPast(Path(ws, target), Path(ws, a), Path(ws, b));
      PastTarget(ws, target, a, d);
      PastTarget(ws, target, b, d);
    } else if !Beneath(ws, target, a) && !Beneath(ws, target, b) {
      BelowTile(ws, target, a, d);
      BelowTile(ws, target, b, d);
    } else if Beneath(ws, target, a) {
      OneBeneath(ws, target, a, b);
    } else {
      OneBeneath(ws, target, b, a);
      ForkSymmetric(ws, a, b);
    }
  }

  lemma ForkSymmetric(ws: seq<Entry>, a: nat, b: nat)
    ensures Fork(ws, a, b) == 0 <==> Fork(ws, b, a) == 0
  {
  }

  // a below the target through floats, b through a tile, under different roots.
  ghost predicate Across(ws: seq<Entry>, target: nat, a: nat, b: nat) {
    && Path(ws, target) != [] && Path(ws, a) != [] && Path(ws, b) != []
    && Path(ws, a)[0] == Path(ws, target)[0] && Path(ws, a)[0].id !in FamilyOf(ws, target)
    && Path(ws, b)[0].id in FamilyOf(ws, target)
  }

  lemma OneBeneath(ws: seq<Entry>, target: nat, a: nat, b: nat)
    requires Acyclic(ws) && Floating(ws, target) && Floating(ws, a) && Floating(ws, b)
    requires a in FamilyOf(ws, target) && b in FamilyOf(ws, target) && Beneath(ws, target, a) && !Beneath(ws, target, b)
    ensures Fork(ws, a, b) == 0 && Path(ws, a) != [] && Path(ws, b) != []
    ensures Path(ws, b)[0].id in FamilyOf(ws, target)
    ensures Class(ws, target, Path(ws, a)[0].id) == 2 || Across(ws, target, a, b)
    ensures Class(ws, target, Path(ws, b)[0].id) == 2
  {
    PathUnfold(ws, target);
    PathUnfold(ws, b);
    BelowTile(ws, target, b, 0);
    var root, other := Path(ws, target)[0], Path(ws, b)[0];
    PathPrefix(ws, target, 0);
    PathPrefix(ws, b, 0);
    assert Path(ws, a)[0] == root;
    if root.id in FamilyOf(ws, target) {
      RootIsTarget(ws, target);
      SubtreeClass(ws, target, root.id);
      assert Path(ws, target) == Path(ws, target)[..1];
    }
  }

  // An outermost ancestor inside the subtree is the target itself.
  lemma RootIsTarget(ws: seq<Entry>, target: nat)
    requires Acyclic(ws) && Floating(ws, target) && Path(ws, target) != []
    requires Path(ws, target)[0].id in FamilyOf(ws, target)
    ensures Path(ws, target)[0].id == target && |Path(ws, target)| == 1
  {
    PathPrefix(ws, target, 0);
    var root := Path(ws, target)[0].id;
    assert Find(ws, target).value in ws;
    if root != target {
      ReachesTransitive(ws, target, root, target);
    }
  }

  lemma PastTarget(ws: seq<Entry>, target: nat, f: nat, d: nat)
    requires Acyclic(ws) && Floating(ws, target) && Floating(ws, f) && Beneath(ws, target, f)
    requires |Path(ws, target)| <= d < |Path(ws, f)|
    ensures Class(ws, target, Path(ws, f)[d].id) == 2
  {
    var x := Path(ws, f)[d].id;
    PathPrefix(ws, f, d);
    assert Path(ws, target) <= Path(ws, x);
    SubtreeIsPathPrefix(ws, x, target);
    var k: nat :| Ancestor(ws, x, k) == Some(target);
    assert Ancestor(ws, x, 0) == Some(x);
    assert Find(ws, x).value in ws;
    SubtreeClass(ws, target, x);
  }

  // The floating chain up from a window below a tile ends inside the subtree.
  lemma BelowTile(ws: seq<Entry>, target: nat, f: nat, i: nat)
    requires Acyclic(ws) && Floating(ws, target) && Floating(ws, f) && f in FamilyOf(ws, target)
    requires !Beneath(ws, target, f) && i < |Path(ws, f)|
    ensures Path(ws, f)[i].id in FamilyOf(ws, target) && Class(ws, target, Path(ws, f)[i].id) == 2
  {
    var x, m := Path(ws, f)[i].id, |Path(ws, f)| - 1 - i;
    PathPrefix(ws, f, i);
    ClimbVisits(ws, f, |ws|, m);
    assert Ancestor(ws, f, 0) == Some(f);
    var k: nat :| Ancestor(ws, f, k) == Some(target);
    if k < m {
      forall j | 0 <= j <= k ensures Ancestor(ws, f, j).Some? && Floating(ws, Ancestor(ws, f, j).value) {
        ClimbVisits(ws, f, |ws|, j);
      }
      SubtreeIsPathPrefix(ws, f, target);
    }
    NearerReachesFarther(ws, f, x, target, m, k);
    assert Find(ws, x).value in ws;
    SubtreeClass(ws, target, x);
  }

  // Across the roots, the raise orders as before unless b hangs low.
  lemma SidesKept(w: Workspace, target: nat, a: nat, b: nat)
    requires Raisable(w, target) && !HangsLow(w, target, b)
    requires Floating(w.windows, a) && Floating(w.windows, b)
    requires a in FamilyOf(w.windows, target) && b in FamilyOf(w.windows, target) && Across(w.windows, target, a, b)
    ensures DrawnBefore(Raised(w, target), a, b) <==> DrawnBefore(w, a, b)
    ensures DrawnBefore(Raised(w, target), b, a) <==> DrawnBefore(w, b, a)
  {
    var ws, once := w.windows, Raised(w, target);
    RaisedShape(w, target);
    RootClasses(w, target, a, b);
    ByRoots(w, a, b);
    ByRoots(w, target, b);
    RootsRaised(w, target, a, b);
    ByRoots(once, a, b);
  }

  lemma RootClasses(w: Workspace, target: nat, a: nat, b: nat)
    requires Raisable(w, target) && Across(w.windows, target, a, b) && Floating(w.windows, b)
    ensures Class(w.windows, target, Path(w.windows, a)[0].id) == 1
    ensures Class(w.windows, target, Path(w.windows, b)[0].id) == 2
    ensures Path(w.windows, a)[0].id != Path(w.windows, b)[0].id
  {
    TargetInFamily(w.windows, target);
    FamilyHasOuter(w.windows, target, target);
    SubtreeClass(w.windows, target, Path(w.windows, b)[0].id);
  }

  // Windows under different roots are drawn as their roots' keys say.
  lemma ByRoots(w: Workspace, a: nat, b: nat)
    requires UniqueIds(w.windows) && Acyclic(w.windows) && NothingExpanded(w)
    requires Floating(w.windows, a) && Floating(w.windows, b)
    requires Path(w.windows, a) != [] && Path(w.windows, b) != []
             && Path(w.windows, a)[0].id != Path(w.windows, b)[0].id
    ensures DrawnBefore(w, a, b) <==> KeyLess(Path(w.windows, a)[0], Path(w.windows, b)[0])
    ensures DrawnBefore(w, b, a) <==> !DrawnBefore(w, a, b)
  {
    FloatsAreTopLayer(w, a);
    FloatsAreTopLayer(w, b);
    FloatingOrder(w, a, b);
    FloatingOrder(w, b, a);
    LessAt(Path(w.windows, a), Path(w.windows, b), 0);
    LessAt(Path(w.windows, b), Path(w.windows, a), 0);
  }

  lemma RootsRaised(w: Workspace, target: nat, a: nat, b: nat)
    requires Raisable(w, target) && Floating(w.windows, a) && Floating(w.windows, b)
    requires Path(w.windows, a) != [] && Path(w.windows, b) != []
    requires Class(w.windows, target, Path(w.windows, a)[0].id) == 1
    requires Class(w.windows, target, Path(w.windows, b)[0].id) == 2
    ensures var vs := Raised(w, target).windows;
            && Floating(vs, a) && Floating(vs, b) && Path(vs, a) != [] && Path(vs, b) != []
            && Path(vs, a)[0].id == Path(w.windows, a)[0].id && Path(vs, b)[0].id == Path(w.windows, b)[0].id
            && (KeyLess(Path(vs, a)[0], Path(vs, b)[0])
                <==> Path(w.windows, a)[0].top == Path(w.windows, b)[0].top || Path(w.windows, b)[0].top)
  {
    RaisedShape(w, target);
    SamePath(w.windows, Raised(w, target).windows, a);
    SamePath(w.windows, Raised(w, target).windows, b);
    ClassDecides(w, target, a, b, 0);
  }

  // In particular when every window of the subtree floats.
  lemma FloatingSubtreeKeepsOrder(w: Workspace, target: nat)
    requires Raisable(w, target)
    requires forall a :: a in FamilyOf(w.windows, target) ==> Floating(w.windows, a)
    ensures SubtreeKeepsOrder(w, target)
  {
    forall c ensures !HangsLow(w, target, c) {
      if c in FamilyOf(w.windows, target) {
        SubtreeFloats(w.windows, target, c);
      }
    }
    KeptWithoutLow(w, target);
  }

  lemma {:induction false} ParentsDescend(ws: seq<Entry>, id: nat, k: nat)
    requires forall e :: e in ws && e.parent.Some? ==> e.parent.value < e.id
    ensures Ancestor(ws, id, k).Some? ==> Ancestor(ws, id, k).value + k <= id
  {
    if k > 0 {
      ParentsDescend(ws, id, k - 1);
    }
  }

  // Such a workspace exists: 0 and its child 1 float, 2 is a tile below 1, and 3 floats below 2.
  ghost function Example(rect: Rect): (ws: seq<Entry>)
    ensures UniqueIds(ws) && |ws| == 4
  {
    var float := Entry(0, 5, false, None, Some(rect), 10000, None, false, None, true, None);
    [float, float.(id := 1, stackingOrder := 6, parent := Some(0)),
        float.(id := 2, parent := Some(1), floating := None),
     float.(id := 3, stackingOrder := 1, parent := Some(2))]
  }

  lemma ExampleEntries(rect: Rect, id: nat)
    requires id < 4
    ensures Find(Example(rect), id) == Some(Example(rect)[id])
  {
    FindUnique(Example(rect), Example(rect)[id]);
  }

  lemma ExampleAcyclic(rect: Rect)
    ensures Acyclic(Example(rect))
    ensures Path(Example(rect), 1) == [Key(false, 5, 0), Key(false, 6, 1)]
            && Path(Example(rect), 3) == [Key(false, 1, 3)]
  {
    var ws := Example(rect);
    forall e | e in ws ensures !Reaches(ws, e.id, e.id) {
      if k: nat :| 1 <= k && Ancestor(ws, e.id, k) == Some(e.id) {
        ParentsDescend(ws, e.id, k);
      }
    }
    forall id: nat | id < 4 ensures Find(ws, id) == Some(ws[id]) {
      ExampleEntries(rect, id);
    }
    PathUnfold(ws, 0);
    PathUnfold(ws, 1);
    PathUnfold(ws, 3);
  }

  lemma ExampleFamily(rect: Rect)
    ensures 3 in FamilyOf(Example(rect), 1) && 0 !in FamilyOf(Example(rect), 1)
  {
    var ws := Example(rect);
    ExampleEntries(rect, 3);
    ExampleEntries(rect, 2);
    assert Ancestor(ws, 3, 0) == Some(3) && Ancestor(ws, 3, 1) == Some(2) && Ancestor(ws, 3, 2) == Some(1);
    assert ws[3] in ws;
    if k: nat :| Ancestor(ws, 0, k) == Some(1) {
      ParentsDescend(ws, 0, k);
    }
  }

  lemma SecondRaiseExample(rect: Rect)
    ensures exists w, target :: Raisable(w, target) && Raised(Raised(w, target), target) != Raised(w, target)
  {
    var ws := Example(rect);
    var w := Workspace(ws, [], [], None, None, None);
    ExampleAcyclic(rect);
    ExampleFamily(rect);
    ExampleEntries(rect, 1);
    ExampleEntries(rect, 3);
    FloatsAreTopLayer(w, 1);
    FloatsAreTopLayer(w, 3);
    FloatingOrder(w, 3, 1);
    assert HangsLow(w, 1, 3);
    SecondRaiseIdle(w, 1);
    assert Raisable(w, 1);
  }
}
