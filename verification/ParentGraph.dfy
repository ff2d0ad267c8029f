// Transient-parent links. They are client-controlled: a parent may be missing,
// live on another workspace, or close a cycle, so every walk is length-bounded.
module ParentGraph {
  import opened Common
  import opened Model

  function ParentOf(ws: seq<Entry>, id: nat): Option<nat> {
    match Find(ws, id)
    case Some(e) => e.parent
    case None => None
  }

  // The window reached after k parent links, if the walk gets that far.
  ghost function Ancestor(ws: seq<Entry>, id: nat, k: nat): Option<nat> {
    if k == 0 then Some(id)
    else
      match Ancestor(ws, id, k - 1)
      case Some(p) => ParentOf(ws, p)
      case None => None
  }

  // a is a proper ancestor of id, however long the walk.
  ghost predicate Reaches(ws: seq<Entry>, id: nat, a: nat) {
    exists k: nat :: 1 <= k && Ancestor(ws, id, k) == Some(a)
  }

  ghost predicate Within(ws: seq<Entry>, id: nat, root: nat) {
    id == root || Reaches(ws, id, root)
  }

  ghost predicate Acyclic(ws: seq<Entry>) {
    forall e :: e in ws ==> !Reaches(ws, e.id, e.id)
  }

  // A window disappears from view behind a minimized ancestor.
  ghost predicate Hidden(ws: seq<Entry>, id: nat) {
    exists p :: p in ws && p.minimized && Reaches(ws, id, p.id)
  }

  lemma {:induction false} AncestorAdd(ws: seq<Entry>, id: nat, i: nat, j: nat)
    requires Ancestor(ws, id, i).Some?
    ensures Ancestor(ws, id, i + j) == Ancestor(ws, Ancestor(ws, id, i).value, j)
    decreases j
  {
    if j > 0 {
      AncestorAdd(ws, id, i, j - 1);
    }
  }

  // A walk that got to step k passed through real windows before it.
  lemma {:induction false} AncestorDefined(ws: seq<Entry>, id: nat, i: nat, k: nat)
    requires i < k && Ancestor(ws, id, k).Some?
    ensures Ancestor(ws, id, i).Some? && Ancestor(ws, id, i).value in Ids(ws)
    decreases k
  {
    if i < k - 1 {
      AncestorDefined(ws, id, i, k - 1);
    } else {
      assert Find(ws, Ancestor(ws, id, i).value).value in ws;
    }
  }

  lemma ReachesStep(ws: seq<Entry>, id: nat, p: nat, a: nat)
    requires ParentOf(ws, id) == Some(p)
    ensures Reaches(ws, id, a) <==> Within(ws, p, a)
  {
    assert Ancestor(ws, id, 0) == Some(id) && Ancestor(ws, id, 1) == Some(p);
    if Reaches(ws, id, a) {
      var k: nat :| 1 <= k && Ancestor(ws, id, k) == Some(a);
      AncestorAdd(ws, id, 1, k - 1);
    }
    if Reaches(ws, p, a) {
      var k: nat :| 1 <= k && Ancestor(ws, p, k) == Some(a);
      AncestorAdd(ws, id, 1, k);
      assert Ancestor(ws, id, k + 1) == Some(a);
    }
  }

  lemma ReachesTransitive(ws: seq<Entry>, a: nat, b: nat, c: nat)
    requires Reaches(ws, a, b) && Reaches(ws, b, c)
    ensures Reaches(ws, a, c)
  {
    var i: nat :| 1 <= i && Ancestor(ws, a, i) == Some(b);
    var j: nat :| 1 <= j && Ancestor(ws, b, j) == Some(c);
    AncestorAdd(ws, a, i, j);
    assert Ancestor(ws, a, i + j) == Some(c);
  }

  // The windows a walk passes, in order.
  ghost function Trail(ws: seq<Entry>, id: nat, k: nat): (r: seq<nat>)
    requires k > 0 ==> Ancestor(ws, id, k - 1).Some?
    ensures |r| == k
    ensures forall i :: 0 <= i < k ==> Ancestor(ws, id, i) == Some(r[i])
  {
    if k == 0 then []
    else
      assert k > 1 ==> Ancestor(ws, id, k - 2).Some?;
      Trail(ws, id, k - 1) + [Ancestor(ws, id, k - 1).value]
  }

  lemma IdsCardinality(ws: seq<Entry>)
    ensures |Ids(ws)| <= |ws|
  {
    if ws == [] {
      assert Ids(ws) == {};
    } else {
      IdsCardinality(ws[1..]);
      assert ws == [ws[0]] + ws[1..];
      assert Ids(ws) == Ids(ws[1..]) + {ws[0].id};
    }
  }

  // A walk of |ws| links that never left the workspace has gone round a cycle.
  lemma LongWalkRepeats(ws: seq<Entry>, id: nat, k: nat) returns (i: nat, j: nat)
    requires k >= |ws| && Ancestor(ws, id, k).Some? && Ancestor(ws, id, k).value in Ids(ws)
    ensures i < j <= k && Ancestor(ws, id, i) == Ancestor(ws, id, j)
    ensures Ancestor(ws, id, i).Some?
  {
    var trail := Trail(ws, id, k + 1);
    forall x | x in trail ensures x in Ids(ws) {
      var n :| 0 <= n < |trail| && trail[n] == x;
      if n < k {
        AncestorDefined(ws, id, n, k);
      }
    }
    if NoDup(trail) {
      Pigeonhole(trail, Ids(ws));
      IdsCardinality(ws);
      assert false;
    }
    i, j :| 0 <= i < j < |trail| && trail[i] == trail[j];
  }

  // Whatever is reached at all is reached within |ws| links.
  lemma {:induction false} ShortestReach(ws: seq<Entry>, id: nat, a: nat, k: nat) returns (short: nat)
    requires id in Ids(ws)
    requires 1 <= k && Ancestor(ws, id, k) == Some(a)
    ensures 1 <= short <= |ws| && Ancestor(ws, id, short) == Some(a)
    decreases k
  {
    if k <= |ws| {
      short := k;
    } else {
      AncestorDefined(ws, id, k - 1, k);
      var i, j := LongWalkRepeats(ws, id, k - 1);
      AncestorAdd(ws, id, i, k - j);
      AncestorAdd(ws, id, j, k - j);
      short := ShortestReach(ws, id, a, i + (k - j));
    }
  }

  // The bounded climb of `descendant_of` decides unbounded reachability.
  method DescendantOf(ws: seq<Entry>, entry: Entry, ancestor: nat) returns (r: bool)
    requires UniqueIds(ws) && entry in ws
    ensures r == Reaches(ws, entry.id, ancestor)
  {
    FindUnique(ws, entry);
    assert Ancestor(ws, entry.id, 0) == Some(entry.id);
    var parent := entry.parent;
    for step := 0 to |ws|
      invariant parent == Ancestor(ws, entry.id, step + 1)
      invariant forall k :: 1 <= k <= step ==> Ancestor(ws, entry.id, k) != Some(ancestor)
    {
      if parent.None? {
        NoReachPast(ws, entry.id, step + 1, ancestor);
        return false;
      }
      if parent.value == ancestor {
        return true;
      }
      parent := ParentOf(ws, parent.value);
    }
    if Reaches(ws, entry.id, ancestor) {
      ghost var k: nat :| 1 <= k && Ancestor(ws, entry.id, k) == Some(ancestor);
      ghost var short := ShortestReach(ws, entry.id, ancestor, k);
      assert false;
    }
    r := false;
  }

  lemma NoReachPast(ws: seq<Entry>, id: nat, k: nat, a: nat)
    requires Ancestor(ws, id, k).None?
    requires forall j :: 1 <= j < k ==> Ancestor(ws, id, j) != Some(a)
    ensures !Reaches(ws, id, a)
  {
    forall j: nat | j > k ensures Ancestor(ws, id, j).None? {
      if Ancestor(ws, id, j).Some? {
        AncestorDefined(ws, id, k, j);
      }
    }
  }

  method HiddenByParent(ws: seq<Entry>, entry: Entry) returns (r: bool)
    requires UniqueIds(ws) && entry in ws
    ensures r == Hidden(ws, entry.id)
  {
    for i := 0 to |ws|
      invariant forall j :: 0 <= j < i ==> !(ws[j].minimized && Reaches(ws, entry.id, ws[j].id))
    {
      if ws[i].minimized {
        var below := DescendantOf(ws, entry, ws[i].id);
        if below {
          return true;
        }
      }
    }
    r := false;
  }

  // ------------------------------------------------------------------
  // The family that moves between workspaces

  // No link inside the workspace crosses the border of s, in either direction.
  ghost predicate LinkClosed(ws: seq<Entry>, s: set<nat>) {
    forall child, parent ::
      child in Ids(ws) && parent in Ids(ws) && ParentOf(ws, child) == Some(parent)
      ==> (child in s <==> parent in s)
  }

  // The connected component of start: the least link-closed set holding it.
  ghost predicate IsComponent(ws: seq<Entry>, start: nat, s: set<nat>) {
    && start in s && s <= Ids(ws)
    && LinkClosed(ws, s)
    && forall t: set<nat> :: start in t && LinkClosed(ws, t) ==> s <= t
  }

  ghost function FamilyOf(ws: seq<Entry>, root: nat): set<nat> {
    set e | e in ws && Within(ws, e.id, root) :: e.id
  }

  // The bounded climb ends at the top of a family or on a cycle.
  method ClimbToTop(ws: seq<Entry>, focused: nat) returns (root: nat, ghost k: nat)
    requires focused in Ids(ws)
    ensures root in Ids(ws) && Ancestor(ws, focused, k) == Some(root)
    ensures ParentOf(ws, root).Some? && ParentOf(ws, root).value in Ids(ws) ==> Reaches(ws, root, root)
  {
    root := focused;
    k := 0;
    for step := 0 to |ws|
      invariant root in Ids(ws) && k == step
      invariant Ancestor(ws, focused, k) == Some(root)
    {
      var parent := ParentOf(ws, root);
      if parent.None? || Find(ws, parent.value).None? {
        return;
      }
      root := parent.value;
      k := k + 1;
      assert Find(ws, root).value.id == root;
    }
    LongWalkEndsOnCycle(ws, focused, k);
  }

  // Everything at or below the top moves: exactly a connected component.
  method Family(ws: seq<Entry>, focused: nat) returns (ids: seq<nat>)
    requires UniqueIds(ws) && focused in Ids(ws)
    ensures IsComponent(ws, focused, Elements(ids))
  {
    var root, k := ClimbToTop(ws, focused);
    ids := [];
    for i := 0 to |ws|
      invariant forall id :: id in ids <==> exists j :: 0 <= j < i && ws[j].id == id && Within(ws, id, root)
    {
      var below := DescendantOf(ws, ws[i], root);
      if ws[i].id == root || below {
        ids := ids + [ws[i].id];
      }
    }
    assert Elements(ids) == FamilyOf(ws, root);
    FamilyIsComponent(ws, focused, root, k);
  }

  lemma LongWalkEndsOnCycle(ws: seq<Entry>, id: nat, k: nat)
    requires k >= |ws| && Ancestor(ws, id, k).Some? && Ancestor(ws, id, k).value in Ids(ws)
    ensures Reaches(ws, Ancestor(ws, id, k).value, Ancestor(ws, id, k).value)
  {
    var i, j := LongWalkRepeats(ws, id, k);
    var x, r := Ancestor(ws, id, i).value, Ancestor(ws, id, k).value;
    var rest, cycle := k - i, j - i;
    assert Ancestor(ws, x, rest) == Some(r) by { AncestorAdd(ws, id, i, rest); }
    assert Ancestor(ws, x, cycle) == Some(x) by { AncestorAdd(ws, id, i, cycle); }
    assert Ancestor(ws, x, cycle + rest) == Some(r) by { AncestorAdd(ws, x, cycle, rest); }
    AncestorAdd(ws, x, rest, cycle);
    assert Ancestor(ws, r, cycle) == Some(r);
  }

  // Everything below a top (or a cycle) is exactly a connected component.
  lemma FamilyIsComponent(ws: seq<Entry>, focused: nat, root: nat, k: nat)
    requires focused in Ids(ws) && root in Ids(ws)
    requires Ancestor(ws, focused, k) == Some(root)
    requires ParentOf(ws, root).Some? && ParentOf(ws, root).value in Ids(ws) ==> Reaches(ws, root, root)
    ensures IsComponent(ws, focused, FamilyOf(ws, root))
  {
    var s := FamilyOf(ws, root);
    assert focused in s by {
      if k > 0 {
        assert Reaches(ws, focused, root);
      }
    }
    forall child, parent |
      child in Ids(ws) && parent in Ids(ws) && ParentOf(ws, child) == Some(parent)
      ensures child in s <==> parent in s
    {
      ReachesStep(ws, child, parent, root);
    }
    forall t: set<nat> | focused in t && LinkClosed(ws, t) ensures s <= t {
      ClimbStaysIn(ws, t, focused, k);
      forall x | x in s ensures x in t {
        if x != root {
          var n: nat :| 1 <= n && Ancestor(ws, x, n) == Some(root);
          DescendStaysIn(ws, t, x, n);
        }
      }
    }
  }

  lemma {:induction false} ClimbStaysIn(ws: seq<Entry>, t: set<nat>, id: nat, k: nat)
    requires LinkClosed(ws, t) && id in t && id in Ids(ws)
    requires Ancestor(ws, id, k).Some? && Ancestor(ws, id, k).value in Ids(ws)
    ensures Ancestor(ws, id, k).value in t
  {
    if k > 0 {
      AncestorDefined(ws, id, k - 1, k);
      ClimbStaysIn(ws, t, id, k - 1);
    }
  }

  lemma {:induction false} DescendStaysIn(ws: seq<Entry>, t: set<nat>, id: nat, k: nat)
    requires LinkClosed(ws, t) && id in Ids(ws)
    requires Ancestor(ws, id, k).Some? && Ancestor(ws, id, k).value in t
    requires Ancestor(ws, id, k).value in Ids(ws)
    ensures id in t
  {
    if k > 0 {
      AncestorDefined(ws, id, k - 1, k);
      DescendStaysIn(ws, t, id, k - 1);
    }
  }

  // ------------------------------------------------------------------
  // What the graph depends on

  ghost predicate SameLink(a: Entry, b: Entry) {
    a.parent == b.parent && a.minimized == b.minimized
  }

  // The same windows with the same links, in whatever order.
  ghost predicate SameLinks(ws: seq<Entry>, vs: seq<Entry>) {
    forall id: nat ::
      && Find(ws, id).Some? == Find(vs, id).Some?
      && (Find(ws, id).Some? ==> SameLink(Find(ws, id).value, Find(vs, id).value))
  }

  lemma {:induction false} LinkedAncestor(ws: seq<Entry>, vs: seq<Entry>, id: nat, k: nat)
    requires SameLinks(ws, vs)
    ensures Ancestor(ws, id, k) == Ancestor(vs, id, k)
  {
    if k > 0 {
      LinkedAncestor(ws, vs, id, k - 1);
    }
  }

  lemma LinkedHidden(ws: seq<Entry>, vs: seq<Entry>, id: nat)
    requires SameLinks(ws, vs) && UniqueIds(ws) && UniqueIds(vs)
    ensures Hidden(ws, id) ==> Hidden(vs, id)
  {
    if p :| p in ws && p.minimized && Reaches(ws, id, p.id) {
      FindUnique(ws, p);
      var q := Find(vs, p.id).value;
      var k: nat :| 1 <= k && Ancestor(ws, id, k) == Some(p.id);
      LinkedAncestor(ws, vs, id, k);
    }
  }
}
