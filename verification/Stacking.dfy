// Drawing order: tiles, then the expanded window, then floating windows sorted
// by the lexicographic path from their outermost floating ancestor.
module Stacking {
  import opened Common
  import opened Model
  import opened ParentGraph

  datatype Key = Key(top: bool, order: nat, id: nat)

  function KeyOf(e: Entry): Key {
    Key(e.stayOnTop, e.stackingOrder, e.id)
  }

  predicate Floating(ws: seq<Entry>, id: nat) {
    Find(ws, id).Some? && Find(ws, id).value.floating.Some?
  }

  predicate KeyLess(a: Key, b: Key) {
    if a.top != b.top then b.top
    else a.order < b.order || (a.order == b.order && a.id < b.id)
  }

  predicate PathLess(p: seq<Key>, q: seq<Key>) {
    if q == [] then false
    else if p == [] then true
    else if p[0] == q[0] then PathLess(p[1..], q[1..])
    else KeyLess(p[0], q[0])
  }

  // The keys met walking up through floating windows, outermost first.
  function Climb(ws: seq<Entry>, from: Option<Entry>, fuel: nat): (r: seq<Key>)
    ensures |r| <= fuel
    decreases fuel
  {
    if fuel == 0 || from.None? || from.value.floating.None? then []
    else
      var above := match from.value.parent
                   case Some(p) => Find(ws, p)
                   case None => None;
      Climb(ws, above, fuel - 1) + [KeyOf(from.value)]
  }

  function Path(ws: seq<Entry>, id: nat): seq<Key> {
    Climb(ws, Find(ws, id), |ws|)
  }

  function Reverse<T>(s: seq<T>): seq<T> {
    if s == [] then [] else [s[|s| - 1]] + Reverse(s[..|s| - 1])
  }

  method StackingPath(ws: seq<Entry>, id: nat) returns (path: seq<Key>)
    ensures path == Path(ws, id)
  {
    var entry := Find(ws, id);
    path := [];
    for step := 0 to |ws|
      invariant Climb(ws, entry, |ws| - step) + Reverse(path) == Path(ws, id)
    {
      if entry.None? || entry.value.floating.None? {
        break;
      }
      var current := entry.value;
      ghost var before := path;
      path := path + [KeyOf(current)];
      assert path[..|path| - 1] == before;
      entry := if current.parent.Some? then Find(ws, current.parent.value) else None;
    }
    path := Reverse(path);
  }

  // ------------------------------------------------------------------
  // Paths of an acyclic workspace

  // A climb that ended early does not depend on its bound.
  lemma {:induction false} ClimbStable(ws: seq<Entry>, from: Option<Entry>, fuel: nat)
    requires |Climb(ws, from, fuel + 1)| <= fuel
    ensures Climb(ws, from, fuel + 1) == Climb(ws, from, fuel)
    decreases fuel
  {
    if fuel > 0 && from.Some? && from.value.floating.Some? {
      var above := match from.value.parent
                   case Some(p) => Find(ws, p)
                   case None => None;
      ClimbStable(ws, above, fuel - 1);
    }
  }

  // The j-th key from the inside belongs to the j-th ancestor.
  lemma {:induction false} ClimbVisits(ws: seq<Entry>, id: nat, fuel: nat, j: nat)
    requires j < |Climb(ws, Find(ws, id), fuel)|
    ensures Ancestor(ws, id, j).Some?
    ensures var a := Ancestor(ws, id, j).value; var p := Climb(ws, Find(ws, id), fuel);
            Floating(ws, a) && p[|p| - 1 - j] == KeyOf(Find(ws, a).value)
    decreases fuel
  {
    var e := Find(ws, id).value;
    if j > 0 {
      assert e.parent.Some?;
      var p := e.parent.value;
      ClimbVisits(ws, p, fuel - 1, j - 1);
      assert Ancestor(ws, id, 0) == Some(id) && Ancestor(ws, id, 1) == Some(p);
      AncestorAdd(ws, id, 1, j - 1);
    }
  }

  // Above a window there is room for at most |ws| - 1 others.
  lemma ParentPathShorter(ws: seq<Entry>, id: nat, p: nat)
    requires Acyclic(ws) && ParentOf(ws, id) == Some(p)
    ensures |Path(ws, p)| < |ws|
  {
    assert Find(ws, id).value in ws;
    if |Path(ws, p)| == |ws| {
      ClimbVisits(ws, p, |ws|, |ws| - 1);
      assert Ancestor(ws, id, 0) == Some(id) && Ancestor(ws, id, 1) == Some(p);
      AncestorAdd(ws, id, 1, |ws| - 1);
      var r := Ancestor(ws, id, |ws|).value;
      assert Find(ws, r).value in ws;
      LongWalkEndsOnCycle(ws, id, |ws|);
      assert false;
    }
  }

  // A parent's path is its child's path without the last key.
  lemma PathUnfold(ws: seq<Entry>, id: nat)
    requires Acyclic(ws) && Floating(ws, id)
    ensures var e := Find(ws, id).value;
            Path(ws, id) == (if e.parent.Some? && Floating(ws, e.parent.value)
                             then Path(ws, e.parent.value) else []) + [KeyOf(e)]
  {
    var e := Find(ws, id).value;
    assert |ws| > 0;
    var above := match e.parent
                 case Some(p) => Find(ws, p)
                 case None => None;
    assert Path(ws, id) == Climb(ws, above, |ws| - 1) + [KeyOf(e)];
    if e.parent.Some? && Floating(ws, e.parent.value) {
      ParentPathShorter(ws, id, e.parent.value);
      ClimbStable(ws, above, |ws| - 1);
    } else {
      assert Climb(ws, above, |ws| - 1) == [];
    }
  }

  // Every prefix of a path is the path of the window it ends with.
  lemma {:induction false} PathPrefix(ws: seq<Entry>, id: nat, i: nat)
    requires Acyclic(ws) && Floating(ws, id) && i < |Path(ws, id)|
    ensures var a := Path(ws, id)[i].id;
            && Floating(ws, a) && Within(ws, id, a)
            && Path(ws, id)[i] == KeyOf(Find(ws, a).value)
            && Path(ws, a) == Path(ws, id)[..i + 1]
    decreases |Path(ws, id)|
  {
    PathUnfold(ws, id);
    var e := Find(ws, id).value;
    if i == |Path(ws, id)| - 1 {
      assert Path(ws, id)[..i + 1] == Path(ws, id);
    } else {
      var p := e.parent.value;
      PathPrefix(ws, p, i);
      var a := Path(ws, p)[i].id;
      ReachesStep(ws, id, p, a);
      assert Path(ws, id)[..i + 1] == Path(ws, p)[..i + 1];
    }
  }

  // id hangs below top through floating windows only.
  ghost predicate FloatsBelow(ws: seq<Entry>, id: nat, top: nat) {
    exists k: nat :: Ancestor(ws, id, k) == Some(top)
      && forall j :: 0 <= j <= k ==> Ancestor(ws, id, j).Some? && Floating(ws, Ancestor(ws, id, j).value)
  }

  lemma {:induction false} ChainPrefix(ws: seq<Entry>, id: nat, top: nat, k: nat)
    requires Acyclic(ws)
    requires Ancestor(ws, id, k) == Some(top)
    requires forall j :: 0 <= j <= k ==> Ancestor(ws, id, j).Some? && Floating(ws, Ancestor(ws, id, j).value)
    ensures Path(ws, top) <= Path(ws, id)
    decreases k
  {
    assert Ancestor(ws, id, 0) == Some(id);
    if k > 0 {
      assert Ancestor(ws, id, 1) == ParentOf(ws, id);
      var p := Ancestor(ws, id, 1).value;
      forall j | 0 <= j <= k - 1
        ensures Ancestor(ws, p, j) == Ancestor(ws, id, j + 1)
      {
        AncestorAdd(ws, id, 1, j);
      }
      ChainPrefix(ws, p, top, k - 1);
      PathUnfold(ws, id);
    }
  }

  // A floating subtree is exactly the windows whose path extends its root's path.
  lemma SubtreeIsPathPrefix(ws: seq<Entry>, id: nat, top: nat)
    requires Acyclic(ws) && Floating(ws, id) && Floating(ws, top)
    ensures FloatsBelow(ws, id, top) <==> Path(ws, top) <= Path(ws, id)
  {
    PathUnfold(ws, top);
    if FloatsBelow(ws, id, top) {
      var k: nat :| Ancestor(ws, id, k) == Some(top)
        && forall j :: 0 <= j <= k ==> Ancestor(ws, id, j).Some? && Floating(ws, Ancestor(ws, id, j).value);
      ChainPrefix(ws, id, top, k);
    }
    if Path(ws, top) <= Path(ws, id) {
      var k := |Path(ws, id)| - |Path(ws, top)|;
      forall j | 0 <= j <= k
        ensures Ancestor(ws, id, j).Some? && Floating(ws, Ancestor(ws, id, j).value)
      {
        ClimbVisits(ws, id, |ws|, j);
      }
      ClimbVisits(ws, id, |ws|, k);
    }
  }

  // ------------------------------------------------------------------
  // The lexicographic order

  ghost function Divergence(p: seq<Key>, q: seq<Key>): (d: nat)
    ensures d <= |p| && d <= |q| && p[..d] == q[..d]
    ensures d < |p| && d < |q| ==> p[d] != q[d]
  {
    if p == [] || q == [] || p[0] != q[0] then 0
    else
      var d := Divergence(p[1..], q[1..]);
      assert p[..d + 1] == [p[0]] + p[1..][..d];
      assert q[..d + 1] == [q[0]] + q[1..][..d];
      d + 1
  }

  // Order is decided where two paths part, or by a prefix coming first.
  lemma {:induction false} LessAt(p: seq<Key>, q: seq<Key>, d: nat)
    requires d <= |p| && d <= |q| && p[..d] == q[..d]
    requires d < |p| && d < |q| ==> p[d] != q[d]
    ensures PathLess(p, q) <==> d < |q| && (d < |p| ==> KeyLess(p[d], q[d]))
  {
    if d > 0 {
      assert p[0] == p[..d][0] == q[0];
      assert p[1..][..d - 1] == p[..d][1..] && q[1..][..d - 1] == q[..d][1..];
      LessAt(p[1..], q[1..], d - 1);
    }
  }

  lemma {:induction false} LessTransitive(p: seq<Key>, q: seq<Key>, r: seq<Key>)
    requires PathLess(p, q) && PathLess(q, r)
    ensures PathLess(p, r)
  {
    if p != [] && p[0] == q[0] && q[0] == r[0] {
      LessTransitive(p[1..], q[1..], r[1..]);
    }
  }

  lemma {:induction false} LessTotal(p: seq<Key>, q: seq<Key>)
    ensures PathLess(p, q) || PathLess(q, p) || p == q
    ensures !(PathLess(p, q) && PathLess(q, p))
    ensures PathLess(p, q) ==> p != q
  {
    if p != [] && q != [] && p[0] == q[0] {
      LessTotal(p[1..], q[1..]);
      assert p == [p[0]] + p[1..] && q == [q[0]] + q[1..];
    }
  }

  // Between two paths with a common prefix every path has that prefix.
  lemma {:induction false} PrefixInterval(prefix: seq<Key>, a: seq<Key>, b: seq<Key>, c: seq<Key>)
    requires prefix <= a && prefix <= c
    requires PathLess(a, b) && PathLess(b, c)
    ensures prefix <= b
  {
    if prefix != [] {
      assert b[0] == prefix[0];
      PrefixInterval(prefix[1..], a[1..], b[1..], c[1..]);
    }
  }

  // ------------------------------------------------------------------
  // The layout's stable sort

  function Insert(ws: seq<Entry>, s: seq<nat>, id: nat): (r: seq<nat>)
    ensures |r| == |s| + 1
    ensures forall x :: x in r <==> x in s || x == id
  {
    if s == [] then [id]
    else if PathLess(Path(ws, id), Path(ws, s[0])) then [id] + s
    else [s[0]] + Insert(ws, s[1..], id)
  }

  function SortByPath(ws: seq<Entry>, s: seq<nat>): (r: seq<nat>)
    ensures |r| == |s|
    ensures forall x :: x in r <==> x in s
  {
    if s == [] then []
    else
      assert forall x :: x in s <==> x in s[..|s| - 1] || x == s[|s| - 1];
      Insert(ws, SortByPath(ws, s[..|s| - 1]), s[|s| - 1])
  }

  ghost predicate Sorted(ws: seq<Entry>, s: seq<nat>) {
    forall i, j :: 0 <= i < j < |s| ==> PathLess(Path(ws, s[i]), Path(ws, s[j]))
  }

  ghost predicate DistinctPaths(ws: seq<Entry>, s: seq<nat>) {
    NoDup(s) && forall a, b :: a in s && b in s && a != b ==> Path(ws, a) != Path(ws, b)
  }

  lemma {:induction false} InsertSorted(ws: seq<Entry>, s: seq<nat>, id: nat)
    requires Sorted(ws, s) && id !in s
    requires forall x :: x in s ==> Path(ws, x) != Path(ws, id)
    ensures Sorted(ws, Insert(ws, s, id))
  {
    if s != [] {
      if PathLess(Path(ws, id), Path(ws, s[0])) {
        forall j | 0 < j < |s| ensures PathLess(Path(ws, id), Path(ws, s[j])) {
          LessTransitive(Path(ws, id), Path(ws, s[0]), Path(ws, s[j]));
        }
      } else {
        LessTotal(Path(ws, id), Path(ws, s[0]));
        InsertSorted(ws, s[1..], id);
        var rest := Insert(ws, s[1..], id);
        forall j | 0 <= j < |rest| ensures PathLess(Path(ws, s[0]), Path(ws, rest[j])) {
          assert rest[j] in s[1..] || rest[j] == id;
        }
      }
    }
  }

  lemma {:induction false} SortSorted(ws: seq<Entry>, s: seq<nat>)
    requires DistinctPaths(ws, s)
    ensures Sorted(ws, SortByPath(ws, s))
  {
    if s != [] {
      SortSorted(ws, s[..|s| - 1]);
      InsertSorted(ws, SortByPath(ws, s[..|s| - 1]), s[|s| - 1]);
    }
  }

  // A floating window's own key ends its path, so no two paths are equal, even on a cycle.
  lemma PathsDistinct(ws: seq<Entry>, a: nat, b: nat)
    requires Floating(ws, a) && Floating(ws, b) && a != b
    ensures Path(ws, a) != Path(ws, b)
  {
    assert |ws| > 0;
    var p, q := Path(ws, a), Path(ws, b);
    assert p[|p| - 1].id == a && q[|q| - 1].id == b;
  }

  function Pos(s: seq<nat>, x: nat): (p: nat)
    ensures x in s ==> p < |s| && s[p] == x
  {
    if s == [] || s[0] == x then 0 else 1 + Pos(s[1..], x)
  }

  lemma {:induction false} PosAt(s: seq<nat>, i: nat)
    requires NoDup(s) && i < |s|
    ensures Pos(s, s[i]) == i
  {
    if i > 0 {
      PosAt(s[1..], i - 1);
    }
  }

  lemma SortedPos(ws: seq<Entry>, s: seq<nat>, a: nat, b: nat)
    requires Sorted(ws, s) && a in s && b in s
    ensures Pos(s, a) < Pos(s, b) <==> PathLess(Path(ws, a), Path(ws, b))
  {
    LessTotal(Path(ws, a), Path(ws, b));
  }

  lemma {:induction false} PosConcat(a: seq<nat>, b: seq<nat>, x: nat)
    ensures x in a ==> Pos(a + b, x) == Pos(a, x)
    ensures x !in a ==> Pos(a + b, x) == |a| + Pos(b, x)
  {
    if a == [] {
      assert a + b == b;
    } else {
      assert (a + b)[1..] == a[1..] + b;
      PosConcat(a[1..], b, x);
    }
  }

  // Selection keeps relative order.
  lemma {:induction false} PosPick(s: seq<nat>, ids: set<nat>, keep: bool, a: nat, b: nat)
    requires a in s && b in s && (a in ids) == keep && (b in ids) == keep
    ensures Pos(PickIds(s, ids, keep), a) < Pos(PickIds(s, ids, keep), b) <==> Pos(s, a) < Pos(s, b)
  {
    var head := if (s[0] in ids) == keep then [s[0]] else [];
    var rest := PickIds(s[1..], ids, keep);
    PosConcat(head, rest, a);
    PosConcat(head, rest, b);
    if a != s[0] && b != s[0] {
      assert a in s[1..] && b in s[1..];
      PosPick(s[1..], ids, keep, a, b);
    }
  }

  // ------------------------------------------------------------------
  // Layers

  function Layer(w: Workspace, e: Entry): nat {
    if w.fullscreen == Some(e.id) || w.maximized == Some(e.id) then 1
    else if e.floating.None? then 0
    else 2
  }

  function LayerIds(w: Workspace, ws: seq<Entry>, layer: nat): (r: seq<nat>)
    ensures forall x :: x in r <==> exists e :: e in ws && e.id == x && Layer(w, e) == layer
  {
    if ws == [] then []
    else
      assert forall e :: e in ws <==> e == ws[0] || e in ws[1..];
      (if Layer(w, ws[0]) == layer then [ws[0].id] else []) + LayerIds(w, ws[1..], layer)
  }

  // The drawing order of every window of a workspace, bottom first.
  function LayoutOrder(w: Workspace): (r: seq<nat>)
    ensures forall x :: x in r <==> exists e :: e in w.windows && e.id == x
  {
    var r := LayerIds(w, w.windows, 0) + LayerIds(w, w.windows, 1)
           + SortByPath(w.windows, LayerIds(w, w.windows, 2));
    assert forall e :: e in w.windows ==> Layer(w, e) <= 2;
    r
  }

  ghost predicate DrawnBefore(w: Workspace, a: nat, b: nat) {
    Pos(LayoutOrder(w), a) < Pos(LayoutOrder(w), b)
  }

  lemma {:induction false} LayerNoDup(w: Workspace, ws: seq<Entry>, layer: nat)
    requires UniqueIds(ws)
    ensures NoDup(LayerIds(w, ws, layer))
  {
    if ws != [] {
      LayerNoDup(w, ws[1..], layer);
      assert ws[0].id !in LayerIds(w, ws[1..], layer);
    }
  }

  lemma LayerMember(w: Workspace, id: nat, layer: nat)
    requires UniqueIds(w.windows)
    ensures id in LayerIds(w, w.windows, layer)
        <==> Find(w.windows, id).Some? && Layer(w, Find(w.windows, id).value) == layer
  {
    if id in LayerIds(w, w.windows, layer) {
      var e :| e in w.windows && e.id == id && Layer(w, e) == layer;
      FindUnique(w.windows, e);
    }
  }

  lemma FloatingSorted(w: Workspace)
    requires UniqueIds(w.windows)
    ensures var s := SortByPath(w.windows, LayerIds(w, w.windows, 2));
            Sorted(w.windows, s)
  {
    var s := LayerIds(w, w.windows, 2);
    LayerNoDup(w, w.windows, 2);
    forall a, b | a in s && b in s && a != b ensures Path(w.windows, a) != Path(w.windows, b) {
      LayerMember(w, a, 2);
      LayerMember(w, b, 2);
      PathsDistinct(w.windows, a, b);
    }
    SortSorted(w.windows, s);
  }

  lemma SortedNoDup(ws: seq<Entry>, s: seq<nat>)
    requires Sorted(ws, s)
    ensures NoDup(s)
  {
    forall i, j | 0 <= i < j < |s| ensures s[i] != s[j] {
      LessTotal(Path(ws, s[i]), Path(ws, s[j]));
    }
  }

  lemma LayoutNoDup(w: Workspace)
    requires UniqueIds(w.windows)
    ensures NoDup(LayoutOrder(w))
  {
    var a, b, c := LayerIds(w, w.windows, 0), LayerIds(w, w.windows, 1), LayerIds(w, w.windows, 2);
    FloatingSorted(w);
    SortedNoDup(w.windows, SortByPath(w.windows, c));
    LayerNoDup(w, w.windows, 0);
    LayerNoDup(w, w.windows, 1);
    forall x ensures !(x in a && x in b) && !(x in a && x in c) && !(x in b && x in c) {
      LayerMember(w, x, 0);
      LayerMember(w, x, 1);
      LayerMember(w, x, 2);
    }
    NoDupConcat(a, b);
    NoDupConcat(a + b, SortByPath(w.windows, c));
  }

  // Two windows of the floating layer are drawn in path order.
  lemma FloatingOrder(w: Workspace, a: nat, b: nat)
    requires UniqueIds(w.windows)
    requires a in LayerIds(w, w.windows, 2) && b in LayerIds(w, w.windows, 2)
    ensures DrawnBefore(w, a, b) <==> PathLess(Path(w.windows, a), Path(w.windows, b))
  {
    var lower := LayerIds(w, w.windows, 0) + LayerIds(w, w.windows, 1);
    var s := SortByPath(w.windows, LayerIds(w, w.windows, 2));
    FloatingSorted(w);
    forall x | x in {a, b} ensures x !in lower {
      LayerMember(w, x, 0);
      LayerMember(w, x, 1);
      LayerMember(w, x, 2);
    }
    PosConcat(lower, s, a);
    PosConcat(lower, s, b);
    SortedPos(w.windows, s, a, b);
  }

  // Parents are drawn before their floating children, and every floating
  // subtree occupies one contiguous block of the floating layer.
  lemma FloatingForest(w: Workspace, child: nat, a: nat, b: nat, c: nat, top: nat)
    requires UniqueIds(w.windows) && Acyclic(w.windows)
    requires {child, a, b, c} <= Elements(LayerIds(w, w.windows, 2)) && Floating(w.windows, top)
    ensures forall p :: ParentOf(w.windows, child) == Some(p) && p in LayerIds(w, w.windows, 2)
              ==> DrawnBefore(w, p, child)
    ensures FloatsBelow(w.windows, a, top) && FloatsBelow(w.windows, c, top)
         && DrawnBefore(w, a, b) && DrawnBefore(w, b, c)
         ==> FloatsBelow(w.windows, b, top)
  {
    var ws := w.windows;
    forall x | x in {child, a, b, c} ensures Floating(ws, x) {
      LayerMember(w, x, 2);
    }
    forall p | ParentOf(ws, child) == Some(p) && p in LayerIds(w, ws, 2)
      ensures DrawnBefore(w, p, child)
    {
      LayerMember(w, p, 2);
      PathUnfold(ws, child);
      LessAt(Path(ws, p), Path(ws, child), |Path(ws, p)|);
      FloatingOrder(w, p, child);
    }
    FloatingOrder(w, a, b);
    FloatingOrder(w, b, c);
    SubtreeIsPathPrefix(ws, a, top);
    SubtreeIsPathPrefix(ws, b, top);
    SubtreeIsPathPrefix(ws, c, top);
    if Path(ws, top) <= Path(ws, a) && Path(ws, top) <= Path(ws, c)
       && PathLess(Path(ws, a), Path(ws, b)) && PathLess(Path(ws, b), Path(ws, c)) {
      PrefixInterval(Path(ws, top), Path(ws, a), Path(ws, b), Path(ws, c));
    }
  }
}
