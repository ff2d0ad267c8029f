// Stepping along a list as along a ring: when every element is met once, and
// when stepping back undoes stepping forward, repeated elements included.
module Ring {
  import opened Common
  import opened Stacking

  datatype Step = Next | Previous

  function Opposite(step: Step): Step {
    if step.Next? then Previous else Next
  }

  // The remainder of the index by the length of the ring.
  function Wrapped(i: nat, n: nat): (r: nat)
    requires n > 0
    ensures r < n
    decreases i
  {
    if i < n then i else Wrapped(i - n, n)
  }

  function NextTarget(sequence: seq<nat>, current: Option<nat>, step: Step): Option<nat> {
    if sequence == [] then None
    else if current.None? || current.value !in sequence then Some(sequence[0])
    else
      var offset := if step.Next? then 1 else |sequence| - 1;
      Some(sequence[Wrapped(Pos(sequence, current.value) + offset, |sequence|)])
  }

  // Following NextTarget forward k times.
  function Walk(sequence: seq<nat>, from: nat, k: nat): Option<nat> {
    if k == 0 then Some(from) else NextTarget(sequence, Walk(sequence, from, k - 1), Next)
  }

  lemma WrappedOnce(i: nat, n: nat)
    requires 0 < n && i < n + n
    ensures Wrapped(i, n) == if i < n then i else i - n
  {
    if i >= n {
      assert Wrapped(i - n, n) == i - n;
    }
  }

  lemma StepForward(o: seq<nat>, x: nat)
    requires x in o
    ensures NextTarget(o, Some(x), Next) == Some(if Pos(o, x) + 1 < |o| then o[Pos(o, x) + 1] else o[0])
  {
    WrappedOnce(Pos(o, x) + 1, |o|);
  }

  lemma StepBack(o: seq<nat>, x: nat)
    requires x in o
    ensures NextTarget(o, Some(x), Previous) == Some(if Pos(o, x) > 0 then o[Pos(o, x) - 1] else o[|o| - 1])
  {
    WrappedOnce(Pos(o, x) + (|o| - 1), |o|);
  }

  lemma FirstPos(o: seq<nat>, x: nat, i: nat)
    requires i < |o| && o[i] == x
    ensures Pos(o, x) <= i
  {
    if i > 0 && o[0] != x {
      FirstPos(o[1..], x, i - 1);
    }
  }

  lemma PosInPrefix(o: seq<nat>, r: nat, i: nat)
    requires i < r <= |o| && NoDup(o[..r])
    ensures Pos(o, o[i]) == i
  {
    FirstPos(o, o[i], i);
    var p := Pos(o, o[i]);
    assert o[..r][p] == o[p] && o[..r][i] == o[i];
  }

  // ------------------------------------------------------------------
  // Rings

  // The first r elements are distinct and the only ones.
  ghost predicate Covers(o: seq<nat>, r: nat) {
    0 < r <= |o| && NoDup(o[..r]) && forall x :: x in o ==> x in o[..r]
  }

  // Past them the list, if it goes on, starts over.
  ghost predicate Cyclic(o: seq<nat>, r: nat) {
    Covers(o, r) && (r == |o| || o[r] == o[0])
  }

  // And it ends as they end.
  ghost predicate Reversible(o: seq<nat>, r: nat) {
    Cyclic(o, r) && o[|o| - 1] == o[r - 1]
  }

  lemma CoversCount(o: seq<nat>, r: nat)
    requires Covers(o, r)
    ensures r == |Elements(o)|
  {
    NoDupCardinality(o[..r]);
    assert Elements(o) == Elements(o[..r]) by {
      forall x | x in Elements(o[..r]) ensures x in Elements(o) {
      }
    }
  }

  lemma DistinctReversible(o: seq<nat>)
    requires o != [] && NoDup(o)
    ensures Reversible(o, |o|)
  {
    assert o[..|o|] == o;
  }

  // i + k places along a ring of n.
  function Around(i: nat, k: nat, n: nat): nat {
    if i + k < n then i + k else i + k - n
  }

  lemma {:induction false} WalkRing(o: seq<nat>, r: nat, i: nat, k: nat)
    requires Cyclic(o, r) && i < r && k <= r
    ensures Walk(o, o[i], k) == Some(o[Around(i, k, r)])
  {
    if k > 0 {
      WalkRing(o, r, i, k - 1);
      var j := Around(i, k - 1, r);
      PosInPrefix(o, r, j);
      StepForward(o, o[j]);
    }
  }

  // A full round of Next meets every element once and comes home.
  ghost predicate MeetsOnce(o: seq<nat>, from: nat) {
    var n := |Elements(o)|;
    && (forall i, j :: 0 <= i < j < n ==> Walk(o, from, i) != Walk(o, from, j))
    && Walk(o, from, n) == Some(from)
  }

  lemma CyclicMeetsOnce(o: seq<nat>, r: nat, from: nat)
    requires Cyclic(o, r) && from in o
    ensures MeetsOnce(o, from)
  {
    CoversCount(o, r);
    var p :| 0 <= p < |o[..r]| && o[..r][p] == from;
    forall i, j | 0 <= i < j < r ensures Walk(o, from, i) != Walk(o, from, j) {
      WalkRing(o, r, p, i);
      WalkRing(o, r, p, j);
      assert o[..r][Around(p, i, r)] != o[..r][Around(p, j, r)];
    }
    WalkRing(o, r, p, r);
  }

  // The length of the longest prefix without repeats.
  ghost function Fresh(o: seq<nat>, r: nat): (k: nat)
    requires r <= |o| && NoDup(o[..r])
    ensures r <= k <= |o| && NoDup(o[..k]) && (k < |o| ==> o[k] in o[..k])
    decreases |o| - r
  {
    if r == |o| || o[r] in o[..r] then r
    else
      assert o[..r + 1] == o[..r] + [o[r]];
      Fresh(o, r + 1)
  }

  lemma {:induction false} WalkAdds(o: seq<nat>, from: nat, i: nat, k: nat)
    requires Walk(o, from, i).Some?
    ensures Walk(o, from, i + k) == Walk(o, Walk(o, from, i).value, k)
    decreases k
  {
    if k > 0 {
      WalkAdds(o, from, i, k - 1);
    }
  }

  lemma {:induction false} WalkStays(o: seq<nat>, from: nat, k: nat)
    requires from in o
    ensures Walk(o, from, k).Some? && Walk(o, from, k).value in o
  {
    if k > 0 {
      WalkStays(o, from, k - 1);
    }
  }

  // From o[j] the walk runs along the fresh prefix.
  lemma {:induction false} WalkPrefix(o: seq<nat>, r: nat, j: nat, k: nat)
    requires r <= |o| && NoDup(o[..r]) && j < r && j + k <= r && j + k < |o|
    ensures Walk(o, o[j], k) == Some(o[j + k])
  {
    if k > 0 {
      WalkPrefix(o, r, j, k - 1);
      PosInPrefix(o, r, j + k - 1);
      StepForward(o, o[j + k - 1]);
    }
  }

  // A walk that meets everything once meets everything.
  lemma MetSomewhere(o: seq<nat>, from: nat, x: nat) returns (k: nat)
    requires from in o && x in o && MeetsOnce(o, from)
    ensures k < |Elements(o)| && Walk(o, from, k) == Some(x)
  {
    var n := |Elements(o)|;
    forall i | 0 <= i < n ensures Walk(o, from, i).Some? && Walk(o, from, i).value in o {
      WalkStays(o, from, i);
    }
    var met := seq(n, i requires 0 <= i < n => Walk(o, from, i).value);
    if x !in met {
      assert NoDup(met);
      Pigeonhole(met + [x], Elements(o));
    }
    k :| 0 <= k < |met| && met[k] == x;
  }

  // A round from any element meets everything once exactly when the list is cyclic.
  lemma MeetsOnceIff(o: seq<nat>, from: nat)
    requires from in o
    ensures MeetsOnce(o, from) <==> exists r :: Cyclic(o, r)
  {
    if r :| Cyclic(o, r) {
      CyclicMeetsOnce(o, r, from);
    }
    if MeetsOnce(o, from) {
      var r := Fresh(o, 0);
      if r == |o| {
        assert o[..r] == o;
      } else {
        ShortLoop(o, from, r);
      }
      assert Cyclic(o, r);
    }
  }

  // The first repeat closes a loop; it must be the whole ring.
  lemma ShortLoop(o: seq<nat>, from: nat, r: nat)
    requires from in o && MeetsOnce(o, from) && r < |o| && NoDup(o[..r]) && o[r] in o[..r]
    ensures Cyclic(o, r)
  {
    var j :| 0 <= j < |o[..r]| && o[..r][j] == o[r];
    LoopLength(o, from, r, j);
    NoDupCardinality(o[..r]);
    assert Elements(o[..r]) <= Elements(o) by {
      forall x | x in o[..r] ensures x in o {
      }
    }
    SubsetCardinality(Elements(o[..r]), Elements(o));
    SameSize(Elements(o[..r]), Elements(o));
    assert forall x :: x in o ==> x in Elements(o);
  }

  // The loop from a repeat back to where it was first is a full round.
  lemma LoopLength(o: seq<nat>, from: nat, r: nat, j: nat)
    requires from in o && MeetsOnce(o, from) && j < r < |o| && NoDup(o[..r]) && o[r] == o[j]
    ensures r - j >= |Elements(o)|
  {
    var n, length := |Elements(o)|, r - j;
    assert Walk(o, o[j], length) == Some(o[j]) by { WalkPrefix(o, r, j, length); }
    var k := MetSomewhere(o, from, o[j]);
    assert Walk(o, from, k + length) == Walk(o, from, k) by { WalkAdds(o, from, k, length); }
    if k + length >= n {
      WalkAdds(o, from, n, k + length - n);
    }
  }

  lemma SameSize<T>(a: set<T>, b: set<T>)
    requires a <= b && |a| >= |b|
    ensures a == b
  {
    if x :| x in b && x !in a {
      SubsetCardinality(a, b - {x});
    }
  }

  // ------------------------------------------------------------------
  // Undoing a step

  ghost predicate Undoes(o: seq<nat>, step: Step) {
    forall x :: x in o ==> NextTarget(o, NextTarget(o, Some(x), step), Opposite(step)) == Some(x)
  }

  // Each step undoes the other, from everywhere, exactly when the list is reversible.
  lemma UndoesIff(o: seq<nat>, step: Step)
    requires o != []
    ensures Undoes(o, step) <==> exists r :: Reversible(o, r)
  {
    if r :| Reversible(o, r) {
      forall x | x in o ensures NextTarget(o, NextTarget(o, Some(x), step), Opposite(step)) == Some(x) {
        ReversibleUndoes(o, r, x, step);
      }
    }
    if Undoes(o, step) {
      if step.Next? {
        ForwardCloses(o);
      } else {
        BackCloses(o);
      }
    }
  }

  lemma ReversibleUndoes(o: seq<nat>, r: nat, x: nat, step: Step)
    requires Reversible(o, r) && x in o
    ensures NextTarget(o, NextTarget(o, Some(x), step), Opposite(step)) == Some(x)
  {
    var p :| 0 <= p < |o[..r]| && o[..r][p] == x;
    PosInPrefix(o, r, p);
    PosInPrefix(o, r, 0);
    PosInPrefix(o, r, r - 1);
    StepForward(o, x);
    StepBack(o, x);
    if step.Next? {
      var y := o[if p + 1 < r then p + 1 else 0];
      PosInPrefix(o, r, if p + 1 < r then p + 1 else 0);
      StepBack(o, y);
    } else {
      var y := o[if p > 0 then p - 1 else r - 1];
      PosInPrefix(o, r, if p > 0 then p - 1 else r - 1);
      StepForward(o, y);
    }
  }

  // The last position at which something new appears.
  ghost function LastNew(o: seq<nat>, n: nat): (k: nat)
    requires 0 < n <= |o|
    ensures k < n && Pos(o, o[k]) == k
    ensures forall i :: k < i < n ==> Pos(o, o[i]) < i
  {
    if Pos(o, o[n - 1]) == n - 1 || n == 1 then
      FirstPos(o, o[n - 1], n - 1);
      n - 1
    else
      FirstPos(o, o[n - 1], n - 1);
      LastNew(o, n - 1)
  }

  lemma ForwardCloses(o: seq<nat>)
    requires o != [] && Undoes(o, Next)
    ensures exists r :: Reversible(o, r)
  {
    assert NoDup(o[..0]);
    var r, last := Fresh(o, 0), LastNew(o, |o|);
    if r == |o| {
      assert o[..r] == o;
      DistinctReversible(o);
      return;
    }
    var j :| 0 <= j < |o[..r]| && o[..r][j] == o[r];
    BackFromRepeat(o, r, j);
    if last >= r {
      BackFromLast(o, last);
      FirstPos(o, o[r - 1], r - 1);
    }
    CoveredBy(o, last, r);
    assert Reversible(o, r);
  }

  lemma BackFromRepeat(o: seq<nat>, r: nat, j: nat)
    requires Undoes(o, Next) && j < r < |o| && NoDup(o[..r]) && o[r] == o[j]
    ensures j == 0 && o[|o| - 1] == o[r - 1]
  {
    var x, y := o[r - 1], o[r];
    assert Pos(o, x) == r - 1 by { PosInPrefix(o, r, r - 1); }
    assert Pos(o, y) == j by { PosInPrefix(o, r, j); }
    assert NextTarget(o, Some(y), Previous) == Some(x) by { StepForward(o, x); }
    StepBack(o, y);
    if j > 0 {
      PosInPrefix(o, r, j - 1);
    }
  }

  // If new elements appeared after a repeat, the last of them would end the list.
  lemma BackFromLast(o: seq<nat>, last: nat)
    requires Undoes(o, Next) && last < |o| && Pos(o, o[last]) == last
    requires forall i :: last < i < |o| ==> Pos(o, o[i]) < i
    ensures o[|o| - 1] == o[last]
  {
    StepForward(o, o[last]);
    if last + 1 < |o| {
      var p := Pos(o, o[last + 1]);
      StepBack(o, o[last + 1]);
      if p > 0 {
        FirstPos(o, o[last], p - 1);
      }
    }
  }

  lemma CoveredBy(o: seq<nat>, last: nat, r: nat)
    requires last < r <= |o| && NoDup(o[..r])
    requires forall i :: last < i < |o| ==> Pos(o, o[i]) < i
    ensures Covers(o, r)
  {
    forall x | x in o ensures x in o[..r] {
      var p := Pos(o, x);
      assert o[p] == x;
      assert p <= last;
      assert o[..r][p] == x;
    }
  }

  lemma BackCloses(o: seq<nat>)
    requires o != [] && Undoes(o, Previous)
    ensures exists r :: Reversible(o, r)
  {
    var last := LastNew(o, |o|);
    var r := last + 1;
    FirstsDistinct(o, last);
    CoveredBy(o, last, r);
    EndsMeet(o, last);
    assert Reversible(o, r);
  }

  lemma FirstsDistinct(o: seq<nat>, last: nat)
    requires Undoes(o, Previous) && last < |o| && Pos(o, o[last]) == last
    ensures NoDup(o[..last + 1]) && forall i :: 0 <= i <= last ==> Pos(o, o[i]) == i
  {
    forall i | 0 <= i <= last ensures Pos(o, o[i]) == i {
      FirstsDescend(o, last, i);
    }
    var firsts := o[..last + 1];
    forall i, j | 0 <= i < j < |firsts| ensures firsts[i] != firsts[j] {
      assert Pos(o, o[i]) != Pos(o, o[j]);
    }
  }

  lemma EndsMeet(o: seq<nat>, last: nat)
    requires last < |o| && Undoes(o, Previous) && Pos(o, o[last]) == last
    requires forall i :: last < i < |o| ==> Pos(o, o[i]) < i
    requires forall i :: 0 <= i <= last ==> Pos(o, o[i]) == i
    ensures o[|o| - 1] == o[last] && (last + 1 < |o| ==> o[last + 1] == o[0])
  {
    var x := o[|o| - 1];
    assert NextTarget(o, Some(o[0]), Previous) == Some(x) by { StepBack(o, o[0]); }
    assert NextTarget(o, Some(x), Next) == Some(o[0]);
    StepForward(o, x);
  }

  // What precedes a first occurrence is one.
  lemma {:induction false} FirstsDescend(o: seq<nat>, last: nat, i: nat)
    requires Undoes(o, Previous) && i <= last < |o| && Pos(o, o[last]) == last
    ensures Pos(o, o[i]) == i
    decreases last - i
  {
    if i < last {
      FirstsDescend(o, last, i + 1);
      FirstBefore(o, i);
    }
  }

  lemma FirstBefore(o: seq<nat>, i: nat)
    requires Undoes(o, Previous) && i + 1 < |o| && Pos(o, o[i + 1]) == i + 1
    ensures Pos(o, o[i]) == i
  {
    var x, y := o[i], o[i + 1];
    var p := Pos(o, x);
    assert p <= i by { FirstPos(o, x, i); }
    assert NextTarget(o, Some(y), Previous) == Some(x) by { StepBack(o, y); }
    assert NextTarget(o, Some(x), Next) == Some(y);
    assert o[p + 1] == y by { StepForward(o, x); }
    FirstPos(o, y, p + 1);
  }
}
