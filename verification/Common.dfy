// Vocabulary shared by every part of the desktop model.
module Common {
  datatype Option<+T> = None | Some(value: T)

  function Max(a: int, b: int): int { if a < b then b else a }

  function Min(a: int, b: int): int { if a < b then a else b }

  // Rust's `clamp`; its panic on lo > hi is excluded by the callers.
  function Clamp(x: int, lo: int, hi: int): int
    requires lo <= hi
  {
    if x < lo then lo else if x > hi then hi else x
  }

  function Abs(x: int): nat { if x < 0 then -x else x }

  ghost predicate NoDup<T>(s: seq<T>) {
    forall i, j :: 0 <= i < j < |s| ==> s[i] != s[j]
  }

  ghost function Elements<T>(s: seq<T>): set<T> {
    set x | x in s
  }

  lemma {:induction false} NoDupCardinality<T>(s: seq<T>)
    requires NoDup(s)
    ensures |Elements(s)| == |s|
  {
    if s == [] {
      assert Elements(s) == {};
    } else {
      var front, last := s[..|s| - 1], s[|s| - 1];
      NoDupCardinality(front);
      assert s == front + [last];
      assert last !in front;
      assert Elements(s) == Elements(front) + {last};
    }
  }

  lemma NoDupConcat<T>(a: seq<T>, b: seq<T>)
    requires NoDup(a) && NoDup(b)
    requires forall x :: x in a ==> x !in b
    ensures NoDup(a + b)
  {
    forall i, j | 0 <= i < j < |a + b| ensures (a + b)[i] != (a + b)[j] {
      if i < |a| <= j {
        assert a[i] in a && b[j - |a|] in b;
      }
    }
  }

  lemma SubsetCardinality<T>(a: set<T>, b: set<T>)
    requires a <= b
    ensures |a| <= |b|
  {
    if a != {} {
      var x :| x in a;
      SubsetCardinality(a - {x}, b - {x});
    }
  }

  // Pigeonhole: distinct elements of a set cannot outnumber it.
  lemma Pigeonhole<T>(s: seq<T>, pool: set<T>)
    requires NoDup(s)
    requires forall x :: x in s ==> x in pool
    ensures |s| <= |pool|
  {
    NoDupCardinality(s);
    SubsetCardinality(Elements(s), pool);
  }

  ghost function Below(n: nat): (r: set<nat>)
    ensures |r| == n
    ensures forall x: nat :: x in r <==> x < n
  {
    if n == 0 then {}
    else
      var rest := Below(n - 1);
      assert n - 1 !in rest;
      rest + {n - 1}
  }
}
