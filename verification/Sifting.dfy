// What selecting from a list leaves: exactly the chosen elements, in their order.
module Sifting {
  import opened Model

  // The marked positions, in rising order.
  ghost predicate Sieve(at: seq<nat>, marks: seq<bool>) {
    && (forall k :: 0 <= k < |at| ==> at[k] < |marks|)
    && (forall j, k :: 0 <= j < k < |at| ==> at[j] < at[k])
    && (forall i :: 0 <= i < |marks| ==> (marks[i] <==> i in at))
  }

  ghost predicate Drawn<T>(part: seq<T>, all: seq<T>, at: seq<nat>) {
    |part| == |at| && forall k :: 0 <= k < |at| ==> at[k] < |all| && part[k] == all[at[k]]
  }

  // part is all without its unmarked elements.
  ghost predicate Sifted<T>(part: seq<T>, all: seq<T>, marks: seq<bool>) {
    |marks| == |all| && exists at: seq<nat> :: Sieve(at, marks) && Drawn(part, all, at)
  }

  // Which ids belong to a set, or do not.
  function Marks(ids: seq<nat>, chosen: set<nat>, keep: bool): (r: seq<bool>)
    ensures |r| == |ids| && forall i :: 0 <= i < |ids| ==> r[i] == ((ids[i] in chosen) == keep)
  {
    seq(|ids|, i requires 0 <= i < |ids| => (ids[i] in chosen) == keep)
  }

  function MarksOf(ws: seq<Entry>, chosen: set<nat>, keep: bool): (r: seq<bool>)
    ensures |r| == |ws| && forall i :: 0 <= i < |ws| ==> r[i] == ((ws[i].id in chosen) == keep)
  {
    seq(|ws|, i requires 0 <= i < |ws| => (ws[i].id in chosen) == keep)
  }

  lemma {:induction false} PickSifts(ws: seq<Entry>, ids: set<nat>, keep: bool)
    ensures Sifted(Pick(ws, ids, keep), ws, MarksOf(ws, ids, keep))
  {
    if ws == [] {
      SiftedNothing<Entry>();
    } else {
      PickSifts(ws[1..], ids, keep);
      assert MarksOf(ws, ids, keep)[1..] == MarksOf(ws[1..], ids, keep);
      SiftedOn(Pick(ws[1..], ids, keep), ws, MarksOf(ws, ids, keep));
    }
  }

  lemma {:induction false} PickIdsSifts(s: seq<nat>, ids: set<nat>, keep: bool)
    ensures Sifted(PickIds(s, ids, keep), s, Marks(s, ids, keep))
  {
    if s == [] {
      SiftedNothing<nat>();
    } else {
      PickIdsSifts(s[1..], ids, keep);
      assert Marks(s, ids, keep)[1..] == Marks(s[1..], ids, keep);
      SiftedOn(PickIds(s[1..], ids, keep), s, Marks(s, ids, keep));
    }
  }

  lemma SiftedNothing<T>()
    ensures Sifted<T>([], [], [])
  {
    assert Sieve([], []) && Drawn<T>([], [], []);
  }

  // One more element in front.
  lemma SiftedOn<T>(part: seq<T>, all: seq<T>, marks: seq<bool>)
    requires all != [] && |marks| == |all| && Sifted(part, all[1..], marks[1..])
    ensures Sifted((if marks[0] then [all[0]] else []) + part, all, marks)
  {
    var at: seq<nat> :| Sieve(at, marks[1..]) && Drawn(part, all[1..], at);
    SieveOn(at, marks);
    DrawnOn(part, all, at, marks[0]);
  }

  lemma DrawnOn<T>(part: seq<T>, all: seq<T>, at: seq<nat>, first: bool)
    requires all != [] && Drawn(part, all[1..], at)
    ensures Drawn((if first then [all[0]] else []) + part, all, Shifted(at, first))
  {
    var whole, d := Shifted(at, first), if first then 1 else 0;
    forall k | d <= k < |whole| ensures whole[k] == at[k - d] + 1 && all[whole[k]] == all[1..][at[k - d]] {
    }
  }

  function Shifted(at: seq<nat>, first: bool): seq<nat> {
    (if first then [0] else []) + seq(|at|, k requires 0 <= k < |at| => at[k] + 1)
  }

  lemma SieveOn(at: seq<nat>, marks: seq<bool>)
    requires marks != [] && Sieve(at, marks[1..])
    ensures Sieve(Shifted(at, marks[0]), marks)
  {
    var whole := Shifted(at, marks[0]);
    forall i | 0 <= i < |marks| ensures marks[i] <==> i in whole {
      if i > 0 {
        assert marks[1..][i - 1] == marks[i];
        ShiftedIn(at, marks[0], i);
      }
    }
  }

  lemma ShiftedIn(at: seq<nat>, first: bool, i: nat)
    requires i > 0
    ensures i in Shifted(at, first) <==> i - 1 in at
  {
    var whole, d := Shifted(at, first), if first then 1 else 0;
    if i - 1 in at {
      var k :| 0 <= k < |at| && at[k] == i - 1;
      assert whole[k + d] == i;
    }
    if i in whole {
      var k :| 0 <= k < |whole| && whole[k] == i;
      assert at[k - d] == i - 1;
    }
  }

  // One more element at the end.
  lemma SiftedSnoc<T>(part: seq<T>, all: seq<T>, marks: seq<bool>, last: T, kept: bool)
    requires Sifted(part, all, marks)
    ensures Sifted(part + if kept then [last] else [], all + [last], marks + [kept])
  {
    var at: seq<nat> :| Sieve(at, marks) && Drawn(part, all, at);
    var whole: seq<nat> := at + if kept then [|all|] else [];
    SieveSnoc(at, marks, kept);
    assert Drawn(part + if kept then [last] else [], all + [last], whole);
  }

  lemma SieveSnoc(at: seq<nat>, marks: seq<bool>, kept: bool)
    requires Sieve(at, marks)
    ensures Sieve(at + if kept then [|marks|] else [], marks + [kept])
  {
    forall i | 0 <= i < |marks| ensures i in at + (if kept then [|marks|] else []) <==> i in at {
    }
    assert |marks| !in at;
  }

  // A list from its end to its start.
  function Backwards<T>(s: seq<T>): (r: seq<T>)
    ensures |r| == |s| && forall i :: 0 <= i < |s| ==> r[i] == s[|s| - 1 - i]
  {
    seq(|s|, i requires 0 <= i < |s| => s[|s| - 1 - i])
  }
}
