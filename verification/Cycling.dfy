// Cycling the keyboard focus through the windows of the active workspace.
module Cycling {
  import opened Common
  import opened Model
  import opened ParentGraph
  import opened Stacking
  import opened Raising
  import opened Sifting
  import opened Visibility
  import opened Focus
  import opened Ring

  // Windows a step may target, in layout order.
  ghost function CandidatesIn(all: seq<Entry>, ws: seq<Entry>): (r: seq<nat>)
    ensures forall id :: id in r <==> exists e :: e in ws && e.id == id && Shown(all, e)
  {
    if ws == [] then []
    else
      var last := ws[|ws| - 1];
      assert forall e :: e in ws <==> e in ws[..|ws| - 1] || e == last;
      CandidatesIn(all, ws[..|ws| - 1]) + if Shown(all, last) then [last.id] else []
  }

  ghost function Candidates(w: Workspace): seq<nat> {
    CandidatesIn(w.windows, w.windows)
  }

  // Most recently focused first, keeping only candidates.
  function Recent(history: seq<nat>, candidates: seq<nat>): (r: seq<nat>)
    ensures forall id :: id in r <==> id in history && id in candidates
  {
    if history == [] then []
    else
      var last := history[|history| - 1];
      assert forall id :: id in history <==> id in history[..|history| - 1] || id == last;
      (if last in candidates then [last] else []) + Recent(history[..|history| - 1], candidates)
  }

  // The walk order: layout order, or recency with never-focused windows trailing.
  function SequenceOf(history: seq<nat>, candidates: seq<nat>, mru: bool): (r: seq<nat>)
    ensures forall id :: id in r <==> id in candidates
  {
    if mru then
      var recent := Recent(history, candidates);
      recent + PickIds(candidates, set id | id in recent, false)
    else candidates
  }

  method FocusCycleCandidates(w: Workspace) returns (r: seq<nat>)
    requires UniqueIds(w.windows)
    ensures r == Candidates(w)
  {
    var ws := w.windows;
    r := [];
    for i := 0 to |ws|
      invariant r == CandidatesIn(ws, ws[..i])
    {
      assert ws[..i + 1][..i] == ws[..i];
      var shown := IsShown(ws, ws[i]);
      if shown {
        r := r + [ws[i].id];
      }
    }
    assert ws[..|ws|] == ws;
  }

  method RecentCandidates(history: seq<nat>, candidates: seq<nat>) returns (r: seq<nat>)
    ensures r == Recent(history, candidates)
  {
    r := [];
    assert history[..|history|] == history;
    for i := |history| downto 0
      invariant r + Recent(history[..i], candidates) == Recent(history, candidates)
    {
      assert history[..i + 1][..i] == history[..i];
      ghost var head := if history[i] in candidates then [history[i]] else [];
      Reassociate(r, head, Recent(history[..i], candidates));
      if history[i] in candidates {
        r := r + [history[i]];
      }
    }
  }

  lemma Reassociate<T>(a: seq<T>, b: seq<T>, c: seq<T>)
    ensures a + (b + c) == (a + b) + c && a + [] == a
  {
  }

  // Windows never focused still appear, in layout order.
  method AppendMissing(recent: seq<nat>, candidates: seq<nat>) returns (r: seq<nat>)
    requires NoDup(candidates)
    ensures r == recent + PickIds(candidates, set id | id in recent, false)
  {
    r := recent;
    ghost var seen := set id | id in recent;
    assert candidates[0..] == candidates;
    for k := 0 to |candidates|
      invariant r + PickIds(candidates[k..], seen, false) == recent + PickIds(candidates, seen, false)
      invariant forall j :: k <= j < |candidates| ==> (candidates[j] in r <==> candidates[j] in recent)
    {
      assert candidates[k..][1..] == candidates[k + 1..] && candidates[k..][0] == candidates[k];
      ghost var head := if candidates[k] in recent then [] else [candidates[k]];
      assert PickIds(candidates[k..], seen, false) == head + PickIds(candidates[k + 1..], seen, false);
      Reassociate(r, head, PickIds(candidates[k + 1..], seen, false));
      if candidates[k] !in r {
        r := r + [candidates[k]];
      }
    }
  }

  method FocusCycleSequence(history: seq<nat>, candidates: seq<nat>, mru: bool) returns (r: seq<nat>)
    requires NoDup(candidates)
    ensures r == SequenceOf(history, candidates, mru)
  {
    if !mru {
      return candidates;
    }
    var recent := RecentCandidates(history, candidates);
    r := AppendMissing(recent, candidates);
  }

  // Leave the overlay if the target is behind it, then focus without touching recency.
  ghost function RevealedFocus(s: Stage, target: nat, remember: bool): Stage {
    Focused(if Visible(s.w, target) then s
            else Relaid(s.(w := s.w.(fullscreen := None, maximized := None))), target, remember)
  }

  ghost function Cycled(s: Stage, mru: bool, step: Step): Stage {
    match NextTarget(SequenceOf(s.w.focusHistory, Candidates(s.w), mru), s.focus, step)
    case Some(target) => RevealedFocus(s, target, false)
    case None => s
  }

  lemma {:induction false} SameCandidates(ws: seq<Entry>, vs: seq<Entry>, n: nat)
    requires SameForest(ws, vs) && n <= |ws|
    ensures CandidatesIn(ws, ws[..n]) == CandidatesIn(vs, vs[..n])
  {
    if n > 0 {
      SameCandidates(ws, vs, n - 1);
      assert ws[..n][..n - 1] == ws[..n - 1] && vs[..n][..n - 1] == vs[..n - 1];
      SameNodes(vs, ws);
      if Hidden(ws, ws[n - 1].id) {
        SameHidden(ws, vs, ws[n - 1].id);
      }
      if Hidden(vs, ws[n - 1].id) {
        SameHidden(vs, ws, ws[n - 1].id);
      }
    }
  }

  lemma {:induction false} CandidatesNoDup(all: seq<Entry>, ws: seq<Entry>)
    requires UniqueIds(ws)
    ensures NoDup(CandidatesIn(all, ws))
  {
    if ws != [] {
      var front := ws[..|ws| - 1];
      CandidatesNoDup(all, front);
      forall e | e in front ensures e.id != ws[|ws| - 1].id {
        var i :| 0 <= i < |front| && front[i] == e;
      }
      assert ws[|ws| - 1].id !in CandidatesIn(all, front);
    }
  }

  lemma {:induction false} RecentNoDup(history: seq<nat>, candidates: seq<nat>)
    requires NoDup(history)
    ensures NoDup(Recent(history, candidates))
  {
    if history != [] {
      RecentNoDup(history[..|history| - 1], candidates);
    }
  }

  // The walk order lists exactly the candidates, and each once unless some
  // candidate is repeated in the recency list it starts from.
  lemma SequenceOnce(w: Workspace, mru: bool)
    requires UniqueIds(w.windows)
    ensures Elements(WalkOrder(w, mru)) == Elements(Candidates(w)) && |Elements(WalkOrder(w, mru))| == |Candidates(w)|
    ensures NoDup(WalkOrder(w, mru)) <==> (mru ==> NoDup(Recent(w.focusHistory, Candidates(w))))
    ensures NoDup(w.focusHistory) ==> NoDup(WalkOrder(w, mru))
  {
    var candidates := Candidates(w);
    var recent := Recent(w.focusHistory, candidates);
    var rest := PickIds(candidates, set id | id in recent, false);
    CandidatesNoDup(w.windows, w.windows);
    NoDupCardinality(candidates);
    assert Elements(WalkOrder(w, mru)) == Elements(candidates);
    PickIdsNoDup(candidates, set id | id in recent, false);
    if NoDup(w.focusHistory) {
      RecentNoDup(w.focusHistory, candidates);
    }
    if NoDup(recent) {
      NoDupConcat(recent, rest);
    }
    if NoDup(recent + rest) {
      forall i, j | 0 <= i < j < |recent| ensures recent[i] != recent[j] {
        assert (recent + rest)[i] != (recent + rest)[j];
      }
    }
  }

  ghost function WalkOrder(w: Workspace, mru: bool): seq<nat> {
    SequenceOf(w.focusHistory, Candidates(w), mru)
  }

  ghost function ShownMarks(all: seq<Entry>, ws: seq<Entry>): (r: seq<bool>)
    ensures |r| == |ws| && forall i :: 0 <= i < |ws| ==> r[i] == Shown(all, ws[i])
  {
    seq(|ws|, i requires 0 <= i < |ws| => Shown(all, ws[i]))
  }

  lemma {:induction false} CandidatesSift(all: seq<Entry>, ws: seq<Entry>)
    ensures Sifted(CandidatesIn(all, ws), IdsOf(ws), ShownMarks(all, ws))
  {
    if ws == [] {
      SiftedNothing<nat>();
    } else {
      var front, last := ws[..|ws| - 1], ws[|ws| - 1];
      CandidatesSift(all, front);
      SiftedSnoc(CandidatesIn(all, front), IdsOf(front), ShownMarks(all, front), last.id, Shown(all, last));
      assert IdsOf(ws) == IdsOf(front) + [last.id];
      assert ShownMarks(all, ws) == ShownMarks(all, front) + [Shown(all, last)];
    }
  }

  lemma {:induction false} RecentSifts(history: seq<nat>, candidates: seq<nat>)
    ensures Sifted(Recent(history, candidates), Backwards(history),
                   Marks(Backwards(history), Elements(candidates), true))
  {
    if history == [] {
      SiftedNothing<nat>();
    } else {
      var front, back := history[..|history| - 1], Backwards(history);
      var marks := Marks(back, Elements(candidates), true);
      RecentSifts(front, candidates);
      assert back[1..] == Backwards(front) && marks[1..] == Marks(Backwards(front), Elements(candidates), true);
      SiftedOn(Recent(front, candidates), back, marks);
    }
  }

  // The listed ids of all from the newest on, then the others in the order of all.
  ghost predicate ByRecency(order: seq<nat>, history: seq<nat>, all: seq<nat>) {
    exists recent, rest :: order == recent + rest && Recency(recent, rest, history, all)
  }

  ghost predicate Recency(recent: seq<nat>, rest: seq<nat>, history: seq<nat>, all: seq<nat>) {
    && Sifted(recent, Backwards(history), Marks(Backwards(history), Elements(all), true))
    && Sifted(rest, all, Marks(all, Elements(recent), false))
  }

  // The order of a walk: the shown windows as they are laid out; or, by recency,
  // the shown ones from the newest on, then the others as they are laid out.
  lemma WalkOrderIs(w: Workspace)
    ensures Sifted(WalkOrder(w, false), IdsOf(w.windows), ShownMarks(w.windows, w.windows))
    ensures ByRecency(WalkOrder(w, true), w.focusHistory, WalkOrder(w, false))
  {
    CandidatesSift(w.windows, w.windows);
    SequenceByRecency(w.focusHistory, Candidates(w));
  }

  lemma SequenceByRecency(history: seq<nat>, candidates: seq<nat>)
    ensures ByRecency(SequenceOf(history, candidates, true), history, candidates)
  {
    var recent := Recent(history, candidates);
    var seen := set id | id in recent;
    RecentSifts(history, candidates);
    PickIdsSifts(candidates, seen, false);
    assert Elements(recent) == seen;
    assert Recency(recent, PickIds(candidates, seen, false), history, candidates);
  }

  // Recency after focusing a window: remembered last, or left alone.
  function Recalled(history: seq<nat>, id: nat, remember: bool): seq<nat> {
    if remember then PickIds(history, {id}, false) + [id] else history
  }

  lemma FocusedLands(s: Stage, target: nat, remember: bool)
    requires Visible(s.w, target)
    ensures var r := Focused(s, target, remember);
            && r.focus == Some(target) && r.w.focusHistory == Recalled(s.w.focusHistory, target, remember)
            && SameForest(s.w.windows, r.w.windows) && Visible(r.w, target)
  {
    FocusedFrame(s, target, remember);
    FocusedSound(s, target, remember);
  }

  lemma {:induction false} LayersIgnoreHistory(w: Workspace, history: seq<nat>, ws: seq<Entry>, layer: nat)
    ensures LayerIds(w.(focusHistory := history), ws, layer) == LayerIds(w, ws, layer)
  {
    if ws != [] {
      LayersIgnoreHistory(w, history, ws[1..], layer);
    }
  }

  // Focusing a visible window raises it and changes recency, and nothing else.
  lemma FocusRaises(s: Stage, id: nat, remember: bool)
    requires Visible(s.w, id)
    ensures Focused(s, id, remember)
         == Stage(Raised(s.w, id).(focusHistory := Recalled(s.w.focusHistory, id, remember)), Some(id))
  {
    var w := s.w.(focusHistory := Recalled(s.w.focusHistory, id, remember));
    assert (if remember then Remembered(s.w, id) else s.w) == w;
    assert RaisedOrder(w, id) == RaisedOrder(s.w, id) by {
      LayersIgnoreHistory(s.w, w.focusHistory, s.w.windows, 0);
      LayersIgnoreHistory(s.w, w.focusHistory, s.w.windows, 1);
      LayersIgnoreHistory(s.w, w.focusHistory, s.w.windows, 2);
    }
  }

  // Without a focused candidate either step begins at the head of the walk order.
  lemma StepBegins(s: Stage, mru: bool, step: Step)
    requires WalkOrder(s.w, mru) != [] && (s.focus.None? || s.focus.value !in Candidates(s.w))
    ensures Cycled(s, mru, step).focus == Some(WalkOrder(s.w, mru)[0])
  {
    var first := WalkOrder(s.w, mru)[0];
    assert first in WalkOrder(s.w, mru);
    RevealFocuses(s, first, false);
  }

  ghost function Bare(s: Stage): Stage {
    s.(w := s.w.(fullscreen := None, maximized := None))
  }

  ghost function Renormalized(s: Stage): Stage {
    s.(w := s.w.(windows := NormalizedStack(s.w.windows)))
  }

  // Without overlays a shown window is visible before and after renormalizing.
  lemma BareShows(s: Stage, id: nat)
    requires ShownId(s.w.windows, id)
    ensures Visible(Renormalized(Bare(s)).w, id)
  {
    SomethingVisible(Bare(s).w, id);
    SameVisible(Bare(s).w, Renormalized(Bare(s)).w, id);
  }

  lemma BareKeepsFocus(s: Stage)
    requires s.focus.Some? && ShownId(s.w.windows, s.focus.value)
    ensures Relaid(Bare(s)) == Renormalized(Bare(s))
  {
    BareShows(s, s.focus.value);
  }

  // Clearing an overlay for a shown target keeps recency and links.
  lemma RevealLands(s: Stage, target: nat, remember: bool)
    requires s.focus.Some? && ShownId(s.w.windows, s.focus.value) && ShownId(s.w.windows, target)
    ensures var r := RevealedFocus(s, target, remember);
            && r.focus == Some(target) && r.w.focusHistory == Recalled(s.w.focusHistory, target, remember)
            && SameForest(s.w.windows, r.w.windows) && Visible(r.w, target)
  {
    if Visible(s.w, target) {
      FocusedLands(s, target, remember);
    } else {
      var t := Renormalized(Bare(s));
      assert Relaid(Bare(s)) == t by { BareKeepsFocus(s); }
      assert Visible(t.w, target) by { BareShows(s, target); }
      assert SameForest(s.w.windows, t.w.windows) && t.w.focusHistory == s.w.focusHistory;
      FocusedLands(t, target, remember);
      SameForestTwice(s.w.windows, t.w.windows, Focused(t, target, remember).w.windows);
    }
  }

  lemma BareRelaid(s: Stage, target: nat)
    requires ShownId(s.w.windows, target)
    ensures SameForest(s.w.windows, Relaid(Bare(s)).w.windows) && Visible(Relaid(Bare(s)).w, target)
  {
    RelaidFrame(Bare(s));
    SomethingVisible(Bare(s).w, target);
    SameVisible(Bare(s).w, Relaid(Bare(s)).w, target);
  }

  lemma SameForestTwice(a: seq<Entry>, b: seq<Entry>, c: seq<Entry>)
    requires SameForest(a, b) && SameForest(b, c)
    ensures SameForest(a, c)
  {
  }

  // The window focused most recently.
  ghost predicate Newest(w: Workspace, id: nat) {
    w.focusHistory != [] && w.focusHistory[|w.focusHistory| - 1] == id
  }

  // Whatever had focus before, a shown window asked for gets it.
  lemma RevealFocuses(s: Stage, target: nat, remember: bool)
    requires ShownId(s.w.windows, target)
    ensures var r := RevealedFocus(s, target, remember);
            && r.focus == Some(target) && SameForest(s.w.windows, r.w.windows) && Visible(r.w, target)
            && (remember ==> Newest(r.w, target))
  {
    if Visible(s.w, target) {
      FocusedLands(s, target, remember);
    } else {
      var t := Relaid(Bare(s));
      assert SameForest(s.w.windows, t.w.windows) && Visible(t.w, target) by { BareRelaid(s, target); }
      FocusedLands(t, target, remember);
      SameForestTwice(s.w.windows, t.w.windows, Focused(t, target, remember).w.windows);
    }
  }

  lemma SameCandidatesWhole(w: Workspace, v: Workspace)
    requires SameForest(w.windows, v.windows)
    ensures Candidates(w) == Candidates(v)
  {
    SameCandidates(w.windows, v.windows, |w.windows|);
    assert w.windows[..|w.windows|] == w.windows && v.windows[..|v.windows|] == v.windows;
  }

  ghost predicate ReadyToCycle(s: Stage) {
    UniqueIds(s.w.windows) && s.focus.Some? && s.focus.value in Candidates(s.w)
  }

  // A step from a focused candidate focuses its target, overlay or not, and
  // leaves the walk order alone.
  lemma StepLands(s: Stage, mru: bool, step: Step)
    requires ReadyToCycle(s)
    ensures var r := Cycled(s, mru, step);
            && ReadyToCycle(r) && WalkOrder(r.w, mru) == WalkOrder(s.w, mru)
            && r.focus == NextTarget(WalkOrder(s.w, mru), s.focus, step)
  {
    var target := NextTarget(WalkOrder(s.w, mru), s.focus, step).value;
    assert target in WalkOrder(s.w, mru);
    RevealLands(s, target, false);
    var r := RevealedFocus(s, target, false);
    SameAcyclic(s.w.windows, r.w.windows);
    SameCandidatesWhole(s.w, r.w);
  }

  ghost predicate Pressed(before: Stage, after: Stage, mru: bool) {
    after == Cycled(before, mru, Next)
  }

  // The stages of pressing Next again and again.
  ghost predicate Presses(trace: seq<Stage>, mru: bool) {
    forall i :: 0 < i < |trace| ==> Pressed(trace[i - 1], trace[i], mru)
  }

  // One press, for the stage it leads to.
  lemma PressLands(before: Stage, after: Stage, order: seq<nat>, mru: bool)
    requires Pressed(before, after, mru) && OnOrder(before, order, mru)
    ensures OnOrder(after, order, mru)
    ensures after.focus == NextTarget(order, before.focus, Next)
  {
    StepLands(before, mru, Next);
  }

  ghost predicate OnOrder(s: Stage, order: seq<nat>, mru: bool) {
    ReadyToCycle(s) && WalkOrder(s.w, mru) == order
  }

  // k presses of Next walk k places along the walk order.
  lemma {:induction false} NextWalks(trace: seq<Stage>, order: seq<nat>, mru: bool, from: nat, k: nat)
    requires k < |trace| && Presses(trace, mru)
    requires OnOrder(trace[0], order, mru) && trace[0].focus == Some(from)
    ensures OnOrder(trace[k], order, mru) && trace[k].focus == Walk(order, from, k)
  {
    if k > 0 {
      NextWalks(trace, order, mru, from, k - 1);
      PressLands(trace[k - 1], trace[k], order, mru);
    }
  }

  lemma RoundWalks(trace: seq<Stage>, mru: bool)
    requires trace != [] && ReadyToCycle(trace[0]) && Presses(trace, mru) && |trace| == |Candidates(trace[0].w)| + 1
    ensures var order, from := WalkOrder(trace[0].w, mru), trace[0].focus.value;
            && from in order && |trace| == |Elements(order)| + 1
            && forall k :: 0 <= k < |trace| ==> trace[k].focus == Walk(order, from, k)
  {
    var order, from := WalkOrder(trace[0].w, mru), trace[0].focus.value;
    SequenceOnce(trace[0].w, mru);
    forall k | 0 <= k < |trace| ensures trace[k].focus == Walk(order, from, k) {
      NextWalks(trace, order, mru, from, k);
    }
  }

  // A full round of Next visits every candidate exactly once and comes home.
  ghost predicate VisitsEachOnce(trace: seq<Stage>) {
    && trace != [] && trace[|trace| - 1].focus == trace[0].focus
    && (forall i, j :: 0 <= i < j < |trace| - 1 ==> trace[i].focus != trace[j].focus)
    && forall id :: id in Candidates(trace[0].w) ==> exists k :: 0 <= k < |trace| - 1 && trace[k].focus == Some(id)
  }

  // It does exactly when the walk order is cyclic: its first repeated element,
  // if any, is the first one over again and comes after all the others.
  lemma NextVisitsEachOnce(trace: seq<Stage>, mru: bool)
    requires trace != [] && ReadyToCycle(trace[0]) && Presses(trace, mru) && |trace| == |Candidates(trace[0].w)| + 1
    ensures VisitsEachOnce(trace) <==> exists r :: Cyclic(WalkOrder(trace[0].w, mru), r)
  {
    var order, from := WalkOrder(trace[0].w, mru), trace[0].focus.value;
    RoundWalks(trace, mru);
    SequenceOnce(trace[0].w, mru);
    VisitsAreMeets(trace, order, from);
    MeetsOnceIff(order, from);
  }

  lemma VisitsAreMeets(trace: seq<Stage>, order: seq<nat>, from: nat)
    requires |trace| == |Elements(order)| + 1 && from in order
    requires forall k :: 0 <= k < |trace| ==> trace[k].focus == Walk(order, from, k)
    requires forall id :: id in Candidates(trace[0].w) ==> id in order
    ensures VisitsEachOnce(trace) <==> MeetsOnce(order, from)
  {
    assert trace[0].focus == Some(from);
    if MeetsOnce(order, from) {
      forall id | id in Candidates(trace[0].w) ensures exists k :: 0 <= k < |trace| - 1 && trace[k].focus == Some(id) {
        var k := MetSomewhere(order, from, id);
        assert trace[k].focus == Some(id);
      }
      assert VisitsEachOnce(trace);
    }
    if VisitsEachOnce(trace) {
      forall i, j | 0 <= i < j < |trace| - 1 ensures Walk(order, from, i) != Walk(order, from, j) {
        assert trace[i].focus != trace[j].focus;
      }
    }
  }

  // Previous undoes Next from every candidate, and Next undoes Previous, exactly
  // when the walk order moreover ends where its first round ends.
  lemma StepsInvert(s: Stage, mru: bool, step: Step)
    requires ReadyToCycle(s)
    ensures (forall id :: id in Candidates(s.w) ==>
               Cycled(Cycled(s.(focus := Some(id)), mru, step), mru, Opposite(step)).focus == Some(id))
            <==> exists r :: Reversible(WalkOrder(s.w, mru), r)
  {
    var order := WalkOrder(s.w, mru);
    assert s.focus.value in order;
    forall id | id in Candidates(s.w)
      ensures Cycled(Cycled(s.(focus := Some(id)), mru, step), mru, Opposite(step)).focus
           == NextTarget(order, NextTarget(order, Some(id), step), Opposite(step))
    {
      StepLands(s.(focus := Some(id)), mru, step);
      StepLands(Cycled(s.(focus := Some(id)), mru, step), mru, Opposite(step));
    }
    UndoesIff(order, step);
  }

  // Layout order, and a recency list without repeated candidates, always do both.
  lemma DistinctOrderReversible(w: Workspace, mru: bool)
    requires UniqueIds(w.windows) && Candidates(w) != [] && (mru ==> NoDup(Recent(w.focusHistory, Candidates(w))))
    ensures exists r :: Reversible(WalkOrder(w, mru), r)
  {
    SequenceOnce(w, mru);
    assert Candidates(w)[0] in WalkOrder(w, mru);
    DistinctReversible(WalkOrder(w, mru));
  }
}
