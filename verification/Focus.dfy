// Keyboard focus on the active workspace, and restoring it after a relayout.
// The host is focused, nothing grabs the seat, no shell surface holds exclusive
// focus, and every window can take focus.
module Focus {
  import opened Common
  import opened Model
  import opened Raising
  import opened Sifting
  import opened Visibility

  ghost function Remembered(w: Workspace, id: nat): Workspace {
    if Find(w.windows, id).Some?
    then w.(focusHistory := PickIds(w.focusHistory, {id}, false) + [id])
    else w
  }

  // The last visible id of a list.
  ghost function LastIn(w: Workspace, ids: seq<nat>): (r: Option<nat>)
    ensures r.Some? ==> Visible(w, r.value) && r.value in ids
    ensures r.None? ==> forall id :: id in ids ==> !Visible(w, id)
  {
    if ids == [] then None
    else if Visible(w, ids[|ids| - 1]) then Some(ids[|ids| - 1])
    else LastIn(w, ids[..|ids| - 1])
  }

  // The most recently focused visible window, else the last one in layout order.
  ghost function LastVisible(w: Workspace): (r: Option<nat>)
    ensures r.Some? ==> Visible(w, r.value)
    ensures r.None? ==> forall id :: !Visible(w, id)
  {
    var recent := LastIn(w, w.focusHistory);
    if recent.Some? then recent
    else
      AllVisibleListed(w);
      LastIn(w, IdsOf(w.windows))
  }

  lemma AllVisibleListed(w: Workspace)
    ensures forall id :: Visible(w, id) ==> id in IdsOf(w.windows)
  {
    forall id | Visible(w, id) ensures id in IdsOf(w.windows) {
      VisibleListed(w, id);
    }
  }

  lemma VisibleListed(w: Workspace, id: nat)
    requires Visible(w, id)
    ensures id in IdsOf(w.windows)
  {
    var e :| e in w.windows && e.id == id;
    var i :| 0 <= i < |w.windows| && w.windows[i] == e;
    assert IdsOf(w.windows)[i] == id;
  }

  // A visible id with no visible one behind it.
  ghost predicate IsLast(w: Workspace, ids: seq<nat>, id: nat) {
    Visible(w, id) && exists k :: 0 <= k < |ids| && ids[k] == id && forall j :: k < j < |ids| ==> !Visible(w, ids[j])
  }

  ghost predicate AnyVisible(w: Workspace, ids: seq<nat>) {
    exists id :: id in ids && Visible(w, id)
  }

  // Who gets a free focus: the most recently focused visible window, else the
  // last visible one in layout order, else nobody.
  ghost predicate FallsTo(w: Workspace, history: seq<nat>, r: Option<nat>) {
    if AnyVisible(w, history) then r.Some? && IsLast(w, history, r.value)
    else if AnyVisible(w, IdsOf(w.windows)) then r.Some? && IsLast(w, IdsOf(w.windows), r.value)
    else r.None?
  }

  lemma {:induction false} LastInIsLast(w: Workspace, ids: seq<nat>)
    ensures LastIn(w, ids).Some? ==> IsLast(w, ids, LastIn(w, ids).value)
  {
    if ids != [] {
      var n := |ids| - 1;
      if Visible(w, ids[n]) {
        assert IsLast(w, ids, ids[n]);
      } else if LastIn(w, ids).Some? {
        LastInIsLast(w, ids[..n]);
        var k :| 0 <= k < n && ids[..n][k] == LastIn(w, ids).value
          && forall j :: k < j < n ==> !Visible(w, ids[..n][j]);
        forall j | k < j < |ids| ensures !Visible(w, ids[j]) {
          assert j < n ==> ids[..n][j] == ids[j];
        }
        assert ids[k] == LastIn(w, ids).value;
      }
    }
  }

  lemma LastVisibleIs(w: Workspace)
    ensures FallsTo(w, w.focusHistory, LastVisible(w))
  {
    LastInIsLast(w, w.focusHistory);
    LastInIsLast(w, IdsOf(w.windows));
  }

  method FindLastVisible(w: Workspace) returns (r: Option<nat>)
    requires UniqueIds(w.windows)
    ensures r == LastVisible(w) && FallsTo(w, w.focusHistory, r)
  {
    LastVisibleIs(w);
    r := ScanBack(w, w.focusHistory);
    if r.None? {
      r := ScanBack(w, IdsOf(w.windows));
    }
  }

  method ScanBack(w: Workspace, ids: seq<nat>) returns (r: Option<nat>)
    requires UniqueIds(w.windows)
    ensures r == LastIn(w, ids)
  {
    assert ids[..|ids|] == ids;
    for i := |ids| downto 0
      invariant LastIn(w, ids) == LastIn(w, ids[..i])
    {
      assert ids[..i + 1][..i] == ids[..i];
      var visible := IsVisible(w, ids[i]);
      if visible {
        return Some(ids[i]);
      }
    }
    r := None;
  }

  // A workspace together with the keyboard focus.
  datatype Stage = Stage(w: Workspace, focus: Option<nat>)

  // `apply_managed_focus`: only a visible window takes focus, and it is raised.
  ghost function Focused(s: Stage, id: nat, remember: bool): Stage {
    if Visible(s.w, id)
    then Stage(Raised(if remember then Remembered(s.w, id) else s.w, id), Some(id))
    else s
  }

  ghost function Restored(s: Stage): Stage {
    if s.focus.Some? && Visible(s.w, s.focus.value) then s
    else
      match LastVisible(s.w)
      case Some(id) => Focused(s, id, true)
      case None => Stage(s.w, None)
  }

  // Mapping the active workspace renormalizes its stack, then focus is restored.
  ghost function Relaid(s: Stage): Stage {
    Restored(s.(w := s.w.(windows := NormalizedStack(s.w.windows))))
  }

  // Focus lies on a visible window, or on none when everything is minimized or
  // behind a minimized ancestor.
  ghost predicate FocusSound(s: Stage) {
    && (s.focus.Some? ==> Visible(s.w, s.focus.value))
    && (s.focus.None? <==> forall e :: e in s.w.windows ==> !Shown(s.w.windows, e))
  }

  // The same windows with the same marks; weights, ranks and rectangles may differ.
  ghost predicate SameMarks(w: Workspace, v: Workspace) {
    && SameForest(w.windows, v.windows)
    && w.fullscreen == v.fullscreen && w.maximized == v.maximized && w.minimizedHistory == v.minimizedHistory
  }

  // What a relayout leaves alone.
  ghost predicate SameFrame(w: Workspace, v: Workspace) {
    SameMarks(w, v) && w.masterRatio == v.masterRatio
  }

  lemma FrameTransitive(a: Workspace, b: Workspace, c: Workspace)
    requires SameFrame(a, b) && SameFrame(b, c)
    ensures SameFrame(a, c)
  {
  }

  lemma FocusedFrame(s: Stage, id: nat, remember: bool)
    ensures SameFrame(s.w, Focused(s, id, remember).w)
  {
    var w := if remember then Remembered(s.w, id) else s.w;
    RankedForest(w.windows, RaisedOrder(w, id));
  }

  lemma RestoredFrame(s: Stage)
    ensures SameFrame(s.w, Restored(s).w)
  {
    if LastVisible(s.w).Some? {
      FocusedFrame(s, LastVisible(s.w).value, true);
    }
  }

  lemma RelaidFrame(s: Stage)
    ensures SameFrame(s.w, Relaid(s).w)
  {
    var t := s.(w := s.w.(windows := NormalizedStack(s.w.windows)));
    RestoredFrame(t);
    FrameTransitive(s.w, t.w, Relaid(s).w);
  }

  // The same entries but for weights and ranks.
  ghost predicate OnlyRanked(ws: seq<Entry>, vs: seq<Entry>) {
    |vs| == |ws| && forall i :: 0 <= i < |ws| ==> SameBut(ws[i], vs[i])
  }

  ghost predicate SameBut(e: Entry, f: Entry) {
    f == e.(stackWeight := f.stackWeight, stackingOrder := f.stackingOrder)
  }

  lemma {:induction false} FindRanked(ws: seq<Entry>, vs: seq<Entry>, id: nat)
    requires OnlyRanked(ws, vs)
    ensures Find(ws, id).Some? == Find(vs, id).Some?
    ensures Find(ws, id).Some? ==> SameBut(Find(ws, id).value, Find(vs, id).value)
  {
    if ws != [] {
      assert SameBut(ws[0], vs[0]);
      FindRanked(ws[1..], vs[1..], id);
    }
  }

  lemma FocusedEntries(s: Stage, id: nat, remember: bool)
    ensures OnlyRanked(s.w.windows, Focused(s, id, remember).w.windows)
  {
    var w := if remember then Remembered(s.w, id) else s.w;
    RankedEntries(w.windows, RaisedOrder(w, id));
  }

  lemma RankedEntries(ws: seq<Entry>, order: seq<nat>)
    ensures OnlyRanked(ws, Ranked(ws, order))
  {
  }

  lemma NormalizedEntries(ws: seq<Entry>)
    ensures OnlyRanked(ws, NormalizedStack(ws))
  {
  }

  lemma RelaidEntries(s: Stage)
    ensures OnlyRanked(s.w.windows, Relaid(s).w.windows)
  {
    var t := s.(w := s.w.(windows := NormalizedStack(s.w.windows)));
    NormalizedEntries(s.w.windows);
    if LastVisible(t.w).Some? {
      FocusedEntries(t, LastVisible(t.w).value, true);
    }
  }

  // A visible focus stays; a free one falls.
  ghost predicate FocusFalls(v: Workspace, history: seq<nat>, was: Option<nat>, r: Option<nat>) {
    if was.Some? && Visible(v, was.value) then r == was else FallsTo(v, history, r)
  }

  lemma SameFalls(w: Workspace, v: Workspace, history: seq<nat>, r: Option<nat>)
    requires SameMarks(w, v) && FallsTo(w, history, r)
    ensures FallsTo(v, history, r)
  {
    forall x ensures Visible(w, x) <==> Visible(v, x) {
      SameVisible(w, v, x);
    }
    assert IdsOf(w.windows) == IdsOf(v.windows);
  }

  // A focus given anew is remembered last, the others keep their order.
  ghost predicate Recalls(history: seq<nat>, now: seq<nat>, was: Option<nat>, r: Option<nat>) {
    if r == was || r.None? then now == history else EndsWith(history, now, r.value)
  }

  ghost predicate EndsWith(history: seq<nat>, now: seq<nat>, id: nat) {
    var n := |now| - 1;
    n >= 0 && now[n] == id && Sifted(now[..n], history, Marks(history, {id}, false))
  }

  // A workspace w with focus was, after laying it out: v, with focus r. A focus
  // that is visible stays; otherwise the newest visible window gets it.
  ghost predicate Settles(w: Workspace, was: Option<nat>, v: Workspace, r: Option<nat>) {
    && SameFrame(w, v) && OnlyRanked(w.windows, v.windows)
    && FocusFalls(v, w.focusHistory, was, r) && Recalls(w.focusHistory, v.focusHistory, was, r)
  }

  lemma RelaidSettles(s: Stage)
    ensures Settles(s.w, s.focus, Relaid(s).w, Relaid(s).focus)
  {
    RelaidFrame(s);
    RelaidEntries(s);
    RelaidFocus(s);
    RelaidRecalls(s);
  }

  lemma RelaidRecalls(s: Stage)
    ensures Recalls(s.w.focusHistory, Relaid(s).w.focusHistory, s.focus, Relaid(s).focus)
  {
    var t := s.(w := s.w.(windows := NormalizedStack(s.w.windows)));
    if !(t.focus.Some? && Visible(t.w, t.focus.value)) && LastVisible(t.w).Some? {
      RememberedEndsWith(t, LastVisible(t.w).value);
    }
  }

  // Focusing a window remembers it last.
  lemma RememberedEndsWith(s: Stage, id: nat)
    requires Visible(s.w, id)
    ensures EndsWith(s.w.focusHistory, Focused(s, id, true).w.focusHistory, id)
  {
    PickedEndsWith(s.w.focusHistory, id);
    FocusedHistory(s, id);
  }

  lemma PickedEndsWith(history: seq<nat>, id: nat)
    ensures EndsWith(history, PickIds(history, {id}, false) + [id], id)
  {
    var kept := PickIds(history, {id}, false);
    PickIdsSifts(history, {id}, false);
    assert (kept + [id])[..|kept|] == kept;
  }

  lemma FocusedHistory(s: Stage, id: nat)
    requires Visible(s.w, id)
    ensures Focused(s, id, true).w.focusHistory == PickIds(s.w.focusHistory, {id}, false) + [id]
  {
  }

  lemma RelaidFocus(s: Stage)
    ensures FocusFalls(Relaid(s).w, s.w.focusHistory, s.focus, Relaid(s).focus)
  {
    var t := s.(w := s.w.(windows := NormalizedStack(s.w.windows)));
    RestoredFrame(t);
    LastVisibleIs(t.w);
    SameFalls(t.w, Restored(t).w, s.w.focusHistory, LastVisible(t.w));
    if s.focus.Some? {
      SameVisible(t.w, Restored(t).w, s.focus.value);
    }
  }

  lemma FocusedSound(s: Stage, id: nat, remember: bool)
    requires Visible(s.w, id)
    ensures FocusSound(Focused(s, id, remember))
  {
    var t := Focused(s, id, remember);
    FocusedFrame(s, id, remember);
    SameVisible(s.w, t.w, id);
    if Visible(t.w, id) {
      var e :| e in t.w.windows && e.id == id && Shown(t.w.windows, e);
    }
  }

  // Restoring makes focus sound, whatever it was before; so does every relayout.
  lemma RestoredSound(s: Stage)
    ensures FocusSound(Restored(s))
  {
    if s.focus.Some? && Visible(s.w, s.focus.value) {
      var e :| e in s.w.windows && e.id == s.focus.value && Shown(s.w.windows, e);
    } else if LastVisible(s.w).Some? {
      FocusedSound(s, LastVisible(s.w).value, true);
    } else {
      forall e | e in s.w.windows ensures !Shown(s.w.windows, e) {
        if Shown(s.w.windows, e) {
          SomethingVisible(s.w, e.id);
        }
      }
    }
  }

  // A sound focus survives any change that keeps the frame.
  lemma SoundByFrame(s: Stage, w: Workspace)
    requires FocusSound(s) && SameMarks(s.w, w)
    ensures FocusSound(Stage(w, s.focus))
  {
    SameNodes(w.windows, s.w.windows);
    if s.focus.Some? {
      SameVisible(s.w, w, s.focus.value);
    }
    forall e | e in w.windows ensures Shown(w.windows, e) ==> ShownId(s.w.windows, e.id) {
      if Shown(w.windows, e) {
        SameShown(w.windows, s.w.windows, e.id);
      }
    }
    forall e | e in s.w.windows ensures Shown(s.w.windows, e) ==> ShownId(w.windows, e.id) {
      if Shown(s.w.windows, e) {
        SameShown(s.w.windows, w.windows, e.id);
      }
    }
  }

  // Whether focus is due depends on what is shown only.
  lemma SoundByShown(s: Stage, v: Workspace)
    requires FocusSound(s) && forall x :: ShownId(s.w.windows, x) <==> ShownId(v.windows, x)
    ensures FocusSound(Stage(v, s.focus)) <==> (s.focus.Some? ==> Visible(v, s.focus.value))
  {
    assert (forall e :: e in s.w.windows ==> !Shown(s.w.windows, e))
           <==> (forall e :: e in v.windows ==> !Shown(v.windows, e)) by {
      forall e | e in v.windows && Shown(v.windows, e) ensures ShownId(s.w.windows, e.id) {
        assert ShownId(v.windows, e.id);
      }
      forall e | e in s.w.windows && Shown(s.w.windows, e) ensures ShownId(v.windows, e.id) {
        assert ShownId(s.w.windows, e.id);
      }
    }
  }
}
