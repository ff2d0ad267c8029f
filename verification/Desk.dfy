// The workspaces of a session and every operation on them, as values.
module Desk {
  import opened Common
  import opened Model
  import opened Raising
  import opened Tiling
  import opened Visibility
  import opened Focus
  import Nav = Navigation

  // An override-redirect window, shown with its parent's workspace.
  datatype Unmanaged = Unmanaged(parent: Option<nat>, workspace: nat)

  // The windows opened and not closed, and the most of them there ever were at once.
  datatype Census = Census(alive: set<nat>, peak: nat)

  function Joined(census: Census, id: nat): Census {
    Census(census.alive + {id}, Max(census.peak, |census.alive + {id}|))
  }

  function Departed(census: Census, id: nat): Census {
    census.(alive := census.alive - {id})
  }

  datatype Desk = Desk(
    workspaces: seq<Workspace>,
    active: nat,
    last: Option<nat>,
    nextId: nat,
    census: Census,
    focus: Option<nat>,
    unmanaged: seq<Unmanaged>,
    children: seq<nat>,               // launch workspace of each running child process
    tracks: seq<nat>,                 // workspaces in timed motion
    preview: Option<(nat, nat)>,      // source and target of a previewed swipe
    predefined: nat,
    output: Size)

  function Hosts(unmanaged: seq<Unmanaged>): (r: seq<nat>)
    ensures |r| == |unmanaged| && forall i :: 0 <= i < |r| ==> r[i] == unmanaged[i].workspace
  {
    seq(|unmanaged|, i requires 0 <= i < |unmanaged| => unmanaged[i].workspace)
  }

  // Workspace indices that something besides a managed window refers to.
  function Held(d: Desk): seq<nat> {
    Hosts(d.unmanaged) + d.children + d.tracks + if d.preview.Some? then [d.preview.value.0, d.preview.value.1] else []
  }

  // The redundant structures of one workspace agree.
  ghost predicate Tidy(w: Workspace) {
    && UniqueIds(w.windows)
    && NoDup(w.minimizedHistory)
    && (forall id :: id in w.minimizedHistory <==> exists e :: e in w.windows && e.id == id && e.minimized)
    && (w.fullscreen.Some? ==> w.fullscreen.value in Ids(w.windows))
    && (w.maximized.Some? ==> w.maximized.value in Ids(w.windows))
  }

  // Windows are open ones, and weights bounded by the most ever open at once.
  ghost predicate Entries(w: Workspace, census: Census) {
    (forall e :: e in w.windows ==> e.id in census.alive) && Weighted(w.windows, WEIGHT_UNIT * census.peak)
  }

  ghost predicate Weighted(ws: seq<Entry>, cap: nat) {
    forall e :: e in ws ==> 1 <= e.stackWeight <= cap
  }

  ghost predicate Counted(census: Census, nextId: nat) {
    |census.alive| <= census.peak && forall id :: id in census.alive ==> id < nextId
  }

  ghost predicate Inv(d: Desk) {
    && Nav.InRange(d.workspaces, d.active, Held(d))
    && (d.last.Some? ==> d.last.value < |d.workspaces|)
    && Counted(d.census, d.nextId)
    && (forall i :: 0 <= i < |d.workspaces| ==> Tidy(d.workspaces[i]) && Entries(d.workspaces[i], d.census))
    && (forall i, j :: 0 <= i < j < |d.workspaces| ==> Ids(d.workspaces[i].windows) !! Ids(d.workspaces[j].windows))
  }

  function With(d: Desk, i: nat, w: Workspace): Desk
    requires i < |d.workspaces|
  {
    d.(workspaces := d.workspaces[i := w])
  }

  lemma WithInv(d: Desk, i: nat, w: Workspace)
    requires Inv(d) && i < |d.workspaces|
    requires Tidy(w) && Entries(w, d.census)
    requires Ids(w.windows) <= Ids(d.workspaces[i].windows)
    ensures Inv(With(d, i, w))
  {
  }

  // Two workspaces change at once and share out their windows.
  lemma WithTwoInv(d: Desk, i: nat, w: Workspace, j: nat, v: Workspace)
    requires Inv(d) && i < |d.workspaces| && j < |d.workspaces| && i != j
    requires Tidy(w) && Entries(w, d.census) && Tidy(v) && Entries(v, d.census)
    requires Ids(w.windows) !! Ids(v.windows)
    requires Ids(w.windows) + Ids(v.windows) <= Ids(d.workspaces[i].windows) + Ids(d.workspaces[j].windows)
    ensures Inv(With(With(d, i, w), j, v))
  {
  }

  // ------------------------------------------------------------------
  // Taking windows out of one workspace and merging them into another

  function OwnerIn(owner: Option<nat>, ids: set<nat>, keep: bool): Option<nat> {
    if owner.Some? && (owner.value in ids) == keep then owner else None
  }

  function Part(w: Workspace, ids: set<nat>, keep: bool): Workspace {
    w.(windows := Pick(w.windows, ids, keep),
       focusHistory := PickIds(w.focusHistory, ids, keep),
       minimizedHistory := PickIds(w.minimizedHistory, ids, keep),
       fullscreen := OwnerIn(w.fullscreen, ids, keep),
       maximized := OwnerIn(w.maximized, ids, keep))
  }

  function Merged(w: Workspace, part: Workspace): Workspace {
    w.(windows := w.windows + part.windows,
       focusHistory := w.focusHistory + part.focusHistory,
       minimizedHistory := w.minimizedHistory + part.minimizedHistory,
       fullscreen := if part.fullscreen.Some? then part.fullscreen else w.fullscreen,
       maximized := if part.maximized.Some? then part.maximized else w.maximized)
  }

  lemma PartIds(w: Workspace, ids: set<nat>, keep: bool)
    ensures Ids(Pick(w.windows, ids, keep)) == if keep then Ids(w.windows) * ids else Ids(w.windows) - ids
  {
    var part := Pick(w.windows, ids, keep);
    forall id | id in Ids(w.windows) && (id in ids) == keep ensures id in Ids(part) {
      var e :| e in w.windows && e.id == id;
      assert e in part;
    }
  }

  lemma PartTidy(w: Workspace, ids: set<nat>, keep: bool)
    requires Tidy(w)
    ensures Tidy(Part(w, ids, keep))
  {
    PickUnique(w.windows, ids, keep);
    PickIdsNoDup(w.minimizedHistory, ids, keep);
    PartIds(w, ids, keep);
  }

  lemma MergedIds(w: Workspace, part: Workspace)
    ensures Ids(Merged(w, part).windows) == Ids(w.windows) + Ids(part.windows)
  {
    var ws := Merged(w, part).windows;
    assert forall e :: e in ws <==> e in w.windows || e in part.windows;
  }

  lemma MergedTidy(w: Workspace, part: Workspace)
    requires Tidy(w) && Tidy(part) && Ids(w.windows) !! Ids(part.windows)
    ensures Tidy(Merged(w, part))
  {
    var m := Merged(w, part);
    MergedIds(w, part);
    forall e, f | e in w.windows && f in part.windows ensures e.id != f.id {
      assert e.id in Ids(w.windows) && f.id in Ids(part.windows);
    }
    forall i, j | 0 <= i < j < |m.windows| ensures m.windows[i].id != m.windows[j].id {
      if i < |w.windows| <= j {
        assert w.windows[i] in w.windows && part.windows[j - |w.windows|] in part.windows;
      }
    }
    NoDupConcat(w.minimizedHistory, part.minimizedHistory);
    assert forall e :: e in m.windows <==> e in w.windows || e in part.windows;
  }

  // The workspace holding a window.
  function WorkspaceOf(ws: seq<Workspace>, id: nat): (r: Option<nat>)
    ensures r.Some? ==> r.value < |ws| && Find(ws[r.value].windows, id).Some?
    ensures r.None? ==> forall i :: 0 <= i < |ws| ==> Find(ws[i].windows, id).None?
  {
    if ws == [] then None
    else if Find(ws[0].windows, id).Some? then Some(0)
    else
      match WorkspaceOf(ws[1..], id)
      case Some(k) => Some(k + 1)
      case None => None
  }

  lemma FoundId(ws: seq<Entry>, id: nat)
    ensures Find(ws, id).Some? <==> id in Ids(ws)
  {
  }

  // Move some windows, with their bookkeeping, to the end of another workspace.
  function Moved(d: Desk, source: nat, target: nat, ids: set<nat>): Desk
    requires source < |d.workspaces| && target < |d.workspaces|
  {
    With(With(d, source, Part(d.workspaces[source], ids, false)),
         target, Merged(d.workspaces[target], Part(d.workspaces[source], ids, true)))
  }

  lemma MovedInv(d: Desk, source: nat, target: nat, ids: set<nat>)
    requires Inv(d) && source < |d.workspaces| && target < |d.workspaces| && source != target
    ensures Inv(Moved(d, source, target, ids))
  {
    var a, b := d.workspaces[source], d.workspaces[target];
    var taken, rest := Part(a, ids, true), Part(a, ids, false);
    PartTidy(a, ids, true);
    PartTidy(a, ids, false);
    PartIds(a, ids, true);
    PartIds(a, ids, false);
    assert Ids(a.windows) !! Ids(b.windows);
    MergedTidy(b, taken);
    MergedIds(b, taken);
    WithTwoInv(d, source, rest, target, Merged(b, taken));
  }

  // ------------------------------------------------------------------
  // Shared steps

  function Trim(d: Desk): Desk {
    var ws := Nav.Trimmed(d.workspaces, d.predefined, d.active, Held(d));
    d.(workspaces := ws, last := if d.last.Some? && d.last.value >= |ws| then None else d.last)
  }

  lemma TrimInv(d: Desk)
    requires Inv(d)
    ensures Inv(Trim(d)) && Trim(d).workspaces[d.active] == d.workspaces[d.active]
  {
    var ws := Trim(d).workspaces;
    Nav.TrimKeepsUsed(d.workspaces, d.predefined, d.active, Held(d));
    assert Tidy(EMPTY_WORKSPACE) && Entries(EMPTY_WORKSPACE, d.census) && Ids(EMPTY_WORKSPACE.windows) == {};
  }

  function Ensured(d: Desk, index: nat): Option<Desk> {
    if index + 1 > Nav.MAX_WORKSPACES then None
    else Some(d.(workspaces := Nav.Grown(d.workspaces, index + 1)))
  }

  lemma EnsuredInv(d: Desk, index: nat)
    requires Inv(d) && Ensured(d, index).Some?
    ensures var e := Ensured(d, index).value;
            && Inv(e) && index < |e.workspaces| && d.workspaces <= e.workspaces
            && e.workspaces[d.active] == d.workspaces[d.active]
  {
    assert Tidy(EMPTY_WORKSPACE) && Entries(EMPTY_WORKSPACE, d.census) && Ids(EMPTY_WORKSPACE.windows) == {};
  }

  ghost function StageOf(d: Desk): Stage
    requires d.active < |d.workspaces|
  {
    Stage(d.workspaces[d.active], d.focus)
  }

  function Staged(d: Desk, s: Stage): Desk
    requires d.active < |d.workspaces|
  {
    With(d, d.active, s.w).(focus := s.focus)
  }

  ghost function Relay(d: Desk): Desk
    requires d.active < |d.workspaces|
  {
    Staged(d, Relaid(StageOf(d)))
  }

  ghost predicate FocusOk(d: Desk) {
    d.active < |d.workspaces| && FocusSound(StageOf(d))
  }

  // A workspace that keeps its frame and sane weights keeps its invariant.
  lemma FrameTidy(w: Workspace, v: Workspace, census: Census)
    requires Tidy(w) && Entries(w, census) && SameMarks(w, v)
    requires Weighted(v.windows, WEIGHT_UNIT * census.peak)
    ensures Tidy(v) && Entries(v, census) && Ids(v.windows) == Ids(w.windows)
  {
    assert UniqueIds(v.windows) by { SameAcyclic(w.windows, v.windows); }
    FrameMembers(w.windows, v.windows);
    assert Ids(v.windows) == Ids(w.windows);
    forall id
      ensures id in v.minimizedHistory <==> exists e :: e in v.windows && e.id == id && e.minimized
    {
    }
  }

  lemma FrameMembers(ws: seq<Entry>, vs: seq<Entry>)
    requires SameForest(ws, vs)
    ensures forall e :: e in vs ==> exists f :: f in ws && SameNode(e, f)
    ensures forall e :: e in ws ==> exists f :: f in vs && SameNode(e, f)
  {
    SameNodes(vs, ws);
    forall e | e in vs ensures exists f :: f in ws && SameNode(e, f) {
      SameMembers(vs, ws, e);
    }
    forall e | e in ws ensures exists f :: f in vs && SameNode(e, f) {
      SameMembers(ws, vs, e);
    }
  }

  lemma FewWindows(w: Workspace, alive: set<nat>)
    requires UniqueIds(w.windows) && forall e :: e in w.windows ==> e.id in alive
    ensures |w.windows| <= |alive|
  {
    var ids := IdsOf(w.windows);
    forall id | id in ids ensures id in alive {
      var i :| 0 <= i < |ids| && ids[i] == id;
      assert w.windows[i] in w.windows;
    }
    Pigeonhole(ids, alive);
  }

  lemma {:induction false} FewTiles(all: seq<Entry>, ws: seq<Entry>)
    ensures |TilesOf(all, ws)| <= |ws|
  {
    if ws != [] {
      FewTiles(all, ws[..|ws| - 1]);
    }
  }

  lemma NormalizedWeighted(ws: seq<Entry>, cap: nat)
    requires Weighted(ws, cap) && WEIGHT_UNIT * |ws| <= cap
    ensures Weighted(NormalizedStack(ws), cap)
  {
    var weights := WeightsOf(Stack(ws));
    var tiles := TilesOf(ws, ws);
    FewTiles(ws, ws);
    forall i | 0 <= i < |weights| ensures weights[i] >= 1 {
      assert Stack(ws)[i] in tiles;
    }
    forall i | 0 <= i < |weights| ensures 1 <= Normalized(weights)[i] <= cap {
      NormalizedCapped(weights, i);
    }
    forall e | e in NormalizedStack(ws) ensures 1 <= e.stackWeight <= cap {
      var i :| 0 <= i < |ws| && NormalizedStack(ws)[i] == e;
      assert ws[i] in ws;
    }
  }

  lemma RankedWeighted(ws: seq<Entry>, order: seq<nat>, cap: nat)
    requires Weighted(ws, cap)
    ensures Weighted(Ranked(ws, order), cap)
  {
    forall e | e in Ranked(ws, order) ensures 1 <= e.stackWeight <= cap {
      var i :| 0 <= i < |ws| && Ranked(ws, order)[i] == e;
      assert ws[i] in ws;
    }
  }

  lemma FocusedWeighted(s: Stage, id: nat, remember: bool, cap: nat)
    requires Weighted(s.w.windows, cap)
    ensures Weighted(Focused(s, id, remember).w.windows, cap)
  {
    var w := if remember then Remembered(s.w, id) else s.w;
    RankedWeighted(w.windows, RaisedOrder(w, id), cap);
  }

  lemma RelaidWeighted(s: Stage, cap: nat)
    requires Weighted(s.w.windows, cap) && WEIGHT_UNIT * |s.w.windows| <= cap
    ensures Weighted(Relaid(s).w.windows, cap)
  {
    NormalizedWeighted(s.w.windows, cap);
    var t := s.(w := s.w.(windows := NormalizedStack(s.w.windows)));
    if LastVisible(t.w).Some? {
      FocusedWeighted(t, LastVisible(t.w).value, true, cap);
    }
  }

  lemma StagedInv(d: Desk, s: Stage)
    requires Inv(d) && SameFrame(d.workspaces[d.active], s.w)
    requires Weighted(s.w.windows, WEIGHT_UNIT * d.census.peak)
    ensures Inv(Staged(d, s))
  {
    FrameTidy(d.workspaces[d.active], s.w, d.census);
    WithInv(d, d.active, s.w);
  }

  lemma RelayInv(d: Desk)
    requires Inv(d)
    ensures Inv(Relay(d)) && FocusOk(Relay(d))
  {
    RelaidFrame(StageOf(d));
    FewWindows(d.workspaces[d.active], d.census.alive);
    RelaidWeighted(StageOf(d), WEIGHT_UNIT * d.census.peak);
    var w := d.workspaces[d.active];
    RestoredSound(Stage(w.(windows := NormalizedStack(w.windows)), d.focus));
    StagedInv(d, Relaid(StageOf(d)));
  }

  // Focusing a window of the active workspace.
  ghost function FocusIn(d: Desk, id: nat, remember: bool): Desk
    requires d.active < |d.workspaces|
  {
    Staged(d, Focused(StageOf(d), id, remember))
  }

  lemma FocusInInv(d: Desk, id: nat, remember: bool)
    requires Inv(d)
    ensures Inv(FocusIn(d, id, remember))
    ensures FocusOk(d) ==> FocusOk(FocusIn(d, id, remember))
  {
    FocusedFrame(StageOf(d), id, remember);
    FocusedWeighted(StageOf(d), id, remember, WEIGHT_UNIT * d.census.peak);
    StagedInv(d, Focused(StageOf(d), id, remember));
    if Visible(StageOf(d).w, id) {
      FocusedSound(StageOf(d), id, remember);
    }
  }

  // Relayout when an operation touched the active workspace.
  ghost function RelayIf(d: Desk, touched: bool): Desk
    requires d.active < |d.workspaces|
  {
    if touched then Relay(d) else d
  }

  // An operation that leaves the active workspace and focus alone, or relayouts, keeps focus sound.
  lemma RelayIfInv(d: Desk, e: Desk, touched: bool)
    requires Inv(d) && Inv(e)
    requires !touched ==> e.focus == d.focus && SameFrame(d.workspaces[d.active], e.workspaces[e.active])
    ensures Inv(RelayIf(e, touched))
    ensures FocusOk(d) ==> FocusOk(RelayIf(e, touched))
  {
    if touched {
      RelayInv(e);
    } else if FocusOk(d) {
      SoundByFrame(StageOf(d), e.workspaces[e.active]);
    }
  }
}
