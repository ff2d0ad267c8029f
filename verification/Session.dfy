// Whole sessions: any sequence of operations from the empty desktop.
module Session {
  import opened Common
  import opened Arith
  import opened Model
  import opened Tiling
  import opened Visibility
  import opened Ring
  import opened Desk
  import opened Operations
  import opened Transfers
  import opened RuleFocus
  import opened DeskDrags
  import opened Conservation
  import Drag
  import Nav = Navigation

  datatype Op =
    | Add(child: nat, hints: Hints, takesFocus: bool)
    | Refresh(id: nat, hints: Hints)
    | ApplyRules(id: nat, rules: Rules, hints: Hints)
    | MoveFamily(target: nat)
    | Minimize(id: nat)
    | RestoreLast
    | Restore(id: nat)
    | SetFullscreen(id: nat, on: bool)
    | SetMaximized(id: nat, on: bool)
    | ToggleFloating(usable: Rect, min: Size, max: Size)
    | Drag(screen: Drag.Screen, wish: Drag.Wish)
    | SetRatio(screen: Drag.Screen, ratio: Option<nat>)
    | SwapTiles(screen: Drag.Screen, source: nat, destination: nat)
    | Remove(id: nat)
    | Switch(index: nat, animate: bool)
    | FocusWindow(id: nat, animate: bool)
    | Cycle(mru: bool, step: Step)
    | Relayout
    | TrimTail
    | Spawn
    | Reap(child: nat)
    | MapUnmanaged(parent: Option<nat>)
    | UnmapUnmanaged(index: nat)
    | Animate(tracks: seq<nat>, preview: Option<(nat, nat)>)

  // References to workspaces held by the surroundings, if they are in range.
  ghost function Surrounded(d: Desk, e: Desk): (r: Desk)
    requires Inv(d)
             && e == d.(children := e.children, unmanaged := e.unmanaged, tracks := e.tracks, preview := e.preview)
    ensures Inv(r) && (FocusOk(d) ==> FocusOk(r)) && Conserves(d, r)
  {
    if forall h :: h in Held(e) ==> h < |d.workspaces| then e else d
  }

  ghost function Reaped(d: Desk, k: nat): (r: Desk)
    requires Inv(d)
    ensures Inv(r) && (FocusOk(d) ==> FocusOk(r)) && Conserves(d, r)
  {
    if k < |d.children| then
      var e := d.(children := d.children[..k] + d.children[k + 1..]);
      FewerHeld(d, e);
      e
    else d
  }

  ghost function Unmapped(d: Desk, k: nat): (r: Desk)
    requires Inv(d)
    ensures Inv(r) && (FocusOk(d) ==> FocusOk(r)) && Conserves(d, r)
  {
    if k < |d.unmanaged| then
      var e := d.(unmanaged := d.unmanaged[..k] + d.unmanaged[k + 1..]);
      FewerHosts(d.unmanaged, k);
      FewerHeld(d, e);
      e
    else d
  }

  lemma FewerHosts(unmanaged: seq<Unmanaged>, k: nat)
    requires k < |unmanaged|
    ensures Hosts(unmanaged[..k] + unmanaged[k + 1..]) == Hosts(unmanaged)[..k] + Hosts(unmanaged)[k + 1..]
  {
  }

  // What an operation does to the windows there are.
  ghost predicate Counts(d: Desk, op: Op, r: Desk) {
    match op
    case Add(_, _, _) => Joins(d, r, d.nextId)
    case Remove(id) => Leaves(d, r, id)
    case _ => Conserves(d, r)
  }

  // Operations that bring, take or place windows.
  predicate Rearranges(op: Op) {
    || op.Add? || op.Remove? || op.Refresh? || op.ApplyRules? || op.MoveFamily?
    || op.Drag? || op.SetRatio? || op.SwapTiles?
  }

  ghost function Rearranged(d: Desk, op: Op): (r: Desk)
    requires Inv(d) && Rearranges(op)
    ensures Inv(r) && Counts(d, op, r)
    ensures FocusOk(d) && !op.ApplyRules? ==> FocusOk(r)
  {
    match op
    case Add(child, hints, takesFocus) =>
      AddedInv(d, child, hints, takesFocus); AddedJoins(d, child, hints, takesFocus); Added(d, child, hints, takesFocus)
    case Refresh(id, hints) => RefreshedInv(d, id, hints); RefreshedConserves(d, id, hints); Refreshed(d, id, hints)
    case ApplyRules(id, rules, hints) =>
      RulesAppliedInv(d, id, rules, hints); RulesAppliedConserves(d, id, rules, hints); RulesApplied(d, id, rules,
          hints)
    case MoveFamily(target) => FamilyMovedInv(d, target); FamilyMovedConserves(d, target); FamilyMoved(d, target)
    case Drag(screen, wish) =>
      if Drag.ScreenOk(screen) then
        WishGrantedInv(d, screen, wish); WishConserves(d, screen, wish); WishGranted(d, screen, wish)
      else d
    case SetRatio(screen, ratio) => RatioSetInv(d, screen, ratio); RatioSetConserves(d, screen, ratio); RatioSet(d,
        screen, ratio)
    case SwapTiles(screen, source, destination) =>
      TilesSwappedInv(d, screen, source, destination); TilesSwappedConserves(d, screen, source, destination);
      TilesSwapped(d, screen, source, destination)
    case Remove(id) => ClosedInv(d, id); ClosedLeaves(d, id); Closed(d, id)
  }

  // Operations on the windows there are.
  ghost function Tended(d: Desk, op: Op): (r: Desk)
    requires Inv(d) && !Rearranges(op)
    ensures Inv(r) && Conserves(d, r) && (FocusOk(d) ==> FocusOk(r))
    ensures op.SetFullscreen? ==> r == SetExpanded(d, op.id, true, op.on)
    ensures op.Switch? ==> r == Switched(d, op.index, op.animate)
    ensures op.FocusWindow? ==> r == WindowFocused(d, op.id, op.animate)
  {
    match op
    case Minimize(id) => MinimizedInv(d, id); MinimizedConserves(d, id); Minimized(d, id)
    case RestoreLast => MinimizedInv(d, 0); LastUnminimizedConserves(d); LastUnminimized(d)
    case Restore(id) => MinimizedInv(d, id); MinimizedConserves(d, id); Unminimized(d, id)
    case SetFullscreen(id, on) => SetExpandedInv(d, id, true, on); SetExpandedConserves(d, id, true,
        on); SetExpanded(d, id, true, on)
    case SetMaximized(id, on) =>
      SetExpandedInv(d, id, false, on); SetExpandedConserves(d, id, false, on); SetExpanded(d, id, false, on)
    case ToggleFloating(usable, min, max) =>
      FloatingToggledInv(d, usable, min, max); FloatingToggledConserves(d, usable, min, max);
      FloatingToggled(d, usable, min, max)
    case Switch(index, animate) => SwitchedInv(d, index, animate); SwitchedConserves(d, index, animate); Switched(d,
        index, animate)
    case FocusWindow(id, animate) =>
      WindowFocusedInv(d, id, animate); WindowFocusedConserves(d, id, animate); WindowFocused(d, id, animate)
    case Cycle(mru, step) => FocusCycledInv(d, mru, step); FocusCycledConserves(d, mru, step); FocusCycled(d, mru, step)
    case Relayout => RelayInv(d); RelayConserves(d, true); Relay(d)
    case TrimTail => TrimInv(d); TrimConserves(d); Trim(d)
    case Spawn => Surrounded(d, d.(children := d.children + [d.active]))
    case Reap(k) => Reaped(d, k)
    case MapUnmanaged(parent) => Surrounded(d, d.(unmanaged := d.unmanaged + [Unmanaged(parent, d.active)]))
    case UnmapUnmanaged(k) => Unmapped(d, k)
    case Animate(tracks, preview) => Surrounded(d, d.(tracks := tracks, preview := preview))
  }

  // Every operation keeps the invariant and the windows, and all but one keep
  // focus sound. What some do is spelled out for the sample sessions.
  ghost function Applied(d: Desk, op: Op): (r: Desk)
    requires Inv(d)
    ensures Inv(r) && Counts(d, op, r)
    ensures FocusOk(d) && !op.ApplyRules? ==> FocusOk(r)
    ensures op.SetFullscreen? ==> r == SetExpanded(d, op.id, true, op.on)
    ensures op.Switch? ==> r == Switched(d, op.index, op.animate)
    ensures op.FocusWindow? ==> r == WindowFocused(d, op.id, op.animate)
  {
    if Rearranges(op) then Rearranged(d, op) else Tended(d, op)
  }

  // Every operation is what its name says; drags need a usable area.
  lemma AppliedIs(d: Desk, op: Op)
    requires Inv(d)
    ensures match op
            case Add(child, hints, takesFocus) => Applied(d, op) == Added(d, child, hints, takesFocus)
            case Refresh(id, hints) => Applied(d, op) == Refreshed(d, id, hints)
            case ApplyRules(id, rules, hints) => Applied(d, op) == RulesApplied(d, id, rules, hints)
            case MoveFamily(target) => Applied(d, op) == FamilyMoved(d, target)
            case Minimize(id) => Applied(d, op) == Minimized(d, id)
            case RestoreLast => Applied(d, op) == LastUnminimized(d)
            case Restore(id) => Applied(d, op) == Unminimized(d, id)
            case SetFullscreen(id, on) => Applied(d, op) == SetExpanded(d, id, true, on)
            case SetMaximized(id, on) => Applied(d, op) == SetExpanded(d, id, false, on)
            case ToggleFloating(usable, min, max) => Applied(d, op) == FloatingToggled(d, usable, min, max)
            case Remove(id) => Applied(d, op) == Closed(d, id)
            case Switch(index, animate) => Applied(d, op) == Switched(d, index, animate)
            case FocusWindow(id, animate) => Applied(d, op) == WindowFocused(d, id, animate)
            case Cycle(mru, step) => Applied(d, op) == FocusCycled(d, mru, step)
            case Relayout => Applied(d, op) == Relay(d)
            case TrimTail => Applied(d, op) == Trim(d)
            case Drag(screen, wish) => Drag.ScreenOk(screen) ==> Applied(d, op) == WishGranted(d, screen, wish)
            case SetRatio(screen, ratio) => Applied(d, op) == RatioSet(d, screen, ratio)
            case SwapTiles(screen, source, destination) =>
              Applied(d, op) == TilesSwapped(d, screen, source, destination)
            case _ => true
  {
  }

  // The one operation that can leave focus on a window it has just covered.
  ghost predicate Strands(d: Desk, op: Op)
    requires Inv(d)
  {
    op.ApplyRules? && LosesFocus(d, op.id, op.rules, op.hints)
  }

  // Every operation keeps the invariant, and keeps focus sound exactly when it does not strand it.
  lemma AppliedKeeps(d: Desk, op: Op)
    requires Inv(d)
    ensures Inv(Applied(d, op))
    ensures FocusOk(d) ==> (FocusOk(Applied(d, op)) <==> !Strands(d, op))
  {
    if op.ApplyRules? && FocusOk(d) {
      RulesKeepFocus(d, op.id, op.rules, op.hints);
    }
  }

  ghost function Run(d: Desk, ops: seq<Op>): (r: Desk)
    requires Inv(d)
    ensures Inv(r)
  {
    if ops == [] then d
    else
      var before := Run(d, ops[..|ops| - 1]);
      Applied(before, ops[|ops| - 1])
  }

  // A session starts on the first of its empty workspaces, without focus.
  ghost function Start(predefined: nat, output: Size): (r: Desk)
    ensures Inv(r) && FocusOk(r)
  {
    var d := Desk([EMPTY_WORKSPACE], 0, None, 1, Census({}, 0), None, [], [], [], None, predefined, output);
    BareDeskInv(d);
    TrimInv(d);
    Trim(d)
  }

  lemma BareDeskInv(d: Desk)
    requires d.workspaces == [EMPTY_WORKSPACE] && d.active == 0 && d.last.None? && d.focus.None? && Held(d) == []
    requires d.census == Census({}, 0)
    ensures Inv(d) && FocusOk(d)
  {
    assert Tidy(EMPTY_WORKSPACE) && Ids(EMPTY_WORKSPACE.windows) == {};
  }

  // Over every run: ids are unique across workspaces, each minimized stack
  // lists exactly its workspace's minimized windows once, each fullscreen and
  // maximized owner lives on its own workspace, and every reference is in range.
  lemma RunKeepsStructure(predefined: nat, output: Size, ops: seq<Op>, i: nat, j: nat)
    requires var d := Run(Start(predefined, output), ops); i < |d.workspaces| && j < |d.workspaces|
    ensures var d := Run(Start(predefined, output), ops); var w := d.workspaces[i];
            && UniqueIds(w.windows)
            && (i != j ==> Ids(w.windows) !! Ids(d.workspaces[j].windows))
            && NoDup(w.minimizedHistory)
            && (forall id :: id in w.minimizedHistory <==> exists e :: e in w.windows && e.id == id && e.minimized)
            && (w.fullscreen.Some? ==> w.fullscreen.value in Ids(w.windows))
            && (w.maximized.Some? ==> w.maximized.value in Ids(w.windows))
            && d.active < |d.workspaces| <= Nav.MAX_WORKSPACES
            && (d.last.Some? ==> d.last.value < |d.workspaces|)
            && InReach(d)
  {
    InvParts(Run(Start(predefined, output), ops), i, j);
    ReferencesReach(Run(Start(predefined, output), ops));
  }

  // Every workspace that a child process, an override-redirect window, a motion or
  // a swipe refers to exists.
  ghost predicate InReach(d: Desk) {
    && (forall h :: h in d.children ==> h < |d.workspaces|) && (forall h :: h in d.tracks ==> h < |d.workspaces|)
    && (forall u :: u in d.unmanaged ==> u.workspace < |d.workspaces|)
    && (d.preview.Some? ==> d.preview.value.0 < |d.workspaces| && d.preview.value.1 < |d.workspaces|)
  }

  lemma ReferencesReach(d: Desk)
    requires Inv(d)
    ensures InReach(d)
  {
    forall h | h in d.children || h in d.tracks ensures h < |d.workspaces| {
      assert h in Held(d);
    }
    forall u | u in d.unmanaged ensures u.workspace < |d.workspaces| {
      var i :| 0 <= i < |d.unmanaged| && d.unmanaged[i] == u;
      assert Hosts(d.unmanaged)[i] in Held(d);
    }
    if d.preview.Some? {
      assert d.preview.value.0 in Held(d) && d.preview.value.1 in Held(d);
    }
  }

  lemma InvParts(d: Desk, i: nat, j: nat)
    requires Inv(d) && i < |d.workspaces| && j < |d.workspaces|
    ensures Tidy(d.workspaces[i])
    ensures i != j ==> Ids(d.workspaces[i].windows) !! Ids(d.workspaces[j].windows)
  {
    if j < i {
      assert Ids(d.workspaces[j].windows) !! Ids(d.workspaces[i].windows);
    }
  }

  // The id that the next window will get.
  function NextId(ops: seq<Op>): nat {
    if ops == [] then 1 else NextId(ops[..|ops| - 1]) + if ops[|ops| - 1].Add? then 1 else 0
  }

  // The windows opened and not closed.
  function OpenIds(ops: seq<Op>): set<nat> {
    if ops == [] then {}
    else
      var front := ops[..|ops| - 1];
      match ops[|ops| - 1]
      case Add(_, _, _) => OpenIds(front) + {NextId(front)}
      case Remove(id) => OpenIds(front) - {id}
      case _ => OpenIds(front)
  }

  // The desk holds the windows that were opened and not closed, and counts them.
  ghost predicate Tallies(d: Desk, ops: seq<Op>) {
    Everyone(d.workspaces) == OpenIds(ops) && d.census.alive == OpenIds(ops) && d.nextId == NextId(ops)
  }

  // Over every run none is lost, and none appears otherwise.
  lemma {:induction false} RunKeepsWindows(predefined: nat, output: Size, ops: seq<Op>)
    ensures Tallies(Run(Start(predefined, output), ops), ops)
  {
    if ops == [] {
      EveryoneCounted(Start(predefined, output));
    } else {
      var front := ops[..|ops| - 1];
      RunKeepsWindows(predefined, output, front);
      RunCounts(Start(predefined, output), ops);
      TalliesOn(Run(Start(predefined, output), front), ops, Run(Start(predefined, output), ops));
    }
  }

  lemma RunCounts(d: Desk, ops: seq<Op>)
    requires Inv(d) && ops != []
    ensures Counts(Run(d, ops[..|ops| - 1]), ops[|ops| - 1], Run(d, ops))
  {
  }

  lemma TalliesOn(d: Desk, ops: seq<Op>, r: Desk)
    requires ops != [] && Inv(r) && Tallies(d, ops[..|ops| - 1]) && Counts(d, ops[|ops| - 1], r)
    ensures Tallies(r, ops)
  {
    EveryoneCounted(r);
    if ops[|ops| - 1].Remove? {
      HomeOf(d.workspaces, ops[|ops| - 1].id);
    }
  }

  // The most windows ever open at once bound the recorded peak.
  lemma {:induction false} RunPeak(predefined: nat, output: Size, ops: seq<Op>, p: nat)
    requires forall k :: 0 <= k <= |ops| ==> |OpenIds(ops[..k])| <= p
    ensures Run(Start(predefined, output), ops).census.peak <= p
  {
    if ops != [] {
      assert Run(Start(predefined, output), ops[..|ops| - 1]).census.peak <= p by {
        var front := ops[..|ops| - 1];
        forall k | 0 <= k <= |front| ensures |OpenIds(front[..k])| <= p {
          assert front[..k] == ops[..k];
        }
        RunPeak(predefined, output, front, p);
      }
      assert |OpenIds(ops)| <= p by { assert ops[..|ops|] == ops; }
      RunCounts(Start(predefined, output), ops);
      RunKeepsWindows(predefined, output, ops);
      PeakStays(Run(Start(predefined, output), ops[..|ops| - 1]), ops, Run(Start(predefined, output), ops), p);
    }
  }

  lemma PeakStays(d: Desk, ops: seq<Op>, r: Desk, p: nat)
    requires ops != [] && Counts(d, ops[|ops| - 1], r) && Tallies(r, ops) && d.census.peak <= p && |OpenIds(ops)| <= p
    ensures r.census.peak <= p
  {
    PeakCounts(d, ops[|ops| - 1], r);
  }

  lemma PeakCounts(d: Desk, op: Op, r: Desk)
    requires Counts(d, op, r)
    ensures d.census.peak <= r.census.peak
    ensures r.census.peak == d.census.peak || r.census.peak == |r.census.alive|
  {
  }

  lemma {:induction false} PeakGrows(d: Desk, ops: seq<Op>, n: nat)
    requires Inv(d) && n <= |ops|
    ensures Run(d, ops[..n]).census.peak <= Run(d, ops).census.peak
  {
    if n < |ops| {
      var front := ops[..|ops| - 1];
      assert front[..n] == ops[..n];
      PeakGrows(d, front, n);
      PeakCounts(Run(d, front), ops[|ops| - 1], Run(d, ops));
    } else {
      assert ops[..n] == ops;
    }
  }

  // A divider drag that began at some point of a run is undone, at any later
  // point at which its workspace is active, by one more step of the run.
  lemma StackCancelIsStep(d: Desk, ops: seq<Op>, n: nat, screen: Drag.Screen, drag: Drag.Interaction)
    requires Inv(d) && n <= |ops| && Drag.ScreenOk(screen) && drag.operation.DragStack?
    requires var began := Run(d, ops[..n]); var stack := Stack(began.workspaces[began.active].windows);
             drag.operation.ids == IdsOf(stack) && drag.operation.weights == WeightsOf(stack)
    requires drag.workspace == Run(d, ops).active && Drag.OperationOk(drag.operation)
    ensures var r := Run(d, ops);
            SceneOf(Applied(r, Op.Drag(screen, Drag.Weigh(drag.operation.ids, drag.operation.weights))), screen)
            == Drag.Finished(SceneOf(r, screen), drag, false)
  {
    var r := Run(d, ops);
    PeakGrows(d, ops, n);
    RecordedAdmissible(Run(d, ops[..n]), r, drag);
    CancelIsWish(r, screen, drag);
  }

  lemma RecordedAdmissible(began: Desk, d: Desk, drag: Drag.Interaction)
    requires Inv(began) && Inv(d) && began.census.peak <= d.census.peak && drag.operation.DragStack?
    requires var stack := Stack(began.workspaces[began.active].windows);
             drag.operation.ids == IdsOf(stack) && drag.operation.weights == WeightsOf(stack)
    ensures Admissible(d, Drag.Weigh(drag.operation.ids, drag.operation.weights))
  {
    var w := began.workspaces[began.active];
    forall k | 0 <= k < |drag.operation.weights| ensures drag.operation.weights[k] <= WEIGHT_UNIT * d.census.peak {
      assert Stack(w.windows)[k] in TilesOf(w.windows, w.windows);
      assert Entries(w, began.census);
    }
  }

  lemma RunWeightsBounded(predefined: nat, output: Size, ops: seq<Op>, p: nat, i: nat, e: Entry)
    requires forall k :: 0 <= k <= |ops| ==> |OpenIds(ops[..k])| <= p
    ensures var d := Run(Start(predefined, output), ops);
            i < |d.workspaces| && e in d.workspaces[i].windows ==> 1 <= e.stackWeight <= WEIGHT_UNIT * p
  {
    var d := Run(Start(predefined, output), ops);
    RunPeak(predefined, output, ops, p);
    if i < |d.workspaces| && e in d.workspaces[i].windows {
      assert Entries(d.workspaces[i], d.census);
    }
  }

  // Over every run no product of a height split overflows while the stack's
  // size times the most windows ever open at once stays below 429496, in
  // particular while no more than 655 windows are ever open at once.
  lemma RunHeightsFit(predefined: nat, output: Size, ops: seq<Op>, p: nat, i: nat, height: int, k: nat)
    requires -0x8000_0000 <= height <= 0x7FFF_FFFF
    requires forall n :: 0 <= n <= |ops| ==> |OpenIds(ops[..n])| <= p
    ensures var d := Run(Start(predefined, output), ops);
            i < |d.workspaces| ==>
              var stack := Stack(d.workspaces[i].windows);
              && |stack| <= p
              && (k <= |stack| && (p <= 655 || |stack| * p <= 429496) ==>
                  Abs(height * Prefix(WeightsOf(stack), k)) <= I64_MAX)
  {
    var d := Run(Start(predefined, output), ops);
    RunPeak(predefined, output, ops, p);
    if i < |d.workspaces| {
      var stack := Stack(d.workspaces[i].windows);
      FewStacked(d.workspaces[i], d.census);
      if k <= |stack| && (p <= 655 || |stack| * p <= 429496) {
        assert |stack| * d.census.peak <= 429496 by { SmallProduct(|stack|, d.census.peak, p); }
        StackFits(d.workspaces[i], d.census, height, k);
      }
    }
  }

  lemma SmallProduct(n: nat, peak: nat, p: nat)
    requires n <= peak <= p && (p <= 655 || n * p <= 429496)
    ensures n * peak <= 429496
  {
    MulMono(peak, p, n);
    if p <= 655 {
      MulMono(n, 655, peak);
    }
  }

  lemma FewStacked(w: Workspace, census: Census)
    requires Tidy(w) && Entries(w, census) && |census.alive| <= census.peak
    ensures |Stack(w.windows)| <= census.peak
  {
    FewWindows(w, census.alive);
    FewTiles(w.windows, w.windows);
  }

  lemma StackFits(w: Workspace, census: Census, height: int, k: nat)
    requires Tidy(w) && Entries(w, census) && k <= |Stack(w.windows)| && |Stack(w.windows)| * census.peak <= 429496
    requires -0x8000_0000 <= height <= 0x7FFF_FFFF
    ensures Abs(height * Prefix(WeightsOf(Stack(w.windows)), k)) <= I64_MAX
  {
    var weights, cap := WeightsOf(Stack(w.windows)), WEIGHT_UNIT * census.peak;
    StackUnique(w.windows);
    forall m | 0 <= m < |weights| ensures 1 <= weights[m] <= cap {
      assert Stack(w.windows)[m] in Stack(w.windows);
    }
    assert |weights| * cap == WEIGHT_UNIT * (|weights| * census.peak);
    CappedProductFits(height, weights, cap, k);
  }

  // Over every run, focus is on a visible window of the active workspace, and
  // absent exactly when all its windows are minimized or behind a minimized
  // ancestor, as long as no operation strands it; the first one that does leaves it unsound.
  lemma {:induction false} RunKeepsFocus(predefined: nat, output: Size, ops: seq<Op>)
    requires forall i :: 0 <= i < |ops| - 1 ==> !Strands(Run(Start(predefined, output), ops[..i]), ops[i])
    ensures ops == [] ==> FocusOk(Run(Start(predefined, output), ops))
    ensures ops != [] ==> (FocusOk(Run(Start(predefined, output), ops))
                           <==> !Strands(Run(Start(predefined, output), ops[..|ops| - 1]), ops[|ops| - 1]))
  {
    if ops != [] {
      var front := ops[..|ops| - 1];
      assert FocusOk(Run(Start(predefined, output), front)) by {
        forall i | 0 <= i < |front| ensures !Strands(Run(Start(predefined, output), front[..i]), front[i]) {
          assert front[..i] == ops[..i];
        }
        RunKeepsFocus(predefined, output, front);
      }
      AppliedKeeps(Run(Start(predefined, output), front), ops[|ops| - 1]);
    }
  }
}
