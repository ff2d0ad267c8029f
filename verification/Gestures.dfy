// Workspace swipes and timed workspace motion: one owner per swipe stream, one
// shared timer for everything that moves by itself.
module Gestures {
  import opened Common
  import opened Model
  import opened Motion
  import Nav = Navigation

  // ------------------------------------------------------------------
  // Recognizing a horizontal swipe

  datatype Axis = Pending | Horizontal | Rejected

  datatype Recognizer = Recognizer(x: real, y: real, axis: Axis)

  function ClampReal(v: real, lo: real, hi: real): real {
    if v < lo then lo else if v > hi then hi else v
  }

  function AbsReal(v: real): real { if v < 0.0 then -v else v }

  function Decided(x: real, y: real): Axis {
    if AbsReal(x) < 8.0 && AbsReal(y) < 8.0 then Pending
    else if AbsReal(x) > AbsReal(y) * 1.25 then Horizontal
    else if AbsReal(y) > AbsReal(x) * 1.25 then Rejected
    else Pending
  }

  function Fed(r: Recognizer, dx: real, dy: real, width: real): Recognizer {
    if width <= 0.0 then r
    else
      var x := ClampReal(r.x + dx, -width / 4.0, width / 4.0);
      var y := ClampReal(r.y + dy, -1000000.0, 1000000.0);
      Recognizer(x, y, if r.axis.Pending? then Decided(x, y) else r.axis)
  }

  // Finger travel is amplified fourfold.
  function Offset(r: Recognizer, width: real): real {
    if r.axis.Horizontal? then
      var limit := if width > 0.0 then width else 0.0;
      ClampReal(r.x * 4.0, -limit, limit)
    else 0.0
  }

  predicate Commits(r: Recognizer, width: real, cancelled: bool) {
    !cancelled && width > 0.0 && AbsReal(Offset(r, width)) >= width * 0.25
  }

  // The preview never leaves the neighbouring slot, the axis is decided once,
  // and a release commits exactly from a sixteenth of the width of travel on.
  lemma RecognizerPromises(r: Recognizer, dx: real, dy: real, width: real)
    requires width > 0.0
    ensures var f := Fed(r, dx, dy, width);
            && -width <= Offset(f, width) <= width
            && (!r.axis.Pending? ==> f.axis == r.axis)
            && (f.axis.Horizontal? ==> Offset(f, width) == 4.0 * f.x)
            && (Commits(f, width, false) <==> f.axis.Horizontal? && AbsReal(f.x) * 16.0 >= width)
            && !Commits(f, width, true)
  {
  }

  // Finger travel after one more update, held within a limit on either side.
  ghost predicate Travels(before: real, delta: real, limit: real, after: real) {
    if before + delta > limit then after == limit
    else if before + delta < -limit then after == -limit
    else after == before + delta
  }

  // Eight or more either way, and clearly more along the first axis.
  ghost predicate Mainly(a: real, b: real) {
    && (a >= 8.0 || a <= -8.0 || b >= 8.0 || b <= -8.0)
    && (if a < 0.0 then -a else a) > 1.25 * (if b < 0.0 then -b else b)
  }

  // An undecided stroke adds up its travel, and becomes horizontal or is rejected
  // as soon as it goes mainly sideways or mainly up or down.
  lemma StrokeDecides(r: Recognizer, dx: real, dy: real, width: real)
    requires r.axis.Pending? && width > 0.0
    ensures var f := Fed(r, dx, dy, width);
            && Travels(r.x, dx, width / 4.0, f.x) && Travels(r.y, dy, 1000000.0, f.y)
            && (f.axis.Horizontal? <==> Mainly(f.x, f.y)) && (f.axis.Rejected? <==> Mainly(f.y, f.x))
  {
  }

  // ------------------------------------------------------------------
  // What the focused client sees

  datatype ClientEvent = Begin | Update | End

  datatype Phase = Closed | Open | Broken

  // The phase of a client's swipe trace, event by event.
  function PhaseOf(trace: seq<ClientEvent>): Phase {
    if trace == [] then Closed
    else
      match (PhaseOf(trace[..|trace| - 1]), trace[|trace| - 1])
      case (Closed, Begin) => Open
      case (Open, Update) => Open
      case (Open, End) => Closed
      case _ => Broken
  }

  ghost predicate Updates(s: seq<ClientEvent>) {
    forall i :: 0 <= i < |s| ==> s[i] == Update
  }

  // Swipes in full: begin, updates, end.
  ghost predicate Sessions(s: seq<ClientEvent>)
    decreases |s|
  {
    s == [] || exists k :: 0 <= k && k + 2 <= |s| && Session(s, k) && Sessions(s[..|s| - k - 2])
  }

  // The last k + 2 events are one whole swipe with k updates.
  ghost predicate Session(s: seq<ClientEvent>, k: nat)
    requires k + 2 <= |s|
  {
    s[|s| - k - 2] == Begin && Updates(s[|s| - k - 1..|s| - 1]) && s[|s| - 1] == End
  }

  // The last k + 1 events are a swipe still going on.
  ghost predicate Ongoing(s: seq<ClientEvent>, k: nat)
    requires k + 1 <= |s|
  {
    s[|s| - k - 1] == Begin && Updates(s[|s| - k..]) && Sessions(s[..|s| - k - 1])
  }

  lemma OngoingGrows(s: seq<ClientEvent>, k: nat)
    requires k + 1 <= |s| && Ongoing(s, k)
    ensures Ongoing(s + [Update], k + 1)
  {
    var t := s + [Update];
    assert t[..|t| - (k + 1) - 1] == s[..|s| - k - 1];
    assert t[|t| - (k + 1)..] == s[|s| - k..] + [Update];
  }

  lemma OngoingEnds(s: seq<ClientEvent>, k: nat)
    requires k + 1 <= |s| && Ongoing(s, k)
    ensures Sessions(s + [End])
  {
    var t := s + [End];
    assert t[..|t| - k - 2] == s[..|s| - k - 1];
    assert t[|t| - k - 1..|t| - 1] == s[|s| - k..];
    assert Session(t, k);
  }

  // An unbroken trace is a run of whole swipes, plus an unfinished one while open.
  lemma {:induction false} PhaseShape(trace: seq<ClientEvent>)
    ensures PhaseOf(trace).Closed? ==> Sessions(trace)
    ensures PhaseOf(trace).Open? ==> exists k :: 0 <= k && k + 1 <= |trace| && Ongoing(trace, k)
  {
    if trace != [] {
      var front, last := trace[..|trace| - 1], trace[|trace| - 1];
      assert trace == front + [last];
      PhaseShape(front);
      if PhaseOf(front).Open? && last != Begin {
        var k: nat :| k + 1 <= |front| && Ongoing(front, k);
        if last == Update {
          OngoingGrows(front, k);
        } else {
          OngoingEnds(front, k);
        }
      } else if PhaseOf(front).Closed? && last == Begin {
        assert Ongoing(trace, 0);
      }
    }
  }

  lemma PhaseBegins(trace: seq<ClientEvent>)
    requires PhaseOf(trace) == Closed
    ensures PhaseOf(trace + [Begin]) == Open
  {
    assert (trace + [Begin])[..|trace|] == trace;
  }

  lemma PhaseGoesOn(trace: seq<ClientEvent>)
    requires PhaseOf(trace) == Open
    ensures PhaseOf(trace + [Update]) == Open
  {
    assert (trace + [Update])[..|trace|] == trace;
  }

  lemma PhaseEnds(trace: seq<ClientEvent>)
    requires PhaseOf(trace) == Open
    ensures PhaseOf(trace + [End]) == Closed
  {
    assert (trace + [End])[..|trace|] == trace;
  }

  // ------------------------------------------------------------------
  // Streams and transitions

  datatype Owner = Client | Reserved(recognizer: Recognizer) | Discard

  datatype Stream = Stream(device: nat, source: nat, owner: Owner)

  datatype Transition = Transition(source: nat, target: nat, direction: Nav.Direction, offset: real,
                                   targetWasOccupied: bool, settle: Option<Tween>)

  datatype Surroundings = Surroundings(intercepting: bool, grabbed: bool, overviewVisible: bool, overviewMapped: bool,
                                       hostFocused: bool, suspended: bool, headless: bool, skipEmpty: bool, width: int)

  function Occupied(ws: seq<Workspace>): (r: seq<bool>)
    ensures |r| == |ws| && forall i :: 0 <= i < |r| ==> r[i] == (ws[i].windows != [])
  {
    seq(|ws|, i requires 0 <= i < |ws| => ws[i].windows != [])
  }

  function Ends(transition: Option<Transition>): seq<nat> {
    if transition.Some? then [transition.value.source, transition.value.target] else []
  }

  function HeldBy(pinned: seq<nat>, tracks: seq<Track>, transition: Option<Transition>): seq<nat> {
    pinned + Workspaces(tracks) + Ends(transition)
  }

  // Fewer references leave everything in range.
  lemma HeldLess(ws: seq<Workspace>, active: nat, pinned: seq<nat>, tracks: seq<Track>, transition: Option<Transition>,
                 fewer: seq<Track>)
    requires Nav.InRange(ws, active, HeldBy(pinned, tracks, transition))
    requires forall t :: t in fewer ==> t in tracks
    ensures Nav.InRange(ws, active, HeldBy(pinned, fewer, transition))
    ensures Nav.InRange(ws, active, HeldBy(pinned, fewer, None))
  {
    forall h | h in Workspaces(fewer) ensures h in HeldBy(pinned, tracks, transition) {
      var i :| 0 <= i < |fewer| && Workspaces(fewer)[i] == h;
      assert fewer[i] in tracks;
      var j :| 0 <= j < |tracks| && tracks[j] == fewer[i];
      assert Workspaces(tracks)[j] == h;
    }
    forall h | h in pinned || h in Ends(transition) ensures h in HeldBy(pinned, tracks, transition) {
    }
  }

  // A transition between workspaces in range is a reference in range.
  lemma HeldEnds(ws: seq<Workspace>, active: nat, pinned: seq<nat>, tracks: seq<Track>, was: Option<Transition>,
                 transition: Transition)
    requires Nav.InRange(ws, active, HeldBy(pinned, tracks, was))
    requires transition.source < |ws| && transition.target < |ws|
    ensures Nav.InRange(ws, active, HeldBy(pinned, tracks, Some(transition)))
  {
    forall h | h in HeldBy(pinned, tracks, Some(transition)) ensures h < |ws| {
      assert h in pinned || h in Workspaces(tracks) ==> h in HeldBy(pinned, tracks, was);
    }
  }

  predicate SwipeBlocked(s: Surroundings) {
    s.intercepting || s.grabbed || s.overviewVisible || !s.hostFocused || s.suspended
  }

  predicate MotionBlocked(s: Surroundings) {
    SwipeBlocked(s) || s.overviewMapped
  }

  predicate CannotMove(s: Surroundings) {
    s.headless || MotionBlocked(s) || s.width <= 0
  }

  // Tracks of distinct workspaces in range cannot outnumber the workspaces.
  lemma FewTracks(tracks: seq<Track>, clock: int, ws: seq<Workspace>, active: nat, pinned: seq<nat>,
                  transition: Option<Transition>)
    requires Sane(tracks, clock) && Nav.InRange(ws, active, HeldBy(pinned, tracks, transition))
    ensures |tracks| <= |ws|
  {
    var shown := Workspaces(tracks);
    forall h | h in shown ensures h in Below(|ws|) {
      assert h in HeldBy(pinned, tracks, transition);
    }
    Pigeonhole(shown, Below(|ws|));
  }

  // What an update of a reserved swipe does to its preview: no preview before
  // the axis is decided; the target is kept while the direction stays, is
  // looked up when it turns, and nothing is shown where there is no target.
  ghost predicate PreviewFollows(source: nat, offset: real, was: Option<Transition>, occupied: seq<bool>,
                                 skipEmpty: bool,
                                 becomes: Option<Transition>) {
    if offset == 0.0 && was.None? then becomes.None?
    else
      var direction := if offset < 0.0 then Nav.Next else if offset > 0.0 then Nav.Previous else was.value.direction;
      if was.Some? && was.value.source == source && was.value.direction == direction then
        becomes == Some(was.value.(offset := offset))
      else
        exists target: Option<nat> ::
          && Nav.IsTarget(occupied, source, direction, skipEmpty, target)
          && becomes == if target.None? || target.value >= Nav.MAX_WORKSPACES then None
                   else Some(Transition(source, target.value, direction, offset,
                                        target.value < |occupied| && occupied[target.value], None))
  }

  // What the first updates of a swipe show: nothing until the stroke goes mainly
  // sideways, then the neighbour it pulls in, the next one for a stroke to the
  // left, if there is one.
  ghost predicate Reveals(source: nat, r: Recognizer, delta: (real, real), width: real, occupied: seq<bool>,
                          skipEmpty: bool, becomes: Option<Transition>) {
    exists x, y ::
      && Travels(r.x, delta.0, width / 4.0, x) && Travels(r.y, delta.1, 1000000.0, y)
      && if Mainly(x, y) then Uncovers(source, x, occupied, skipEmpty, becomes) else becomes.None?
  }

  ghost predicate Uncovers(source: nat, x: real, occupied: seq<bool>, skipEmpty: bool, becomes: Option<Transition>) {
    var direction := if x < 0.0 then Nav.Next else Nav.Previous;
    exists target: Option<nat> ::
      && Nav.IsTarget(occupied, source, direction, skipEmpty, target)
      && (becomes.Some? <==> target.Some? && target.value < Nav.MAX_WORKSPACES)
      && (becomes.Some? ==>
            && becomes.value.source == source && becomes.value.target == target.value && becomes.value.settle.None?
            && becomes.value.direction == direction && becomes.value.offset == 4.0 * x)
  }

  lemma StrokeReveals(source: nat, r: Recognizer, delta: (real, real), width: real, occupied: seq<bool>,
                      skipEmpty: bool, becomes: Option<Transition>)
    requires r.axis.Pending? && width > 0.0
    requires PreviewFollows(source, Offset(Fed(r, delta.0, delta.1, width), width), None, occupied, skipEmpty, becomes)
    ensures Reveals(source, r, delta, width, occupied, skipEmpty, becomes)
  {
    var f := Fed(r, delta.0, delta.1, width);
    StrokeDecides(r, delta.0, delta.1, width);
    RecognizerPromises(r, delta.0, delta.1, width);
    if Mainly(f.x, f.y) {
      assert Offset(f, width) == 4.0 * f.x;
      assert Uncovers(source, f.x, occupied, skipEmpty, becomes);
    }
  }

  // The end of a committed swipe is one whole width away, of an abandoned one home.
  function SettleEnd(offset: real, width: real, commit: bool): real {
    if !commit then 0.0 else if offset < 0.0 then -width else width
  }

  datatype Event =
    | Began(device: nat, configured: bool)
    | Moved(device: nat, delta: Option<(real, real)>)
    | Ended(device: nat, cancelled: bool)
    | Removed(device: nat)
    | Maintained
    | Interrupted
    | PointerUsed
    | Switched(index: nat)
    | Ticked
    | Surrounded(s: Surroundings)
    | Populated(index: nat, contents: Workspace)
    | Pinned(indices: seq<nat>)

  // The swipes recorded after the first few lead, together with the switches
  // among the events, from one active workspace to another.
  ghost predicate Leads(events: seq<(Event, nat, bool)>, from: nat, to: nat, activations: seq<(nat, nat)>, known: nat) {
    if events == [] then from == to && |activations| == known
    else
      var last, rest := events[|events| - 1].0, events[..|events| - 1];
      if last.Switched? && last.index < Nav.MAX_WORKSPACES then
        to == last.index && exists via :: Leads(rest, from, via, activations, known)
      else
        || Leads(rest, from, to, activations, known)
        || (last.Ended? && !last.cancelled && |activations| > known && activations[|activations| - 1].1 == to
            && Leads(rest, from, activations[|activations| - 1].0, activations[..|activations| - 1], known))
  }

  lemma LeadsOn(events: seq<(Event, nat, bool)>, e: (Event, nat, bool), from: nat, via: nat, to: nat,
                was: seq<(nat, nat)>, now: seq<(nat, nat)>, known: nat)
    requires known <= |was| && Leads(events, from, via, was, known)
    requires var switched := e.0.Switched? && e.0.index < Nav.MAX_WORKSPACES;
             || (switched && now == was && to == e.0.index)
             || (!switched && now == was && to == via)
             || (e.0.Ended? && !e.0.cancelled && now == was + [(via, to)])
    ensures Leads(events + [e], from, to, now, known)
  {
    assert (events + [e])[..|events|] == events;
    assert now != was ==> now[..|now| - 1] == was;
  }

  // Who gets a new swipe: nobody while pointers are intercepted; the compositor if
  // it has a binding for it and nothing stands in the way; else the client.
  ghost predicate Assigned(owner: Owner, configured: bool, s: Surroundings) {
    && (owner.Discard? <==> s.intercepting)
    && (owner.Reserved? <==>
          configured && s.hostFocused && !s.intercepting && !s.grabbed && !s.overviewVisible && !s.suspended)
    && (owner.Reserved? ==> owner.recognizer == Recognizer(0.0, 0.0, Pending))
  }

  // A released preview goes on from where it is: a committed one to the side it is
  // on, by one whole width, any other back to zero.
  ghost predicate GoesOn(was: Transition, t: Transition, width: real, commit: bool, now: int) {
    && t == was.(settle := t.settle) && t.settle.Some?
    && t.settle.value.start == was.offset && t.settle.value.started == now && t.settle.value.duration == SETTLE
    && t.settle.value.goal == (if !commit then 0.0 else if was.offset < 0.0 then -width else width)
  }

  // Every workspace that something is pinned to, that moves, or that a preview shows, exists.
  ghost predicate InReach(ws: seq<Workspace>, pinned: seq<nat>, tracks: seq<Track>, transition: Option<Transition>) {
    && (forall h :: h in pinned ==> h < |ws|) && (forall t :: t in tracks ==> t.workspace < |ws|)
    && (transition.Some? ==> transition.value.source < |ws| && transition.value.target < |ws|)
  }

  lemma HeldReach(ws: seq<Workspace>, active: nat, pinned: seq<nat>, tracks: seq<Track>, transition: Option<Transition>)
    requires Nav.InRange(ws, active, HeldBy(pinned, tracks, transition))
    ensures InReach(ws, pinned, tracks, transition)
  {
    forall h | h in pinned ensures h < |ws| {
      assert h in HeldBy(pinned, tracks, transition);
    }
    forall t | t in tracks ensures t.workspace < |ws| {
      var i :| 0 <= i < |tracks| && tracks[i] == t;
      assert Workspaces(tracks)[i] in HeldBy(pinned, tracks, transition);
    }
    if transition.Some? {
      assert transition.value.source in Ends(transition) && transition.value.target in Ends(transition);
      assert transition.value.source in HeldBy(pinned, tracks, transition);
      assert transition.value.target in HeldBy(pinned, tracks, transition);
    }
  }

  // The tracks after a switch: those before it, or a fresh start from the workspace left.
  function Slid(tracks: seq<Track>, source: nat, index: nat, s: Surroundings, now: int): seq<Track> {
    if source == index || CannotMove(s) then tracks
    else Started(tracks, source, index, IncomingOffset(if index > source then Nav.Next else Nav.Previous, s.width), now)
  }

  // Workspaces move on a switch exactly when there is an output, focused and free:
  // a higher one comes in from the right of the one left, a lower one from the left.
  lemma SwitchSlides(tracks: seq<Track>, source: nat, index: nat, s: Surroundings, now: int)
    requires Sane(tracks, now) && source != index
    ensures var r := Slid(tracks, source, index, s, now);
            if s.width > 0 && s.hostFocused
               && !(s.headless || s.intercepting || s.grabbed || s.overviewVisible || s.overviewMapped || s.suspended)
            then ComesIn(tracks, r, source, index, if index > source then s.width as real else -(s.width as real), now)
            else r == tracks
  {
    StartSlides(tracks, source, index, if index > source then Nav.Next else Nav.Previous, s.width, now);
  }

  class Compositor {
    var workspaces: seq<Workspace>
    var active: nat
    var pinned: seq<nat>          // workspaces of child processes and unmanaged windows
    const predefined: nat
    var tracks: seq<Track>
    var timer: bool
    var stream: Option<Stream>
    var transition: Option<Transition>
    var transitionDevice: Option<nat>
    var around: Surroundings
    var clock: int                // latest instant seen
    ghost var trace: seq<ClientEvent>
    ghost var activations: seq<(nat, nat)>  // source and target of each swipe that switched

    predicate Settling()
      reads this`transition
    {
      transition.Some? && transition.value.settle.Some?
    }

    predicate Timed()
      reads this`tracks, this`transition
    {
      tracks != [] || Settling()
    }

    predicate IsReserved()
      reads this`stream
    {
      stream.Some? && stream.value.owner.Reserved?
    }

    // A preview belongs to the reserved stream that drew it.
    ghost predicate Previews()
      reads this`stream, this`transition, this`transitionDevice
    {
      && (IsReserved() && transition.Some? ==>
            transition.value.settle.None? && transition.value.source == stream.value.source
            && transitionDevice == Some(stream.value.device))
      && (transition.Some? && transition.value.settle.None? ==> IsReserved())
      && (transition.Some? && transition.value.settle.None? && transition.value.offset < 0.0 ==>
          transition.value.direction.Next?)
      && (transition.Some? && transition.value.settle.None? && transition.value.offset > 0.0 ==>
          transition.value.direction.Previous?)
    }

    ghost predicate Base()
      reads this
    {
      && Nav.InRange(workspaces, active, HeldBy(pinned, tracks, transition))
      && Sane(tracks, clock) && (IsReserved() ==> tracks == [] && stream.value.source == active)
      && PhaseOf(trace) == (if stream.Some? && stream.value.owner.Client? then Open else Closed)
    }

    ghost predicate Core()
      reads this
    {
      Base() && Previews()
    }

    // The shared timer runs exactly while something is in timed motion.
    ghost predicate Valid()
      reads this
    {
      Core() && (timer <==> Timed())
    }

    constructor (predefined: nat, around: Surroundings, clock: int)
      requires predefined < Nav.MAX_WORKSPACES
      ensures Valid() && trace == [] && activations == [] && stream.None? && active == 0
    {
      workspaces := Nav.Grown([], Max(predefined + 1, 2));
      active, pinned, tracks, timer, stream, transition, transitionDevice := 0, [], [], false, None, None, None;
      this.predefined := predefined;
      this.around := around;
      this.clock := clock;
      trace, activations := [], [];
    }

    // ----------------------------------------------------------------
    // Motion and its timer

    method TrimTail()
      requires Base()
      modifies this`workspaces
      ensures Base()
      ensures workspaces == Nav.Trimmed(old(workspaces), predefined, active, HeldBy(pinned, tracks, transition))
    {
      Nav.TrimKeepsUsed(workspaces, predefined, active, HeldBy(pinned, tracks, transition));
      workspaces := Nav.Trimmed(workspaces, predefined, active, HeldBy(pinned, tracks, transition));
    }

    // The same for callers that need no more than the tail in order.
    method TidyTail()
      requires Base()
      modifies this`workspaces
      ensures Base()
    {
      TrimTail();
    }

    method EnsureWorkspaceExists(index: nat) returns (ok: bool)
      requires Core()
      modifies this`workspaces
      ensures Core() && ok == (index < Nav.MAX_WORKSPACES)
      ensures workspaces == if ok then Nav.Grown(old(workspaces), index + 1) else old(workspaces)
    {
      if index + 1 > Nav.MAX_WORKSPACES {
        return false;
      }
      workspaces := Nav.Grown(workspaces, index + 1);
      ok := true;
    }

    method RetireMotionTimer()
      modifies this`timer
      ensures timer == (old(timer) && Timed())
    {
      if !Timed() && timer {
        timer := false;
      }
    }

    method StopSwipeVisual()
      requires Base()
      modifies this`transition, this`transitionDevice, this`workspaces, this`timer
      ensures Core() && transition.None? && timer == (old(timer) && tracks != [])
      ensures workspaces == if old(transition).None? then old(workspaces)
                            else Nav.Trimmed(old(workspaces), predefined, active, HeldBy(pinned, tracks, None))
    {
      transitionDevice := None;
      if transition.Some? {
        HeldLess(workspaces, active, pinned, tracks, transition, tracks);
        transition := None;
        TrimTail();
      }
      RetireMotionTimer();
    }

    method HidePreview()
      requires Base()
      modifies this`transition, this`transitionDevice, this`workspaces, this`timer
      ensures Core() && transition.None? && timer == (old(timer) && tracks != [])
      ensures old(transition).None? ==> workspaces == old(workspaces)
    {
      StopSwipeVisual();
    }

    method CancelWorkspaceMotion()
      requires Valid()
      modifies this`tracks, this`timer, this`workspaces
      ensures Valid() && tracks == []
      ensures workspaces == Nav.Trimmed(old(workspaces), predefined, active, HeldBy(pinned, [], transition))
    {
      if tracks != [] {
        HeldLess(workspaces, active, pinned, tracks, transition, []);
        tracks := [];
      }
      RetireMotionTimer();
      TrimTail();
    }

    method DropMotion()
      requires Valid()
      modifies this`tracks, this`timer, this`workspaces
      ensures Valid() && tracks == []
    {
      CancelWorkspaceMotion();
    }

    // Pointer buttons and scrolling end all timed motion at once.
    method FinishWorkspaceMotion()
      requires Valid()
      modifies this`tracks, this`timer, this`workspaces, this`transition, this`transitionDevice
      ensures Valid() && !timer && !Timed()
      ensures !old(Timed()) ==> transition == old(transition) && workspaces == old(workspaces)
      ensures old(Timed()) ==> transition.None?
      ensures old(Timed()) ==> workspaces == Nav.Trimmed(old(workspaces), predefined, active, HeldBy(pinned, [], None))
    {
      if Timed() {
        HeldLess(workspaces, active, pinned, tracks, transition, []);
        Nav.TrimAbsorbs(workspaces, predefined, active, HeldBy(pinned, [], transition), HeldBy(pinned, [], None));
        CancelWorkspaceMotion();
        StopSwipeVisual();
      }
    }

    // One timer for everything; if it cannot be registered nothing moves.
    method ScheduleMotionTick(registers: bool)
      requires Core() && (timer ==> Timed())
      modifies this`timer, this`tracks, this`transition, this`transitionDevice, this`workspaces
      ensures Valid()
      ensures registers || old(timer || !Timed()) ==>
                tracks == old(tracks) && transition == old(transition) && workspaces == old(workspaces)
      ensures !registers && old(!timer && Timed()) ==> tracks == [] && transition.None?
    {
      if timer || !Timed() {
        return;
      }
      if registers {
        timer := true;
      } else {
        HeldLess(workspaces, active, pinned, tracks, transition, []);
        tracks := [];
        HidePreview();
      }
    }

    method StartWorkspaceMotion(source: nat, target: nat, direction: Nav.Direction, now: int, registers: bool)
      requires Valid() && !IsReserved() && source != target && now >= clock
      requires source < |workspaces| && target < |workspaces|
      modifies this`tracks, this`timer, this`clock, this`transition, this`transitionDevice, this`workspaces
      ensures Valid() && clock <= now
      ensures old(transition).None? ==> transition.None?
      ensures CannotMove(around) ==> tracks == old(tracks)
      ensures !CannotMove(around) && registers ==>
                tracks == Started(old(tracks), source, target, IncomingOffset(direction, around.width), now)
      ensures |tracks| <= |workspaces|
    {
      if CannotMove(around) {
        FewTracks(tracks, clock, workspaces, active, pinned, transition);
        return;
      }
      var distance := IncomingOffset(direction, around.width);
      StartSane(tracks, source, target, distance, now);
      ghost var was := tracks;
      StartTracks(source, target, distance, now);
      clock := now;
      forall h | h in HeldBy(pinned, tracks, transition) ensures h < |workspaces| {
        assert h in Workspaces(tracks) && h != source && h != target ==> h in HeldBy(pinned, was, transition);
        assert h !in Workspaces(tracks) ==> h in HeldBy(pinned, was, transition);
      }
      ScheduleMotionTick(registers);
      FewTracks(tracks, clock, workspaces, active, pinned, transition);
    }

    // Push, turn around, and bring the target to the front.
    method StartTracks(source: nat, target: nat, distance: real, now: int)
      requires Sane(tracks, now)
      modifies this`tracks
      ensures tracks == Started(old(tracks), source, target, distance, now)
    {
      var from := RestingOffset(tracks, source, now);
      if TrackOf(tracks, source).None? {
        tracks := tracks + [Track(source, Tween(0.0, -distance, now, SETTLE))];
      }
      ghost var all := tracks;
      for i := 0 to |tracks|
        invariant |tracks| == |all|
        invariant forall k :: i <= k < |tracks| ==> tracks[k] == all[k]
        invariant forall k :: 0 <= k < i ==>
                    tracks[k] == if all[k].workspace == source
                                 then all[k].(offset := all[k].offset.Retargeted(-distance, now))
                                 else all[k]
      {
        if tracks[i].workspace == source {
          tracks := tracks[i := tracks[i].(offset := tracks[i].offset.Retargeted(-distance, now))];
        }
      }
      assert tracks == Departing(old(tracks), source, distance, now);
      var at := TrackOf(tracks, target);
      if at.Some? {
        var track := tracks[at.value].(offset := tracks[at.value].offset.Retargeted(0.0, now));
        tracks := [track] + tracks[..at.value] + tracks[at.value + 1..];
      } else {
        tracks := [Track(target, Tween(from + distance, 0.0, now, SETTLE))] + tracks;
      }
    }

    // ----------------------------------------------------------------
    // Cancelling swipes

    // Whether the periodic check cancels the swipe in the present surroundings.
    predicate MustCancel()
      reads this
    {
      || (around.skipEmpty && IsReserved() && transition.Some? && transition.value.targetWasOccupied
          && !(transition.value.target < |workspaces| && workspaces[transition.value.target].windows != []))
      || ((IsReserved() || transition.Some? || around.intercepting) && SwipeBlocked(around))
    }

    ghost function EndIfClient(): seq<ClientEvent>
      reads this`stream
    {
      if stream.Some? && stream.value.owner.Client? then [End] else []
    }

    // What cancelling leaves of a stream: it is remembered until its end, to keep
    // the rest of an interrupted gesture away from clients.
    ghost function Tombstone(): Option<Stream>
      reads this`stream
    {
      if stream.Some? then Some(stream.value.(owner := Discard)) else None
    }

    // A client stream is ended for the client; every stream leaves a tombstone.
    method CancelSwipe()
      requires Valid()
      modifies this`trace, this`stream, this`transition, this`transitionDevice, this`workspaces, this`timer
      ensures Valid() && transition.None?
      ensures old(transition).None? ==> workspaces == old(workspaces)
      ensures trace == old(trace) + old(EndIfClient())
      ensures stream == old(Tombstone())
    {
      DiscardStream();
      HidePreview();
    }

    method DiscardStream()
      requires Base()
      modifies this`trace, this`stream
      ensures Base()
      ensures trace == old(trace) + old(EndIfClient())
      ensures stream == old(Tombstone())
    {
      if stream.Some? && stream.value.owner.Client? {
        PhaseEnds(trace);
        trace := trace + [End];
      }
      if stream.Some? {
        stream := Some(stream.value.(owner := Discard));
      }
    }

    method MaintainSwipe()
      requires Valid()
      modifies this`trace, this`stream, this`transition, this`transitionDevice, this`workspaces, this`timer, this`tracks
      ensures Valid()
      ensures old(MustCancel()) ==>
                transition.None? && trace == old(trace) + old(EndIfClient())
                && stream == old(Tombstone())
      ensures !old(MustCancel()) ==> transition == old(transition) && trace == old(trace) && stream == old(stream)
      ensures !old(MustCancel()) && old(tracks) == [] ==> workspaces == old(workspaces)
      ensures MotionBlocked(around) ==> tracks == []
      ensures !MotionBlocked(around) ==> tracks == old(tracks)
      ensures around.intercepting || around.grabbed || around.overviewVisible || !around.hostFocused || around.suspended
              ==> !IsReserved() && transition.None? && tracks == []
      ensures around.overviewMapped ==> tracks == []
      ensures around.skipEmpty && IsReserved() && transition.Some? && transition.value.targetWasOccupied ==>
                transition.value.target < |workspaces| && workspaces[transition.value.target].windows != []
      ensures stream != old(stream) || transition != old(transition) ==>
                || around.intercepting || around.grabbed || around.overviewVisible || !around.hostFocused
                || around.suspended
                || (around.skipEmpty && old(IsReserved()) && old(transition).Some?
                    && old(transition).value.targetWasOccupied
                    && old(transition.value.target < |workspaces| ==>
                           workspaces[transition.value.target].windows == []))
    {
      // Motion tracks and a reserved stream never coexist, so trimming cannot
      // change whether the preview's target is still occupied.
      if tracks != [] && MotionBlocked(around) {
        DropMotion();
      }
      if MustCancel() {
        CancelSwipe();
      }
    }

    method SwipeDeviceRemoved(device: nat)
      requires Valid()
      modifies this`trace, this`stream, this`transition, this`transitionDevice, this`workspaces, this`timer
      ensures Valid()
      ensures (old(stream).Some? && old(stream).value.device == device) || old(transitionDevice) == Some(device) ==>
                stream.None? && transition.None? && trace == old(trace) + old(EndIfClient())
      ensures !((old(stream).Some? && old(stream).value.device == device) || old(transitionDevice) == Some(device)) ==>
                stream == old(stream) && transition == old(transition) && trace == old(trace)
    {
      if (stream.Some? && stream.value.device == device) || transitionDevice == Some(device) {
        CancelSwipe();
        stream := None;
      }
    }

    // ----------------------------------------------------------------
    // A swipe from begin to end

    predicate Owns(device: nat)
      reads this`stream
    {
      stream.Some? && stream.value.device == device
    }

    function NewOwner(configured: bool): Owner
      reads this`around
    {
      if around.intercepting then Discard
      else if configured && !SwipeBlocked(around) then Reserved(Recognizer(0.0, 0.0, Pending))
      else Client
    }

    lemma OwnerAssigned(configured: bool)
      ensures Assigned(NewOwner(configured), configured, around)
    {
    }

    // The first device to begin owns the stream until it ends or is removed.
    method SwipeBegin(device: nat, configured: bool)
      requires Valid()
      modifies this`trace, this`stream, this`transition, this`transitionDevice, this`workspaces, this`timer, this`tracks
      ensures Valid()
      ensures old(stream.Some? && !Owns(device)) ==>
                stream == old(stream) && transition == old(transition) && trace == old(trace) && tracks == old(tracks)
      ensures old(stream.None? || Owns(device)) ==>
                && transition.None? && stream == Some(Stream(device, active, NewOwner(configured)))
                && trace == old(trace) + old(EndIfClient()) + (if NewOwner(configured).Client? then [Begin] else [])
                && tracks == (if NewOwner(configured).Reserved? then [] else old(tracks))
      ensures old(stream.None? || Owns(device)) ==> Assigned(stream.value.owner, configured, around)
    {
      if stream.Some? && stream.value.device != device {
        return;
      }
      OwnerAssigned(configured);
      CancelSwipe();
      OpenStream(device, configured);
    }

    method OpenStream(device: nat, configured: bool)
      requires Valid() && transition.None? && !(stream.Some? && stream.value.owner.Client?)
      modifies this`trace, this`stream, this`workspaces, this`timer, this`tracks
      ensures Valid()
      ensures stream == Some(Stream(device, active, NewOwner(configured)))
      ensures trace == old(trace) + (if NewOwner(configured).Client? then [Begin] else [])
      ensures tracks == if NewOwner(configured).Reserved? then [] else old(tracks)
    {
      var owner := NewOwner(configured);
      if owner.Client? {
        OpenForClient(device);
        return;
      }
      if owner.Reserved? {
        DropMotion();
      }
      stream := Some(Stream(device, active, owner));
    }

    // The client sees the swipe begin.
    method OpenForClient(device: nat)
      requires Valid() && transition.None? && !(stream.Some? && stream.value.owner.Client?)
      modifies this`trace, this`stream
      ensures Valid() && stream == Some(Stream(device, active, Client)) && trace == old(trace) + [Begin]
    {
      PhaseBegins(trace);
      trace, stream := trace + [Begin], Some(Stream(device, active, Client));
    }

    function Next(delta: (real, real)): Recognizer
      requires IsReserved()
      reads this`stream, this`around
    {
      Fed(stream.value.owner.recognizer, delta.0, delta.1, around.width as real)
    }

    // A reserved swipe that has shown nothing yet.
    ghost predicate Undecided()
      reads this`stream, this`transition, this`around
    {
      IsReserved() && stream.value.owner.recognizer.axis.Pending? && transition.None? && around.width > 0
    }

    // Follows the owning device's fingers. A client's stream is passed on, a
    // reserved one only moves the preview, and nobody else's is heard.
    method SwipeUpdate(device: nat, delta: Option<(real, real)>)
      requires Valid()
      modifies this`trace, this`stream, this`transition, this`transitionDevice, this`workspaces, this`timer, this`tracks
      ensures Valid()
      ensures old(MustCancel()) ==>
                transition.None? && trace == old(trace) + old(EndIfClient()) && stream == old(Tombstone())
      ensures !old(MustCancel()) && (delta.None? || !old(Owns(device)) || old(stream).value.owner.Discard?) ==>
                transition == old(transition) && trace == old(trace) && stream == old(stream)
      ensures !old(MustCancel()) && delta.Some? && old(Owns(device)) && old(stream).value.owner.Client? ==>
                transition == old(transition) && trace == old(trace) + [Update] && stream == old(stream)
      ensures !old(MustCancel()) && delta.Some? && old(Owns(device)) && old(IsReserved()) ==>
                trace == old(trace) && stream == Some(old(stream).value.(owner := Reserved(old(Next(delta.value)))))
                && PreviewFollows(active, Offset(old(Next(delta.value)), around.width as real), old(transition),
                                  old(Occupied(workspaces)), around.skipEmpty, transition)
      ensures !old(MustCancel()) && delta.Some? && old(Owns(device)) && old(Undecided()) ==>
                Reveals(active, old(stream).value.owner.recognizer, delta.value, around.width as real,
                        old(Occupied(workspaces)), around.skipEmpty, transition)
    {
      ghost var first, shown := Undecided(), Occupied(workspaces);
      MaintainSwipe();
      if delta.None? || stream.None? || stream.value.device != device {
        return;
      }
      match stream.value.owner {
        case Client =>
          PhaseGoesOn(trace);
          trace := trace + [Update];
        case Reserved(recognizer) =>
          var fed := Fed(recognizer, delta.value.0, delta.value.1, around.width as real);
          stream := Some(stream.value.(owner := Reserved(fed)));
          MovePreview(device, Offset(fed, around.width as real));
          if first {
            StrokeReveals(active, recognizer, delta.value, around.width as real, shown, around.skipEmpty, transition);
          }
        case Discard =>
      }
    }

    method MovePreview(device: nat, offset: real)
      requires Valid() && IsReserved() && Owns(device)
      modifies this`transition, this`transitionDevice, this`workspaces, this`timer
      ensures Valid()
      ensures PreviewFollows(stream.value.source, offset, old(transition), old(Occupied(workspaces)), around.skipEmpty,
                             transition)
    {
      if offset == 0.0 && transition.None? {
        return;
      }
      var source := stream.value.source;
      var direction := if offset < 0.0 then Nav.Next else if offset > 0.0 then Nav.Previous
          else transition.value.direction;
      if transition.Some? && transition.value.source == source && transition.value.direction == direction {
        // The kept target exists: the preview refers to it.
        PreviewInRange();
        HeldEnds(workspaces, active, pinned, tracks, transition, transition.value.(offset := offset));
        transition := Some(transition.value.(offset := offset));
        return;
      }
      var target := Nav.Target(Occupied(workspaces), source, direction, around.skipEmpty);
      ShowPreview(device, source, target, direction, offset);
    }

    // A preview of a newly looked-up target, growing the workspaces if needed.
    method ShowPreview(device: nat, source: nat, target: Option<nat>, direction: Nav.Direction, offset: real)
      requires Valid() && IsReserved() && Owns(device) && source == stream.value.source
      requires (offset < 0.0 ==> direction.Next?) && (offset > 0.0 ==> direction.Previous?)
      modifies this`transition, this`transitionDevice, this`workspaces, this`timer
      ensures Valid()
      ensures transition == if target.None? || target.value >= Nav.MAX_WORKSPACES then None
                            else Some(Transition(source, target.value, direction, offset,
                                                 old(target.value < |workspaces|
                                                     && workspaces[target.value].windows != []), None))
    {
      var occupied := target.Some? && target.value < |workspaces| && workspaces[target.value].windows != [];
      var ok := target.Some?;
      if ok {
        ok := EnsureWorkspaceExists(target.value);
      }
      if !ok {
        HidePreview();
        return;
      }
      var preview := Transition(source, target.value, direction, offset, occupied, None);
      HeldEnds(workspaces, active, pinned, tracks, transition, preview);
      transitionDevice := Some(device);
      transition := Some(preview);
    }

    // Ending a client's stream ends it for the client. Ending a reserved one
    // leaves its preview, if any, settling: on its target, now active, when the
    // release commits; back home otherwise.
    method SwipeEnd(device: nat, cancelled: bool, now: int, registers: bool)
      requires Valid() && now >= clock
      modifies this`trace, this`stream, this`transition, this`transitionDevice, this`workspaces, this`timer,
               this`tracks,
               this`active, this`activations
      ensures Valid()
      ensures old(MustCancel()) ==>
                && transition.None? && trace == old(trace) + old(EndIfClient())
                && stream == (if old(Owns(device)) then None else old(Tombstone()))
      ensures !old(MustCancel()) && !old(Owns(device)) ==>
                stream == old(stream) && transition == old(transition) && trace == old(trace)
      ensures !old(MustCancel()) && old(Owns(device)) ==>
                stream.None? && trace == old(trace) + old(EndIfClient())
      ensures !old(MustCancel()) && old(Owns(device)) && !old(IsReserved()) ==> transition == old(transition)
      ensures !old(MustCancel()) && old(Owns(device)) && old(IsReserved()) ==>
                transition == if registers && old(transition).Some?
                              then Some(old(Settled(now, Activates(device, cancelled)))) else None
      ensures !old(MustCancel()) && old(Owns(device)) && old(IsReserved()) && registers && old(transition).Some? ==>
                GoesOn(old(transition).value, transition.value, around.width as real,
                       old(Activates(device, cancelled)), now)
      ensures activations == old(activations) +
                if old(Activates(device, cancelled)) then [(old(active), old(transition).value.target)] else []
      ensures active == if old(Activates(device, cancelled)) then old(transition).value.target else old(active)
    {
      MaintainSwipe();
      if stream.Some? && stream.value.device == device {
        CloseStream(cancelled, now, registers);
      }
    }

    method CloseStream(cancelled: bool, now: int, registers: bool)
      requires Valid() && stream.Some? && now >= clock
      modifies this`trace, this`stream, this`transition, this`transitionDevice, this`workspaces, this`timer,
               this`tracks,
               this`active, this`activations
      ensures Valid() && stream.None? && trace == old(trace) + old(EndIfClient())
      ensures !old(IsReserved()) ==> transition == old(transition)
      ensures old(IsReserved()) ==>
                transition == if registers && old(transition).Some? then Some(old(Settled(now, Commit(cancelled))))
                    else None
      ensures activations == old(activations) +
                if old(Commit(cancelled)) then [(old(active), old(transition).value.target)] else []
      ensures active == if old(Commit(cancelled)) then old(transition).value.target else old(active)
    {
      match stream.value.owner {
        case Client =>
          PhaseEnds(trace);
          trace := trace + [End];
          stream := None;
        case Reserved(recognizer) =>
          if transition.None? {
            stream := None;
          } else {
            Release(recognizer, cancelled, now, registers);
          }
        case Discard =>
          stream := None;
      }
    }

    // Whether releasing the present stream switches to its previewed target.
    predicate Commit(cancelled: bool)
      reads this`stream, this`transition, this`around
    {
      IsReserved() && transition.Some? && Commits(stream.value.owner.recognizer, around.width as real, cancelled)
    }

    // An uncancelled release far enough out, of the device that draws the preview.
    predicate Activates(device: nat, cancelled: bool)
      reads this
    {
      !MustCancel() && Owns(device) && Commit(cancelled)
    }

    function Settled(now: int, commit: bool): Transition
      requires transition.Some?
      reads this`transition, this`around
    {
      var t := transition.value;
      t.(settle := Some(Tween(t.offset, SettleEnd(t.offset, around.width as real, commit), now, SETTLE)))
    }

    method Release(recognizer: Recognizer, cancelled: bool, now: int, registers: bool)
      requires Valid() && IsReserved() && transition.Some? && recognizer == stream.value.owner.recognizer
      modifies this`trace, this`stream, this`transition, this`transitionDevice, this`workspaces, this`timer,
               this`tracks,
               this`active, this`activations
      ensures Valid() && stream.None? && trace == old(trace)
      ensures var commit := Commits(recognizer, around.width as real, cancelled);
              && active == (if commit then old(transition).value.target else old(active))
              && activations == old(activations) + (if commit then [(old(active), active)] else [])
              && transition == if registers then Some(old(Settled(now, commit))) else None
    {
      var preview := transition.value;
      var device := stream.value.device;
      HeldLess(workspaces, active, pinned, tracks, transition, tracks);
      PreviewInRange();
      var commit := Commits(recognizer, around.width as real, cancelled);
      stream, transition := None, None;
      if commit {
        Activate(preview.target);
      }
      SettlePreview(device, preview, commit, now, registers);
    }

    lemma PreviewInRange()
      requires Core() && transition.Some?
      ensures transition.value.source < |workspaces| && transition.value.target < |workspaces|
    {
      assert transition.value.source in Ends(transition) && transition.value.target in Ends(transition);
      assert transition.value.source in HeldBy(pinned, tracks, transition);
      assert transition.value.target in HeldBy(pinned, tracks, transition);
    }

    method Activate(target: nat)
      requires Valid() && stream.None? && transition.None? && target < |workspaces|
      modifies this`trace, this`stream, this`transition, this`transitionDevice, this`workspaces, this`timer,
               this`active,
               this`activations
      ensures Valid() && stream.None? && transition.None? && trace == old(trace)
      ensures active == target && workspaces == old(workspaces)
      ensures activations == old(activations) + [(old(active), target)]
    {
      activations := activations + [(active, target)];
      SwitchWorkspaceImmediate(target);
    }

    method SettlePreview(device: nat, preview: Transition, commit: bool, now: int, registers: bool)
      requires Valid() && stream.None? && transition.None? && tracks == []
      requires preview.source < |workspaces| && preview.target < |workspaces|
      modifies this`tracks, this`transition, this`transitionDevice, this`workspaces, this`timer
      ensures Valid()
      ensures transition == if registers then
                              Some(preview.(settle := Some(Tween(preview.offset,
                                                                 SettleEnd(preview.offset, around.width as real,
                                                                     commit),
                                                                 now, SETTLE))))
                            else None
    {
      var end := SettleEnd(preview.offset, around.width as real, commit);
      var settling := preview.(settle := Some(Tween(preview.offset, end, now, SETTLE)));
      assert Nav.InRange(workspaces, active, HeldBy(pinned, tracks, Some(settling))) by {
        HeldEnds(workspaces, active, pinned, tracks, None, settling);
      }
      transitionDevice := Some(device);
      transition := Some(settling);
      assert Base();
      TidyTail();
      assert Core() && !timer && Timed();
      ScheduleMotionTick(registers);
    }

    // ----------------------------------------------------------------
    // Switching and ticking

    method SwitchWorkspaceImmediate(index: nat)
      requires Valid()
      modifies this`trace, this`stream, this`transition, this`transitionDevice, this`workspaces, this`timer, this`active
      ensures Valid() && transition.None?
      ensures trace == old(trace) + old(EndIfClient()) && stream == old(Tombstone())
      ensures active == if index < Nav.MAX_WORKSPACES then index else old(active)
      ensures old(transition).None? && index < |old(workspaces)| ==> workspaces == old(workspaces)
      ensures old(active) < |workspaces|
    {
      CancelSwipe();
      var ok := EnsureWorkspaceExists(index);
      if ok {
        active := index;
      }
    }

    ghost function Sliding(source: nat, index: nat, now: int): seq<Track>
      reads this`tracks, this`around
    {
      Slid(tracks, source, index, around, now)
    }

    method SwitchWorkspace(index: nat, now: int, registers: bool)
      requires Valid() && now >= clock
      modifies this`trace, this`stream, this`transition, this`transitionDevice, this`workspaces, this`timer,
               this`active,
               this`tracks, this`clock
      ensures Valid() && clock <= now
      ensures index >= Nav.MAX_WORKSPACES ==>
                active == old(active) && stream == old(stream) && transition == old(transition) && tracks == old(tracks)
      ensures index < Nav.MAX_WORKSPACES ==> active == index && transition.None? && stream == old(Tombstone())
      ensures trace == old(trace) + if index < Nav.MAX_WORKSPACES then old(EndIfClient()) else []
      ensures index < Nav.MAX_WORKSPACES && registers ==> tracks == old(Sliding(active, index, now))
    {
      var ok := EnsureWorkspaceExists(index);
      if !ok {
        return;
      }
      var source := active;
      SwitchWorkspaceImmediate(index);
      Slide(source, index, now, registers);
    }

    method Slide(source: nat, index: nat, now: int, registers: bool)
      requires Valid() && !IsReserved() && transition.None? && now >= clock
      requires source < |workspaces| && index < |workspaces|
      modifies this`tracks, this`timer, this`clock, this`transition, this`transitionDevice, this`workspaces
      ensures Valid() && transition.None? && clock <= now
      ensures registers ==> tracks == old(Sliding(source, index, now))
    {
      if source != index {
        var direction := if index > source then Nav.Next else Nav.Previous;
        StartWorkspaceMotion(source, index, direction, now, registers);
      }
      TidyTail();
    }

    method AdvanceSwipeSettle(now: int) returns (moved: bool)
      requires Core()
      modifies this`transition, this`transitionDevice, this`workspaces
      ensures Core() && moved == old(Settling())
      ensures !moved ==> transition == old(transition)
      ensures moved ==>
                var sample := old(transition).value.settle.value.At(now);
                transition == if sample.finished then None else Some(old(transition).value.(offset := sample.value))
    {
      if transition.None? || transition.value.settle.None? {
        return false;
      }
      moved := true;
      var sample := transition.value.settle.value.At(now);
      HeldLess(workspaces, active, pinned, tracks, transition, tracks);
      if sample.finished {
        transition, transitionDevice := None, None;
        TidyTail();
      } else {
        transition := Some(transition.value.(offset := sample.value));
      }
    }

    method MoveSettle(now: int)
      requires Core()
      modifies this`transition, this`transitionDevice, this`workspaces
      ensures Core() && (Settling() <==> old(Settling() && !transition.value.settle.value.Over(now)))
    {
      var _ := AdvanceSwipeSettle(now);
    }

    // The timer's callback. It keeps the timer exactly while something still moves.
    method Tick(now: int)
      requires Valid() && timer && now >= clock
      modifies this`transition, this`transitionDevice, this`workspaces, this`tracks, this`timer, this`clock
      ensures Valid() && clock == now
      ensures tracks == Advanced(old(tracks), active, now)
      ensures ((forall i :: 0 <= i < |old(tracks)| ==> old(tracks)[i].offset.started + SETTLE <= now)
               && (old(Settling()) ==> old(transition).value.settle.value.Over(now))) ==> !timer
    {
      AdvanceTracks(now);
      TickOn(now);
    }

    // The timer goes on while something moves, else the tail is trimmed.
    method TickOn(now: int)
      requires Core() && timer
      modifies this`transition, this`transitionDevice, this`workspaces, this`timer
      ensures Valid()
      ensures tracks == [] && (old(Settling()) ==> old(transition).value.settle.value.Over(now)) ==> !timer
    {
      MoveSettle(now);
      if !Timed() {
        timer := false;
        TidyTail();
      }
    }

    method AdvanceTracks(now: int)
      requires Core() && now >= clock
      modifies this`tracks, this`clock
      ensures Core() && clock == now && tracks == Advanced(old(tracks), active, now)
      ensures (forall i :: 0 <= i < |old(tracks)| ==> old(tracks)[i].offset.started + SETTLE <= now) ==> tracks == []
    {
      AdvanceEmpties(tracks, active, now);
      HeldLess(workspaces, active, pinned, tracks, transition, Advanced(tracks, active, now));
      tracks, clock := Advanced(tracks, active, now), now;
    }

    // ----------------------------------------------------------------
    // The rest of the desktop, and whole runs

    // Other operations change what a workspace holds.
    method Populate(index: nat, contents: Workspace)
      requires Valid()
      modifies this`workspaces
      ensures Valid()
    {
      if index < |workspaces| {
        workspaces := workspaces[index := contents];
      }
    }

    // Child processes and unmanaged windows are tied to existing workspaces.
    method Pin(indices: seq<nat>)
      requires Valid()
      modifies this`pinned
      ensures Valid()
    {
      if forall h :: h in indices ==> h < |workspaces| {
        forall h | h in HeldBy(indices, tracks, transition) ensures h < |workspaces| {
          assert h !in indices ==> h in HeldBy(pinned, tracks, transition);
        }
        pinned := indices;
      }
    }

    method Interrupt()
      requires Valid()
      modifies this`trace, this`stream, this`transition, this`transitionDevice, this`workspaces, this`timer, this`tracks
      ensures Valid() && !timer && !Timed() && transition.None?
      ensures trace == old(trace) + old(EndIfClient()) && stream == old(Tombstone())
    {
      CancelSwipe();
      DropMotion();
    }


    method Handle(event: Event, now: int, registers: bool)
      requires Valid() && now >= clock
      modifies this
      ensures Valid() && clock <= now
      ensures var swiped := event.Ended? && old(Activates(event.device, event.cancelled));
              && activations == old(activations) + (if swiped then [(old(active), active)] else [])
              && active == if event.Switched? && event.index < Nav.MAX_WORKSPACES then event.index
                           else if swiped then old(transition).value.target else old(active)
      ensures old(IsReserved()) && !event.Began? ==> trace == old(trace)
    {
      match event {
        case Ended(device, cancelled) => SwipeEnd(device, cancelled, now, registers);
        case Switched(index) => SwitchWorkspace(index, now, registers);
        case _ => Attend(event, now);
      }
    }

    // Events that leave the active workspace alone.
    method Attend(event: Event, now: int)
      requires Valid() && now >= clock && !event.Ended? && !event.Switched?
      modifies this
      ensures Valid() && clock <= now && activations == old(activations) && active == old(active)
      ensures old(IsReserved()) && !event.Began? ==> trace == old(trace)
    {
      match event {
        case Began(device, configured) => SwipeBegin(device, configured);
        case Moved(device, delta) => SwipeUpdate(device, delta);
        case Removed(device) => SwipeDeviceRemoved(device);
        case Maintained => MaintainSwipe();
        case Interrupted => Interrupt();
        case PointerUsed => FinishWorkspaceMotion();
        case Ticked => if timer { Tick(now); }
        case Surrounded(s) => around := s;
        case Populated(index, contents) => Populate(index, contents);
        case Pinned(indices) => Pin(indices);
      }
    }

    // Over every interleaving, the timer runs exactly while something is in
    // timed motion, and the client sees whole swipes and at most one unfinished.
    // Workspaces change by switches and by at most one committed swipe for each
    // release, each of which starts on the workspace the last change led to.
    method Replay(events: seq<(Event, nat, bool)>)
      requires Valid()
      modifies this
      ensures timer <==> Timed()
      ensures active < |workspaces| && InReach(workspaces, pinned, tracks, transition)
      ensures Sessions(trace) || exists k :: 0 <= k && k + 1 <= |trace| && Ongoing(trace, k)
      ensures Leads(events, old(active), active, activations, |old(activations)|)
    {
      ghost var from, known := active, |activations|;
      for i := 0 to |events|
        invariant Valid() && known <= |activations| && activations[..known] == old(activations)
        invariant Leads(events[..i], from, active, activations, known)
      {
        ghost var was, had := activations, active;
        Handle(events[i].0, clock + events[i].1, events[i].2);
        assert events[..i + 1] == events[..i] + [events[i]] && activations[..|was|] == was;
        LeadsOn(events[..i], events[i], from, had, active, was, activations, known);
      }
      assert events[..|events|] == events;
      PhaseShape(trace);
      HeldReach(workspaces, active, pinned, tracks, transition);
    }
  }
}
