// Timed presentation offsets: eased tweens and the tracks of moving workspaces.
module Motion {
  import opened Common
  import Nav = Navigation

  // Nanoseconds.
  const SETTLE: nat := 160000000

  datatype Sample = Sample(value: real, finished: bool)

  datatype Tween = Tween(start: real, goal: real, started: int, duration: nat) {
    // The goal is reached, or the time is up.
    predicate Over(now: int) {
      start == goal || Max(now - started, 0) >= duration
    }

    // Cubic ease-out over the elapsed time, never before the start.
    function At(now: int): Sample
    {
      if Over(now) then Sample(goal, true)
      else
        var left := 1.0 - Max(now - started, 0) as real / duration as real;
        Sample(start + (goal - start) * (1.0 - left * left * left), false)
    }

    // A new goal restarts the easing from the current position; a repeated one does not.
    function Retargeted(newGoal: real, now: int): Tween
    {
      if newGoal == goal then this else Tween(At(now).value, newGoal, now, duration)
    }
  }

  // Position is continuous across a retarget, for any positive duration; only a
  // new goal starts the easing over.
  lemma RetargetKeepsPosition(t: Tween, goal: real, now: int)
    requires t.duration > 0
    ensures var r := t.Retargeted(goal, now);
            && r.At(now).value == t.At(now).value && r.goal == goal && r.duration == t.duration
            && (if goal == t.goal then r == t else r.started == now)
  {
    var r := t.Retargeted(goal, now);
    if goal != t.goal && r.start != r.goal {
      assert 0 as real / t.duration as real == 0.0;
    }
  }

  // The part of the way left, cubed.
  function Left(t: Tween, now: int): real
    requires 0 <= now - t.started < t.duration
  {
    var left := 1.0 - (now - t.started) as real / t.duration as real;
    left * left * left
  }

  lemma LeftShrinks(t: Tween, a: int, b: int)
    requires t.started <= a <= b < t.started + t.duration
    ensures 0.0 <= Left(t, b) <= Left(t, a) <= 1.0
  {
    var d := t.duration as real;
    var p, q := (a - t.started) as real / d, (b - t.started) as real / d;
    assert 0.0 <= p <= q < 1.0 by {
      assert p * d == (a - t.started) as real && q * d == (b - t.started) as real;
    }
    Cubes(1.0 - q, 1.0 - p);
    Cubes(1.0 - p, 1.0);
  }

  lemma RealMono(a: real, b: real, k: real)
    requires 0.0 <= a <= b && 0.0 <= k
    ensures 0.0 <= a * k <= b * k && k * a <= k * b
  {
  }

  lemma Cubes(x: real, y: real)
    requires 0.0 <= x <= y
    ensures 0.0 <= x * x * x <= y * y * y
  {
    var a, b := x * x, y * y;
    Squares(x, y);
    RealMono(a, b, x);
    RealMono(x, y, b);
    assert a * x <= b * y;
    assert x * x * x == a * x && y * y * y == b * y;
  }

  lemma Squares(x: real, y: real)
    requires 0.0 <= x <= y
    ensures 0.0 <= x * x <= y * y
  {
    RealMono(x, y, x);
    RealMono(x, y, y);
    assert y * x == x * y;
  }

  // The share of the way still to go; none once settled.
  function Remaining(t: Tween, now: int): real {
    if t.start == t.goal || Max(now - t.started, 0) >= t.duration then 0.0
    else if now <= t.started then 1.0
    else Left(t, now)
  }

  function ToGo(t: Tween, now: int): real { (t.goal - t.start) * Remaining(t, now) }

  lemma AtRemaining(t: Tween, now: int)
    ensures t.At(now).value == t.goal - ToGo(t, now)
  {
    var way := t.goal - t.start;
    if t.start != t.goal && Max(now - t.started, 0) < t.duration {
      if now <= t.started {
        assert 0 as real / t.duration as real == 0.0;
      } else {
        assert t.start + way * (1.0 - Left(t, now)) == t.goal - way * Left(t, now);
      }
    }
  }

  lemma RemainingShrinks(t: Tween, a: int, b: int)
    requires a <= b
    ensures 0.0 <= Remaining(t, b) <= Remaining(t, a) <= 1.0
  {
    if t.start != t.goal && t.started < b && b - t.started < t.duration {
      LeftShrinks(t, Max(a, t.started), b);
    }
    if t.start != t.goal && t.started < a && a - t.started < t.duration {
      LeftShrinks(t, a, a);
    }
  }

  // Motion never turns back or overshoots: later samples lie between earlier ones and the goal.
  lemma TweenApproaches(t: Tween, a: int, b: int)
    requires a <= b
    ensures var x, y := t.At(a).value, t.At(b).value;
            (x <= y <= t.goal) || (t.goal <= y <= x)
  {
    AtRemaining(t, a);
    AtRemaining(t, b);
    RemainingShrinks(t, a, b);
    Approach(t.goal - t.start, Remaining(t, a), Remaining(t, b), ToGo(t, a), ToGo(t, b));
  }

  lemma Approach(way: real, u: real, v: real, first: real, second: real)
    requires 0.0 <= v <= u && first == way * u && second == way * v
    ensures 0.0 <= second <= first || first <= second <= 0.0
  {
    if way >= 0.0 {
      RealMono(v, u, way);
    } else {
      RealMono(v, u, -way);
    }
  }

  // The share of the way left is the cube of the share of time left.
  lemma EasesOut(t: Tween, now: int)
    requires 0 <= now - t.started < t.duration
    ensures var d, left := t.duration as real, (t.duration - (now - t.started)) as real;
            && (t.goal - t.At(now).value) * (d * d * d) == (t.goal - t.start) * (left * left * left)
            && (t.At(now).finished <==> t.start == t.goal)
  {
    AtRemaining(t, now);
    if t.start != t.goal {
      var d, left := t.duration as real, (t.duration - (now - t.started)) as real;
      var share := 1.0 - (now - t.started) as real / d;
      assert share * d == left by { Rest(now - t.started, t.duration); }
      var way := t.goal - t.start;
      assert Remaining(t, now) == share * share * share by {
        assert now == t.started ==> (now - t.started) as real / d == 0.0;
      }
      CubeScaled(share, d, left);
      Regroup(way, share * share * share, d * d * d, left * left * left);
    }
  }

  lemma Rest(elapsed: nat, duration: nat)
    requires elapsed < duration
    ensures (1.0 - elapsed as real / duration as real) * duration as real == (duration - elapsed) as real
  {
    var d, e := duration as real, elapsed as real;
    assert e / d * d == e;
    assert (1.0 - e / d) * d == d - e / d * d;
  }

  lemma CubeScaled(share: real, d: real, left: real)
    requires share * d == left
    ensures share * share * share * (d * d * d) == left * left * left
  {
    assert share * share * share * (d * d * d) == (share * d) * ((share * d) * (share * d));
  }

  lemma Regroup(way: real, share: real, whole: real, left: real)
    requires share * whole == left
    ensures way * share * whole == way * left
  {
    assert way * share * whole == way * (share * whole);
  }

  // ------------------------------------------------------------------
  // Tracks

  datatype Track = Track(workspace: nat, offset: Tween)

  function Workspaces(tracks: seq<Track>): (r: seq<nat>)
    ensures |r| == |tracks| && forall i :: 0 <= i < |r| ==> r[i] == tracks[i].workspace
  {
    seq(|tracks|, i requires 0 <= i < |tracks| => tracks[i].workspace)
  }

  // One track per workspace, each easing over the settle time since some past instant.
  ghost predicate Sane(tracks: seq<Track>, now: int) {
    && (forall i, j :: 0 <= i < j < |tracks| ==> tracks[i].workspace != tracks[j].workspace)
    && (forall i :: 0 <= i < |tracks| ==> tracks[i].offset.duration == SETTLE && tracks[i].offset.started <= now)
  }

  function TrackOf(tracks: seq<Track>, workspace: nat): (r: Option<nat>)
    ensures r.Some? ==> r.value < |tracks| && tracks[r.value].workspace == workspace
    ensures r.None? ==> forall i :: 0 <= i < |tracks| ==> tracks[i].workspace != workspace
  {
    if tracks == [] then None
    else if tracks[0].workspace == workspace then Some(0)
    else
      match TrackOf(tracks[1..], workspace)
      case Some(k) => Some(k + 1)
      case None => None
  }

  function IncomingOffset(direction: Nav.Direction, width: int): real {
    if direction.Next? then width as real else -(width as real)
  }

  function Departing(tracks: seq<Track>, source: nat, distance: real, now: int): (r: seq<Track>)
    ensures |r| >= |tracks|
  {
    var all := if TrackOf(tracks, source).Some? then tracks
               else tracks + [Track(source, Tween(0.0, -distance, now, SETTLE))];
    seq(|all|, i requires 0 <= i < |all| =>
          if all[i].workspace == source then all[i].(offset := all[i].offset.Retargeted(-distance, now)) else all[i])
  }

  // A workspace without a track rests at zero.
  function RestingOffset(tracks: seq<Track>, workspace: nat, now: int): real {
    match TrackOf(tracks, workspace)
    case Some(k) => tracks[k].offset.At(now).value
    case None => 0.0
  }

  // The source departs, the target arrives in front from its own or the adjacent position.
  function Started(tracks: seq<Track>, source: nat, target: nat, distance: real, now: int): seq<Track> {
    var next := Tween(RestingOffset(tracks, source, now) + distance, 0.0, now, SETTLE);
    Arrived(Departing(tracks, source, distance, now), target, next, now)
  }

  // The tracks before the target arrives: the source is turned around or added at rest.
  ghost predicate LeavesFrom(tracks: seq<Track>, leaving: seq<Track>, source: nat, distance: real, now: int) {
    && Sane(leaving, now) && |tracks| <= |leaving| <= |tracks| + 1
    && (forall i :: 0 <= i < |tracks| ==> leaving[i].workspace == tracks[i].workspace)
    && (forall i :: 0 <= i < |tracks| && tracks[i].workspace != source ==> leaving[i] == tracks[i])
    && (forall i :: 0 <= i < |leaving| && leaving[i].workspace == source ==> leaving[i].offset.goal == -distance)
    && (|leaving| > |tracks| ==> leaving[|tracks|].workspace == source)
    && (exists i :: 0 <= i < |leaving| && leaving[i].workspace == source)
  }

  lemma DepartingShape(tracks: seq<Track>, source: nat, distance: real, now: int)
    requires Sane(tracks, now)
    ensures LeavesFrom(tracks, Departing(tracks, source, distance, now), source, distance, now)
    ensures TrackOf(tracks, source).None? ==>
              Departing(tracks, source, distance, now) == tracks + [Track(source, Tween(0.0, -distance, now, SETTLE))]
  {
    var r := Departing(tracks, source, distance, now);
    var added := Track(source, Tween(0.0, -distance, now, SETTLE));
    var all := if TrackOf(tracks, source).Some? then tracks else tracks + [added];
    assert Sane(all, now);
    forall i | 0 <= i < |all|
      ensures r[i].workspace == all[i].workspace && r[i].offset.duration == SETTLE && r[i].offset.started <= now
      ensures r[i].workspace == source ==> r[i].offset.goal == -distance
      ensures r[i].workspace != source ==> r[i] == all[i]
      ensures all[i] == added ==> r[i] == added
    {
      var _ := all[i].offset.Retargeted(-distance, now);
    }
    var at := TrackOf(tracks, source);
    assert r[if at.Some? then at.value else |tracks|].workspace == source;
    if at.None? {
      assert r == tracks + [added];
    }
  }

  lemma DepartingPosition(tracks: seq<Track>, source: nat, distance: real, now: int, i: nat)
    requires Sane(tracks, now) && i < |tracks|
    ensures |Departing(tracks, source, distance, now)| > i
    ensures Departing(tracks, source, distance, now)[i].offset.At(now).value == tracks[i].offset.At(now).value
  {
    RetargetKeepsPosition(tracks[i].offset, -distance, now);
  }

  lemma SplitAround(s: seq<Track>, k: nat, t: Track)
    requires k < |s|
    requires forall i, j :: 0 <= i < j < |s| ==> s[i].workspace != s[j].workspace
    ensures t in s[..k] + s[k + 1..] <==> t in s && t.workspace != s[k].workspace
  {
    if t in s && t.workspace != s[k].workspace {
      var i :| 0 <= i < |s| && s[i] == t;
      if i < k {
        assert s[..k][i] == t;
      } else {
        assert s[k + 1..][i - k - 1] == t;
      }
    }
  }

  // The target's track in front, the others behind it.
  function Arrived(leaving: seq<Track>, target: nat, next: Tween, now: int): seq<Track> {
    match TrackOf(leaving, target)
    case Some(k) => [leaving[k].(offset := leaving[k].offset.Retargeted(0.0, now))] + leaving[..k] + leaving[k + 1..]
    case None => [Track(target, next)] + leaving
  }

  lemma ArrivedShape(leaving: seq<Track>, target: nat, next: Tween, now: int)
    requires Sane(leaving, now) && next.duration == SETTLE && next.started <= now && next.goal == 0.0
    ensures var r := Arrived(leaving, target, next, now);
            && Sane(r, now) && r[0].workspace == target && r[0].offset.goal == 0.0
            && (forall t :: t in r[1..] <==> t in leaving && t.workspace != target)
  {
    var r := Arrived(leaving, target, next, now);
    match TrackOf(leaving, target) {
      case Some(k) =>
        var front, rest := leaving[k].(offset := leaving[k].offset.Retargeted(0.0, now)),
            leaving[..k] + leaving[k + 1..];
        assert r == [front] + rest && r[1..] == rest;
        RestOthers(leaving, k, target);
        assert Sane(rest, now) by { RestSane(leaving, k, now); }
        SaneFront(front, rest, now);
      case None =>
        assert r[1..] == leaving;
        SaneFront(Track(target, next), leaving, now);
    }
  }

  lemma RestSane(tracks: seq<Track>, k: nat, now: int)
    requires Sane(tracks, now) && k < |tracks|
    ensures Sane(tracks[..k] + tracks[k + 1..], now)
  {
    var rest := tracks[..k] + tracks[k + 1..];
    assert forall i :: 0 <= i < |rest| ==> rest[i] == tracks[if i < k then i else i + 1];
  }

  lemma SaneFront(front: Track, rest: seq<Track>, now: int)
    requires Sane(rest, now) && front.offset.duration == SETTLE && front.offset.started <= now
    requires forall i :: 0 <= i < |rest| ==> rest[i].workspace != front.workspace
    ensures Sane([front] + rest, now)
  {
  }

  lemma RestOthers(tracks: seq<Track>, k: nat, target: nat)
    requires k < |tracks| && tracks[k].workspace == target
    requires forall i, j :: 0 <= i < j < |tracks| ==> tracks[i].workspace != tracks[j].workspace
    ensures forall t :: t in tracks[..k] + tracks[k + 1..] <==> t in tracks && t.workspace != target
  {
    forall t ensures t in tracks[..k] + tracks[k + 1..] <==> t in tracks && t.workspace != target {
      SplitAround(tracks, k, t);
    }
  }

  ghost predicate ZeroGoal(tracks: seq<Track>, workspace: nat) {
    exists i :: 0 <= i < |tracks| && tracks[i].workspace == workspace && tracks[i].offset.goal == 0.0
  }

  // Where a workspace is shown.
  ghost function OffsetOf(tracks: seq<Track>, workspace: nat, now: int): Option<real> {
    match TrackOf(tracks, workspace)
    case Some(k) => Some(tracks[k].offset.At(now).value)
    case None => None
  }

  lemma TrackAt(tracks: seq<Track>, i: nat, now: int)
    requires Sane(tracks, now) && i < |tracks|
    ensures TrackOf(tracks, tracks[i].workspace) == Some(i)
  {
  }

  // Starting keeps every shown workspace where it is at that instant, shows the
  // source where it was (or at rest) and the target where it was (or next to the source).
  lemma StartKeepsPositions(tracks: seq<Track>, source: nat, target: nat, distance: real, now: int, workspace: nat)
    requires Sane(tracks, now) && source != target
    ensures OffsetOf(Started(tracks, source, target, distance, now), workspace, now) ==
              if OffsetOf(tracks, workspace, now).Some? then OffsetOf(tracks, workspace, now)
              else if workspace == source then Some(0.0)
              else if workspace == target then Some(RestingOffset(tracks, source, now) + distance)
              else None
  {
    var leaving := Departing(tracks, source, distance, now);
    DepartingShape(tracks, source, distance, now);
    LeavingOffset(tracks, source, distance, now, workspace);
    ArrivedOffset(leaving, target, RestingOffset(tracks, source, now) + distance, now, workspace);
  }

  ghost predicate HeadsFor(tracks: seq<Track>, workspace: nat, goal: real) {
    exists t :: t in tracks && t.workspace == workspace && t.offset.goal == goal
  }

  // The target heads for its place while the source leaves it to the other side;
  // if it was not in motion it comes in beside the source.
  ghost predicate ComesIn(was: seq<Track>, tracks: seq<Track>, source: nat, target: nat, side: real, now: int) {
    && HeadsFor(tracks, target, 0.0) && HeadsFor(tracks, source, -side)
    && (OffsetOf(was, target, now).None? ==>
          OffsetOf(tracks, target, now) == Some(OrRest(OffsetOf(was, source, now)) + side))
  }

  // Going on, the target comes in one width to the right of the source; going
  // back, to the left.
  lemma StartSlides(tracks: seq<Track>, source: nat, target: nat, direction: Nav.Direction, width: int, now: int)
    requires Sane(tracks, now) && source != target
    ensures ComesIn(tracks, Started(tracks, source, target, IncomingOffset(direction, width), now), source, target,
                    if direction.Next? then width as real else -(width as real), now)
  {
    var distance := IncomingOffset(direction, width);
    StartHeads(tracks, source, target, distance, now);
    StartKeepsPositions(tracks, source, target, distance, now, target);
  }

  lemma StartHeads(tracks: seq<Track>, source: nat, target: nat, distance: real, now: int)
    requires Sane(tracks, now) && source != target
    ensures HeadsFor(Started(tracks, source, target, distance, now), target, 0.0)
    ensures HeadsFor(Started(tracks, source, target, distance, now), source, -distance)
  {
    var leaving, r := StartShape(tracks, source, target, distance, now);
    ArrivedHeads(tracks, leaving, r, source, target, distance, now);
  }

  lemma ArrivedHeads(tracks: seq<Track>, leaving: seq<Track>, r: seq<Track>, source: nat, target: nat, distance: real,
                     now: int)
    requires LeavesFrom(tracks, leaving, source, distance, now) && source != target
    requires r != [] && r[0].workspace == target && r[0].offset.goal == 0.0
    requires forall t :: t in r[1..] <==> t in leaving && t.workspace != target
    ensures HeadsFor(r, target, 0.0) && HeadsFor(r, source, -distance)
  {
    assert r[0] in r;
    var k :| 0 <= k < |leaving| && leaving[k].workspace == source;
    assert leaving[k] in r[1..];
  }

  // A workspace that is not in motion is shown in place.
  function OrRest(offset: Option<real>): real {
    if offset.Some? then offset.value else 0.0
  }

  // The workspaces in motion before, with source and target.
  ghost predicate Joined(tracks: seq<Track>, r: seq<Track>, source: nat, target: nat) {
    forall w :: w in Workspaces(r) <==> w in Workspaces(tracks) || w == source || w == target
  }

  lemma StartSane(tracks: seq<Track>, source: nat, target: nat, distance: real, now: int)
    requires Sane(tracks, now) && source != target
    ensures var r := Started(tracks, source, target, distance, now);
            Sane(r, now) && Joined(tracks, r, source, target)
  {
    var leaving, r := StartShape(tracks, source, target, distance, now);
    StartedWorkspaces(tracks, leaving, r, source, target, distance, now);
  }

  // The target in front, then what departs.
  lemma StartShape(tracks: seq<Track>, source: nat, target: nat, distance: real, now: int)
    returns (leaving: seq<Track>, r: seq<Track>)
    requires Sane(tracks, now) && source != target
    ensures r == Started(tracks, source, target, distance, now) && Sane(r, now)
    ensures LeavesFrom(tracks, leaving, source, distance, now)
    ensures r != [] && r[0].workspace == target && r[0].offset.goal == 0.0
    ensures forall t :: t in r[1..] <==> t in leaving && t.workspace != target
  {
    leaving := Departing(tracks, source, distance, now);
    var next := Tween(RestingOffset(tracks, source, now) + distance, 0.0, now, SETTLE);
    r := Arrived(leaving, target, next, now);
    DepartingShape(tracks, source, distance, now);
    ArrivedShape(leaving, target, next, now);
  }

  lemma StartedWorkspaces(tracks: seq<Track>, leaving: seq<Track>, r: seq<Track>, source: nat, target: nat,
                          distance: real, now: int)
    requires LeavesFrom(tracks, leaving, source, distance, now) && r != [] && r[0].workspace == target
    requires forall t :: t in r[1..] <==> t in leaving && t.workspace != target
    ensures Joined(tracks, r, source, target)
  {
    LeavingWorkspaces(tracks, leaving, source, distance, now);
    ArrivedWorkspaces(leaving, r, target);
  }

  lemma LeavingWorkspaces(tracks: seq<Track>, leaving: seq<Track>, source: nat, distance: real, now: int)
    requires LeavesFrom(tracks, leaving, source, distance, now)
    ensures forall w :: w in Workspaces(leaving) <==> w in Workspaces(tracks) || w == source
  {
    forall i | 0 <= i < |tracks| ensures Workspaces(leaving)[i] == Workspaces(tracks)[i] {
    }
    var k :| 0 <= k < |leaving| && leaving[k].workspace == source;
    assert Workspaces(leaving)[k] == source;
    forall w | w in Workspaces(leaving) ensures w in Workspaces(tracks) || w == source {
      var i :| 0 <= i < |leaving| && Workspaces(leaving)[i] == w;
      assert i < |tracks| ==> Workspaces(tracks)[i] == w;
    }
  }

  lemma ArrivedWorkspaces(leaving: seq<Track>, r: seq<Track>, target: nat)
    requires r != [] && r[0].workspace == target
    requires forall t :: t in r[1..] <==> t in leaving && t.workspace != target
    ensures forall w :: w in Workspaces(r) <==> w in Workspaces(leaving) || w == target
  {
    assert Workspaces(r)[0] == target;
    forall w | w in Workspaces(leaving) && w != target ensures w in Workspaces(r) {
      var i :| 0 <= i < |leaving| && Workspaces(leaving)[i] == w;
      assert leaving[i] in r[1..];
      var k :| 0 <= k < |r[1..]| && r[1..][k] == leaving[i];
      assert Workspaces(r)[k + 1] == w;
    }
    forall w | w in Workspaces(r) && w != target ensures w in Workspaces(leaving) {
      var i :| 0 <= i < |r| && Workspaces(r)[i] == w;
      assert r[1..][i - 1] in leaving;
      var k :| 0 <= k < |leaving| && leaving[k] == r[i];
      assert Workspaces(leaving)[k] == w;
    }
  }

  lemma AtStart(start: real, goal: real, now: int)
    ensures Tween(start, goal, now, SETTLE).At(now).value == start
  {
    AtRemaining(Tween(start, goal, now, SETTLE), now);
  }

  lemma ArrivedOffset(leaving: seq<Track>, target: nat, start: real, now: int, workspace: nat)
    requires Sane(leaving, now)
    ensures OffsetOf(Arrived(leaving, target, Tween(start, 0.0, now, SETTLE), now), workspace, now) ==
              if OffsetOf(leaving, workspace, now).Some? then OffsetOf(leaving, workspace, now)
              else if workspace == target then Some(start) else None
  {
    var next := Tween(start, 0.0, now, SETTLE);
    var r := Arrived(leaving, target, next, now);
    ArrivedShape(leaving, target, next, now);
    var at := TrackOf(leaving, workspace);
    if workspace == target {
      TrackAt(r, 0, now);
      AtStart(start, 0.0, now);
      if at.Some? {
        RetargetKeepsPosition(leaving[at.value].offset, 0.0, now);
      }
    } else if at.Some? {
      var t := leaving[at.value];
      assert t in r[1..];
      var i :| 0 <= i < |r[1..]| && r[1..][i] == t;
      TrackAt(r, i + 1, now);
    } else {
      forall i | 0 <= i < |r| ensures r[i].workspace != workspace {
        assert i > 0 ==> r[1..][i - 1] == r[i];
      }
    }
  }

  lemma LeavingOffset(tracks: seq<Track>, source: nat, distance: real, now: int, workspace: nat)
    requires Sane(tracks, now)
    ensures OffsetOf(Departing(tracks, source, distance, now), workspace, now) ==
              if OffsetOf(tracks, workspace, now).Some? then OffsetOf(tracks, workspace, now)
              else if workspace == source then Some(0.0) else None
  {
    var leaving := Departing(tracks, source, distance, now);
    DepartingShape(tracks, source, distance, now);
    var at := TrackOf(tracks, workspace);
    if at.Some? {
      TrackAt(leaving, at.value, now);
      DepartingPosition(tracks, source, distance, now, at.value);
    } else if workspace == source {
      TrackAt(leaving, |tracks|, now);
      AtStart(0.0, -distance, now);
    } else {
      forall i | 0 <= i < |leaving| ensures leaving[i].workspace != workspace {
        assert i < |tracks| ==> leaving[i].workspace == tracks[i].workspace;
      }
    }
  }

  // After a start the goals at zero are the earlier ones without the source, plus the target;
  // so leaving the previous target keeps the newest target the only one at zero.
  lemma StartMovesZero(tracks: seq<Track>, source: nat, target: nat, distance: real, now: int, workspace: nat)
    requires Sane(tracks, now) && source != target && distance != 0.0
    ensures ZeroGoal(Started(tracks, source, target, distance, now), workspace)
        <==> workspace == target || (workspace != source && ZeroGoal(tracks, workspace))
  {
    var leaving := Departing(tracks, source, distance, now);
    var from := RestingOffset(tracks, source, now);
    var next := Tween(from + distance, 0.0, now, SETTLE);
    var r := Arrived(leaving, target, next, now);
    assert Started(tracks, source, target, distance, now) == r;
    DepartingShape(tracks, source, distance, now);
    ArrivedShape(leaving, target, next, now);
    LeavingZero(tracks, leaving, source, distance, now, workspace);
    ArrivedZero(leaving, r, target, workspace);
  }

  lemma LeavingZero(tracks: seq<Track>, leaving: seq<Track>, source: nat, distance: real, now: int, workspace: nat)
    requires Sane(tracks, now) && distance != 0.0 && LeavesFrom(tracks, leaving, source, distance, now)
    ensures ZeroGoal(leaving, workspace) <==> workspace != source && ZeroGoal(tracks, workspace)
  {
    if workspace != source && ZeroGoal(tracks, workspace) {
      var k :| 0 <= k < |tracks| && tracks[k].workspace == workspace && tracks[k].offset.goal == 0.0;
      assert leaving[k] == tracks[k];
    }
  }

  lemma ArrivedZero(leaving: seq<Track>, r: seq<Track>, target: nat, workspace: nat)
    requires r != [] && r[0].workspace == target && r[0].offset.goal == 0.0
    requires forall t :: t in r[1..] <==> t in leaving && t.workspace != target
    ensures ZeroGoal(r, workspace) <==> workspace == target || ZeroGoal(leaving, workspace)
  {
    if workspace != target {
      if ZeroGoal(r, workspace) {
        var i :| 0 <= i < |r| && r[i].workspace == workspace && r[i].offset.goal == 0.0;
        assert r[1..][i - 1] in leaving;
      }
      if ZeroGoal(leaving, workspace) {
        var k :| 0 <= k < |leaving| && leaving[k].workspace == workspace && leaving[k].offset.goal == 0.0;
        assert leaving[k] in r[1..];
        var i :| 0 <= i < |r[1..]| && r[1..][i] == leaving[k];
        assert r[i + 1] == leaving[k];
      }
    }
  }

  // A newly shown target stays exactly one width from the departing source, at every later instant.
  lemma ScenesStayAdjacent(from: real, distance: real, now: int, later: int)
    requires now <= later
    ensures Tween(from + distance, 0.0, now, SETTLE).At(later).value
         == Tween(from, -distance, now, SETTLE).At(later).value + distance
  {
    var a, b := Tween(from + distance, 0.0, now, SETTLE), Tween(from, -distance, now, SETTLE);
    AtRemaining(a, later);
    AtRemaining(b, later);
    assert Remaining(a, later) == Remaining(b, later);
  }

  // ------------------------------------------------------------------
  // Advancing

  predicate AllFinished(tracks: seq<Track>, now: int)
  {
    forall i :: 0 <= i < |tracks| ==> tracks[i].offset.Over(now)
  }

  // Tracks of the active workspace and unfinished ones, in order.
  function Kept(tracks: seq<Track>, active: nat, now: int): (r: seq<Track>)
    ensures forall t :: t in r <==> t in tracks && (t.workspace == active || !t.offset.Over(now))
  {
    if tracks == [] then []
    else
      assert forall t :: t in tracks <==> t == tracks[0] || t in tracks[1..];
      (if tracks[0].workspace == active || !tracks[0].offset.Over(now) then [tracks[0]] else [])
      + Kept(tracks[1..], active, now)
  }

  function Advanced(tracks: seq<Track>, active: nat, now: int): seq<Track>
  {
    var kept := Kept(tracks, active, now);
    if AllFinished(kept, now) then [] else kept
  }

  lemma {:induction false} KeptSane(tracks: seq<Track>, active: nat, now: int)
    requires Sane(tracks, now)
    ensures Sane(Kept(tracks, active, now), now)
  {
    if tracks != [] {
      KeptSane(tracks[1..], active, now);
      forall t | t in tracks[1..] ensures t.workspace != tracks[0].workspace && t.offset.started <= now {
        var i :| 0 <= i < |tracks[1..]| && tracks[1..][i] == t;
      }
    }
  }

  // Advancing drops finished tracks, and all of them once every one has settled.
  lemma AdvanceEmpties(tracks: seq<Track>, active: nat, now: int)
    requires Sane(tracks, now)
    ensures Sane(Advanced(tracks, active, now), now)
    ensures Advanced(tracks, active, now) == [] <==> AllFinished(tracks, now)
    ensures !AllFinished(tracks, now) ==> forall t ::
              t in Advanced(tracks, active, now) <==> t in tracks && (t.workspace == active || !t.offset.Over(now))
    ensures forall t :: t in Advanced(tracks, active, now) ==> t in tracks
    ensures (forall i :: 0 <= i < |tracks| ==> tracks[i].offset.started + SETTLE <= now) ==>
              Advanced(tracks, active, now) == []
  {
    KeptSane(tracks, active, now);
    var kept := Kept(tracks, active, now);
    if !AllFinished(tracks, now) {
      var i :| 0 <= i < |tracks| && !tracks[i].offset.Over(now);
      assert tracks[i] in kept;
      var k :| 0 <= k < |kept| && kept[k] == tracks[i];
      assert !AllFinished(kept, now);
    } else {
      forall k | 0 <= k < |kept| ensures kept[k].offset.Over(now) {
        assert kept[k] in kept;
        var i :| 0 <= i < |tracks| && tracks[i] == kept[k];
      }
    }
  }
}
