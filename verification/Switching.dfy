// The desktop's list of workspaces in motion is that of the motion's tracks.
module Switching {
  import opened Common
  import opened Model
  import opened Stacking
  import opened Motion
  import Transfers

  // What a switch starts moving, in the same order, as the desktop records it.
  lemma AnimatedIsStarted(tracks: seq<Track>, source: nat, target: nat, distance: real, now: int)
    requires Sane(tracks, now) && source != target
    ensures Workspaces(Started(tracks, source, target, distance, now))
         == Transfers.Animated(Workspaces(tracks), source, target)
  {
    var leaving := Departing(tracks, source, distance, now);
    DepartingShape(tracks, source, distance, now);
    LeavingList(tracks, source, distance, now);
    assert NoDup(Workspaces(leaving));
    ArrivedList(leaving, target, Tween(RestingOffset(tracks, source, now) + distance, 0.0, now, SETTLE), now);
  }

  lemma LeavingList(tracks: seq<Track>, source: nat, distance: real, now: int)
    requires Sane(tracks, now)
    ensures var before := Workspaces(tracks);
            Workspaces(Departing(tracks, source, distance, now))
            == if source in before then before else before + [source]
  {
    var before := Workspaces(tracks);
    if TrackOf(tracks, source).Some? {
      assert before[TrackOf(tracks, source).value] == source;
    } else {
      assert source !in before;
    }
  }

  lemma ArrivedList(leaving: seq<Track>, target: nat, next: Tween, now: int)
    requires NoDup(Workspaces(leaving))
    ensures Workspaces(Arrived(leaving, target, next, now)) == [target] + PickIds(Workspaces(leaving), {target}, false)
  {
    var k := TrackOf(leaving, target);
    if k.Some? {
      ArrivedFound(leaving, k.value, leaving[k.value].(offset := leaving[k.value].offset.Retargeted(0.0, now)));
    } else {
      ArrivedNew(leaving, Track(target, next));
    }
  }

  lemma ArrivedFound(leaving: seq<Track>, k: nat, t: Track)
    requires NoDup(Workspaces(leaving)) && k < |leaving| && t.workspace == leaving[k].workspace
    ensures Workspaces([t] + leaving[..k] + leaving[k + 1..])
         == [t.workspace] + PickIds(Workspaces(leaving), {t.workspace}, false)
  {
    PickedOut(Workspaces(leaving), k);
    WithoutTrack(leaving, t, k);
  }

  lemma ArrivedNew(leaving: seq<Track>, t: Track)
    requires NoDup(Workspaces(leaving))
    requires forall i :: 0 <= i < |leaving| ==> leaving[i].workspace != t.workspace
    ensures Workspaces([t] + leaving) == [t.workspace] + PickIds(Workspaces(leaving), {t.workspace}, false)
  {
    var list := Workspaces(leaving);
    assert t.workspace !in list;
    DropOne(list, t.workspace);
    Prepended(leaving, t);
  }

  lemma Prepended(tracks: seq<Track>, first: Track)
    ensures Workspaces([first] + tracks) == [first.workspace] + Workspaces(tracks)
  {
  }

  lemma WithoutTrack(tracks: seq<Track>, first: Track, k: nat)
    requires k < |tracks|
    ensures Workspaces([first] + tracks[..k] + tracks[k + 1..])
         == [first.workspace] + (Workspaces(tracks)[..k] + Workspaces(tracks)[k + 1..])
  {
  }

  lemma PickedOut(s: seq<nat>, k: nat)
    requires NoDup(s) && k < |s|
    ensures PickIds(s, {s[k]}, false) == s[..k] + s[k + 1..]
  {
    DropOne(s, s[k]);
    PosAt(s, k);
  }

  lemma {:induction false} DropOne(s: seq<nat>, x: nat)
    requires NoDup(s)
    ensures PickIds(s, {x}, false) == if x in s then s[..Pos(s, x)] + s[Pos(s, x) + 1..] else s
  {
    if s != [] {
      assert NoDup(s[1..]);
      DropOne(s[1..], x);
      assert s == [s[0]] + s[1..];
    }
  }
}
