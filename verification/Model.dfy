// Windows, workspaces and integer geometry.
module Model {
  import opened Common

  datatype Rect = Rect(x: int, y: int, w: int, h: int)

  datatype Size = Size(w: int, h: int)

  // A managed window. A window handle and its id name the same window.
  datatype Entry = Entry(
    id: nat,
    stackingOrder: nat,
    minimized: bool,
    parent: Option<nat>,
    floating: Option<Rect>,
    stackWeight: nat,
    floatingOverride: Option<bool>,
    stayOnTop: bool,
    centerOverride: Option<bool>,
    rulesApplied: bool,
    savedFloating: Option<Rect>)

  datatype Workspace = Workspace(
    windows: seq<Entry>,
    focusHistory: seq<nat>,
    minimizedHistory: seq<nat>,
    fullscreen: Option<nat>,
    maximized: Option<nat>,
    masterRatio: Option<nat>)

  const EMPTY_WORKSPACE := Workspace([], [], [], None, None, None)

  ghost predicate UniqueIds(ws: seq<Entry>) {
    forall i, j :: 0 <= i < j < |ws| ==> ws[i].id != ws[j].id
  }

  ghost function Ids(ws: seq<Entry>): set<nat> {
    set e | e in ws :: e.id
  }

  // The first entry with an id, as iterator `find` returns it.
  function Find(ws: seq<Entry>, id: nat): (r: Option<Entry>)
    ensures r.Some? ==> r.value in ws && r.value.id == id
    ensures r.None? ==> forall e :: e in ws ==> e.id != id
  {
    if ws == [] then None
    else if ws[0].id == id then Some(ws[0])
    else Find(ws[1..], id)
  }

  function IndexOf(ws: seq<Entry>, id: nat): (r: Option<nat>)
    ensures r.Some? ==> r.value < |ws| && ws[r.value].id == id
    ensures r.Some? ==> forall j :: 0 <= j < r.value ==> ws[j].id != id
    ensures r.None? ==> forall e :: e in ws ==> e.id != id
  {
    if ws == [] then None
    else if ws[0].id == id then Some(0)
    else
      match IndexOf(ws[1..], id)
      case Some(k) => Some(k + 1)
      case None => None
  }

  lemma FindUnique(ws: seq<Entry>, e: Entry)
    requires UniqueIds(ws) && e in ws
    ensures Find(ws, e.id) == Some(e)
  {
    var f := Find(ws, e.id);
    assert f.Some?;
    var i :| 0 <= i < |ws| && ws[i] == e;
    var j :| 0 <= j < |ws| && ws[j] == f.value;
  }

  // `extract_if` and its complement: the entries whose membership in `ids` equals `keep`.
  function Pick(ws: seq<Entry>, ids: set<nat>, keep: bool): (r: seq<Entry>)
    ensures forall e :: e in r <==> e in ws && (e.id in ids) == keep
  {
    if ws == [] then []
    else (if (ws[0].id in ids) == keep then [ws[0]] else []) + Pick(ws[1..], ids, keep)
  }

  function PickIds(s: seq<nat>, ids: set<nat>, keep: bool): (r: seq<nat>)
    ensures forall x :: x in r <==> x in s && (x in ids) == keep
  {
    if s == [] then []
    else (if (s[0] in ids) == keep then [s[0]] else []) + PickIds(s[1..], ids, keep)
  }

  lemma {:induction false} PickUnique(ws: seq<Entry>, ids: set<nat>, keep: bool)
    requires UniqueIds(ws)
    ensures UniqueIds(Pick(ws, ids, keep))
  {
    if ws != [] {
      PickUnique(ws[1..], ids, keep);
      var rest := Pick(ws[1..], ids, keep);
      forall e | e in rest ensures e.id != ws[0].id {
        var i :| 0 <= i < |ws[1..]| && ws[1..][i] == e;
        assert ws[i + 1] == e;
      }
    }
  }

  lemma {:induction false} PickIdsNoDup(s: seq<nat>, ids: set<nat>, keep: bool)
    requires NoDup(s)
    ensures NoDup(PickIds(s, ids, keep))
  {
    if s != [] {
      PickIdsNoDup(s[1..], ids, keep);
    }
  }

  // Selecting and rejecting split a list: no entry is lost or duplicated.
  lemma {:induction false} PickSplits(ws: seq<Entry>, ids: set<nat>)
    ensures multiset(Pick(ws, ids, true)) + multiset(Pick(ws, ids, false)) == multiset(ws)
  {
    if ws != [] {
      PickSplits(ws[1..], ids);
      assert ws == [ws[0]] + ws[1..];
    }
  }
}
