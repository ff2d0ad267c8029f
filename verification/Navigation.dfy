// Selecting, growing and trimming the list of workspaces.
module Navigation {
  import opened Common
  import opened Model

  const MAX_WORKSPACES: nat := 4096

  datatype Direction = Next | Previous

  ghost predicate Admissible(occupied: seq<bool>, skipEmpty: bool, i: nat) {
    i < |occupied| && (!skipEmpty || occupied[i])
  }

  // Next takes the nearest admissible slot ahead, else the next slot, which
  // may be one past the end; Previous takes the nearest admissible slot behind.
  ghost predicate IsTarget(occupied: seq<bool>, source: nat, direction: Direction, skipEmpty: bool, r: Option<nat>) {
    if source >= |occupied| then r.None?
    else if direction.Next? then
      && r.Some? && source < r.value <= |occupied|
      && (if Admissible(occupied, skipEmpty, r.value)
          then forall i :: source < i < r.value ==> !Admissible(occupied, skipEmpty, i)
          else r.value == source + 1 && forall i :: source < i ==> !Admissible(occupied, skipEmpty, i))
    else
      var below := if r.Some? then r.value + 1 else 0;
      && below <= source
      && (forall i :: below <= i < source ==> !Admissible(occupied, skipEmpty, i))
      && (r.Some? ==> Admissible(occupied, skipEmpty, r.value))
  }

  method Target(occupied: seq<bool>, source: nat, direction: Direction, skipEmpty: bool) returns (r: Option<nat>)
    ensures IsTarget(occupied, source, direction, skipEmpty, r)
  {
    var count := |occupied|;
    if source >= count {
      return None;
    }
    if direction.Next? {
      for index := source + 1 to count
        invariant forall i :: source < i < index ==> !Admissible(occupied, skipEmpty, i)
      {
        if !skipEmpty || occupied[index] {
          return Some(index);
        }
      }
      return Some(if source + 1 < count then source + 1 else count);
    }
    for index := source downto 0
      invariant forall i :: index <= i < source ==> !Admissible(occupied, skipEmpty, i)
    {
      if !skipEmpty || occupied[index] {
        return Some(index);
      }
    }
    r := None;
  }

  // ------------------------------------------------------------------
  // The dynamic tail

  function Grown(ws: seq<Workspace>, count: nat): (r: seq<Workspace>)
    ensures |r| == Max(|ws|, count) && ws <= r
    ensures forall i :: |ws| <= i < |r| ==> r[i] == EMPTY_WORKSPACE
  {
    if count <= |ws| then ws else ws + seq(count - |ws|, _ => EMPTY_WORKSPACE)
  }

  // One past the highest index that is referenced or holds a window.
  function UsedEnd(ws: seq<Workspace>, held: seq<nat>): (r: nat)
    ensures forall h :: h in held ==> h < r
    ensures forall i :: 0 <= i < |ws| && ws[i].windows != [] ==> i < r
    ensures r > 0 ==> r - 1 in held || (r <= |ws| && ws[r - 1].windows != [])
  {
    if held != [] then
      var rest := UsedEnd(ws, held[..|held| - 1]);
      assert forall h :: h in held <==> h in held[..|held| - 1] || h == held[|held| - 1];
      Max(rest, held[|held| - 1] + 1)
    else if ws == [] then 0
    else if ws[|ws| - 1].windows != [] then |ws|
    else UsedEnd(ws[..|ws| - 1], held)
  }

  function Retained(ws: seq<Workspace>, predefined: nat, active: nat, held: seq<nat>): (r: nat)
    ensures 2 <= r <= MAX_WORKSPACES
  {
    var used := UsedEnd(ws, held);
    Min(Max(Max(Max(predefined + 1, 2), active + 2), if used == 0 then 0 else used + 1), MAX_WORKSPACES)
  }

  function Trimmed(ws: seq<Workspace>, predefined: nat, active: nat, held: seq<nat>): (r: seq<Workspace>)
    ensures |r| == Retained(ws, predefined, active, held)
  {
    var retained := Retained(ws, predefined, active, held);
    if retained <= |ws| then ws[..retained] else Grown(ws, retained)
  }

  ghost predicate InRange(ws: seq<Workspace>, active: nat, held: seq<nat>) {
    |ws| <= MAX_WORKSPACES && active < |ws| && forall h :: h in held ==> h < |ws|
  }

  // Trimming changes no retained workspace and drops only workspaces that are
  // empty, inactive and referenced by nothing.
  lemma TrimKeepsUsed(ws: seq<Workspace>, predefined: nat, active: nat, held: seq<nat>)
    requires InRange(ws, active, held)
    ensures var r := Trimmed(ws, predefined, active, held);
            && InRange(r, active, held)
            && (forall i :: 0 <= i < |ws| && i < |r| ==> r[i] == ws[i])
            && (forall i :: |r| <= i < |ws| ==> ws[i].windows == [] && i != active && i !in held)
            && (forall i :: |ws| <= i < |r| ==> r[i] == EMPTY_WORKSPACE)
  {
  }

  // It keeps exactly one slot past everything used or predefined, below the
  // cap, and that slot is empty.
  lemma TrimLeavesOneSlot(ws: seq<Workspace>, predefined: nat, active: nat, held: seq<nat>)
    requires InRange(ws, active, held)
    ensures var r := Trimmed(ws, predefined, active, held);
            var end := Max(Max(UsedEnd(ws, held), active + 1), Max(predefined, 1));
            && |r| == Min(end + 1, MAX_WORKSPACES)
            && (end < MAX_WORKSPACES ==> r[end].windows == [] && end !in held)
  {
    var used := UsedEnd(ws, held);
    var end := Max(Max(used, active + 1), Max(predefined, 1));
    assert Retained(ws, predefined, active, held) == Min(end + 1, MAX_WORKSPACES);
    if end < MAX_WORKSPACES {
      assert end !in held;
      assert end < |ws| ==> ws[end].windows == [];
    }
  }

  // Trimming again changes nothing.
  lemma TrimSettles(ws: seq<Workspace>, predefined: nat, active: nat, held: seq<nat>)
    requires InRange(ws, active, held)
    ensures var r := Trimmed(ws, predefined, active, held);
            Trimmed(r, predefined, active, held) == r
  {
    TrimAbsorbs(ws, predefined, active, held, held);
  }

  // Trimming after references were given up does what trimming only then does.
  lemma TrimAbsorbs(ws: seq<Workspace>, predefined: nat, active: nat, held: seq<nat>, fewer: seq<nat>)
    requires InRange(ws, active, held) && forall h :: h in fewer ==> h in held
    ensures Trimmed(Trimmed(ws, predefined, active, held), predefined, active, fewer)
            == Trimmed(ws, predefined, active, fewer)
  {
    var r := Trimmed(ws, predefined, active, held);
    TrimKeepsUsed(ws, predefined, active, held);
    TrimUse(ws, predefined, active, held, fewer);
    FewerUse(ws, held, fewer);
    var n := Retained(ws, predefined, active, fewer);
    assert Trimmed(r, predefined, active, fewer) == r[..n];
    assert Trimmed(ws, predefined, active, fewer) == r[..n];
  }

  lemma TrimUse(ws: seq<Workspace>, predefined: nat, active: nat, held: seq<nat>, fewer: seq<nat>)
    requires InRange(ws, active, held)
    ensures UsedEnd(Trimmed(ws, predefined, active, held), fewer) == UsedEnd(ws, fewer)
  {
    var r := Trimmed(ws, predefined, active, held);
    TrimKeepsUsed(ws, predefined, active, held);
    UseCovered(ws, r, fewer);
    UseCovered(r, ws, fewer);
  }

  lemma FewerUse(ws: seq<Workspace>, held: seq<nat>, fewer: seq<nat>)
    requires forall h :: h in fewer ==> h in held
    ensures UsedEnd(ws, fewer) <= UsedEnd(ws, held)
  {
  }

  // What one list uses the other uses if they differ only by empty tails.
  lemma UseCovered(ws: seq<Workspace>, r: seq<Workspace>, held: seq<nat>)
    requires forall i :: 0 <= i < |ws| && i < |r| ==> r[i] == ws[i]
    requires forall i :: |r| <= i < |ws| ==> ws[i].windows == []
    ensures UsedEnd(ws, held) <= UsedEnd(r, held)
  {
    var a := UsedEnd(ws, held);
    if a > 0 && a - 1 !in held {
      assert a - 1 < |ws| && ws[a - 1].windows != [];
      assert a - 1 < |r| && r[a - 1] == ws[a - 1];
    }
  }
}
