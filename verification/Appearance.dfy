// Gaps, borders and titlebars cut a client rectangle out of its layout slot.
module Appearance {
  import opened Common
  import opened Arith
  import opened Model
  import opened Tiling

  const TITLEBAR_HEIGHT := 34

  datatype Edges = Edges(top: nat, right: nat, bottom: nat, left: nat)

  // Two edges that together leave at least one pixel of a positive size.
  function FitPair(size: int, first: nat, second: nat): (r: (nat, nat))
    ensures r.0 + r.1 == Min(first + second, Max(size - 1, 0))
    ensures r.0 <= first && r.1 <= second
  {
    var available := Max(size - 1, 0);
    var total := first + second;
    if total <= available then (first, second)
    else
      FitShare(first, second, available);
      (first * available / total, available - first * available / total)
  }

  lemma FitShare(first: nat, second: nat, available: nat)
    requires available < first + second
    ensures var share := first * available / (first + second);
            0 <= share <= first && share <= available && available - share <= second
  {
    var total := first + second;
    MulMono(available, total, first);
    FloorMono(first * available, first * total, total);
    FloorExact(first, total);
    MulMono(first, total, available);
    FloorMono(first * available, total * available, total);
    FloorExact(available, total);
    // The second share is rounded up, yet stays within the second edge.
    assert first * available == total * available - second * available;
    MulMono(available, total, second);
    assert (available - second) * total <= first * available by {
      assert (available - second) * total == total * available - second * total;
    }
    FloorMono((available - second) * total, first * available, total);
    FloorExact(available - second, total);
    MulMono(0, available, first);
    FloorMono(0, first * available, total);
  }

  function Inset(rect: Rect, edges: Edges): (r: Rect)
    ensures r.w >= 1 && r.h >= 1
    ensures rect.w >= 1 && rect.h >= 1 ==> Inside(r, rect)
    ensures edges.left + edges.right < rect.w ==>
              r.x == rect.x + edges.left && r.x + r.w == rect.x + rect.w - edges.right
    ensures edges.top + edges.bottom < rect.h ==>
              r.y == rect.y + edges.top && r.y + r.h == rect.y + rect.h - edges.bottom
  {
    var horizontal := FitPair(rect.w, edges.left, edges.right);
    var vertical := FitPair(rect.h, edges.top, edges.bottom);
    Rect(rect.x + horizontal.0, rect.y + vertical.0,
         Max(rect.w - horizontal.0 - horizontal.1, 1), Max(rect.h - vertical.0 - vertical.1, 1))
  }

  datatype View = View(gaps: bool, borders: bool)

  function ClientRect(rect: Rect, innerGaps: Edges, border: Edges, view: View, tiled: bool): Rect {
    var gapped := if view.gaps && tiled then Inset(rect, innerGaps) else rect;
    if view.borders then Inset(gapped, border) else gapped
  }

  // A server-drawn titlebar takes the top of the client rectangle.
  function BelowTitlebar(rect: Rect): Rect {
    var height := Min(TITLEBAR_HEIGHT, Max(rect.h - 1, 0));
    rect.(y := rect.y + height, h := rect.h - height)
  }

  // Whatever the configured edges, a client never leaves its slot nor vanishes in it.
  lemma ClientStaysInSlot(slot: Rect, innerGaps: Edges, border: Edges, view: View, tiled: bool, titlebar: bool)
    requires slot.w >= 1 && slot.h >= 1
    ensures var client := ClientRect(slot, innerGaps, border, view, tiled);
            var r := if titlebar then BelowTitlebar(client) else client;
            Inside(r, slot) && r.w >= 1 && r.h >= 1
  {
  }

  // Two edges that do not fit share the room in proportion, the first rounded down.
  lemma FitPairShares(size: int, first: nat, second: nat)
    requires first + second > Max(size - 1, 0)
    ensures var share := FitPair(size, first, second).0;
            share * (first + second) <= first * Max(size - 1, 0) < (share + 1) * (first + second)
  {
    var total, part := first + second, first * Max(size - 1, 0);
    MulMono(0, Max(size - 1, 0), first);
    DivMod(part, total);
    assert (part / total + 1) * total == part / total * total + total;
  }

  // What is cut off one side: the inner gap between tiles, and the border.
  function Cutoff(gap: nat, border: nat, view: View, tiled: bool): nat {
    (if view.gaps && tiled then gap else 0) + if view.borders then border else 0
  }

  // Where there is room, the client is its slot less gaps and borders on every
  // side; a titlebar takes its height off the top, but leaves a pixel.
  lemma ClientFillsSlot(slot: Rect, innerGaps: Edges, border: Edges, view: View, tiled: bool)
    ensures var r := ClientRect(slot, innerGaps, border, view, tiled);
            var left, right := Cutoff(innerGaps.left, border.left, view, tiled),
                               Cutoff(innerGaps.right, border.right, view, tiled);
            var top, bottom := Cutoff(innerGaps.top, border.top, view, tiled),
                               Cutoff(innerGaps.bottom, border.bottom, view, tiled);
            && (left + right < slot.w ==> r.x == slot.x + left && r.x + r.w == slot.x + slot.w - right)
            && (top + bottom < slot.h ==> r.y == slot.y + top && r.y + r.h == slot.y + slot.h - bottom)
            && var below := BelowTitlebar(r);
               && below.x == r.x && below.w == r.w && below.y + below.h == r.y + r.h
               && (if r.h > 34 then below.y == r.y + 34 else below.h == Min(r.h, 1))
  {
  }

  // A floating window that must be pushed is pushed no further than needed, and
  // keeps its border within the bounds.
  lemma ConstrainFloatingMovesLeast(rect: Rect, bounds: Rect, border: Edges, view: View, other: Rect)
    requires bounds.w >= 1 && bounds.h >= 1
    ensures var r, room := ConstrainFloating(rect, bounds, border, view),
                           if view.borders then Inset(bounds, border) else bounds;
            && Inside(r, room)
            && (Inside(other, room) && other.w >= 1 && other.h >= 1 ==>
                  && Abs(r.w - rect.w) <= Abs(other.w - rect.w) && Abs(r.h - rect.h) <= Abs(other.h - rect.h)
                  && (other.w == r.w ==> Abs(r.x - rect.x) <= Abs(other.x - rect.x))
                  && (other.h == r.h ==> Abs(r.y - rect.y) <= Abs(other.y - rect.y)))
  {
  }

  // Floating windows are pushed back into their bounds, keeping what already fits.
  function ConstrainFloating(rect: Rect, bounds: Rect, border: Edges, view: View): (r: Rect)
    requires bounds.w >= 1 && bounds.h >= 1
    ensures Inside(r, bounds) && r.w >= 1 && r.h >= 1
    ensures !view.borders && Inside(rect, bounds) && rect.w >= 1 && rect.h >= 1 ==> r == rect
  {
    var inner := if view.borders then Inset(bounds, border) else bounds;
    var w := Max(Min(rect.w, inner.w), 1);
    var h := Max(Min(rect.h, inner.h), 1);
    Rect(Clamp(rect.x, inner.x, inner.x + inner.w - w), Clamp(rect.y, inner.y, inner.y + inner.h - h), w, h)
  }

  lemma ConstrainFloatingSettles(rect: Rect, bounds: Rect, border: Edges, view: View)
    requires bounds.w >= 1 && bounds.h >= 1
    ensures var r := ConstrainFloating(rect, bounds, border, view);
            ConstrainFloating(r, bounds, border, view) == r
  {
  }
}
