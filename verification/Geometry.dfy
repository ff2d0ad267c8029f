// Size hints, output limits and interactive resizing of floating windows.
module Geometry {
  import opened Common
  import opened Model

  const I32_MIN := -0x8000_0000
  const I32_MAX := 0x7FFF_FFFF

  predicate InI32(x: int) { I32_MIN <= x <= I32_MAX }

  function Saturate(x: int): (r: int)
    ensures InI32(r)
  {
    Clamp(x, I32_MIN, I32_MAX)
  }

  function UpperLimit(maximum: int, output: int): int {
    Max(if maximum > 0 then Min(maximum, output) else output, 1)
  }

  function LowerLimit(minimum: int, upper: int): int {
    Min(Max(minimum, 1), upper)
  }

  // Contradictory hints are resolved in favour of the output, then the maximum.
  function Limit(size: int, minimum: int, maximum: int, output: int): int {
    var upper := UpperLimit(maximum, output);
    Clamp(size, LowerLimit(minimum, upper), upper)
  }

  function Constrain(rect: Rect, output: Size, min: Size, max: Size): Rect {
    var w := Limit(rect.w, min.w, max.w, output.w);
    var h := Limit(rect.h, min.h, max.h, output.h);
    Rect(Clamp(rect.x, 0, Max(output.w - w, 0)), Clamp(rect.y, 0, Max(output.h - h, 0)), w, h)
  }

  lemma ConstrainSettles(rect: Rect, output: Size, min: Size, max: Size)
    ensures var r := Constrain(rect, output, min, max);
            && Constrain(r, output, min, max) == r
            && r.w >= 1 && r.h >= 1 && r.x >= 0 && r.y >= 0
            && (output.w >= 1 ==> r.x + r.w <= output.w)
            && (output.h >= 1 ==> r.y + r.h <= output.h)
  {
  }

  // A size that respects its hints on an output; where they contradict each other
  // or the output, the output comes first, then the maximum.
  predicate SizeFits(size: int, minimum: int, maximum: int, output: int) {
    && 1 <= size && size <= Max(output, 1) && (maximum > 0 ==> size <= maximum)
    && (size >= minimum || size == Max(output, 1) || size == maximum)
  }

  // No legal size is nearer to the one asked for, and the place asked for is kept
  // where the output has room for it, else the nearest one that has is taken.
  lemma ConstrainMovesLeast(rect: Rect, output: Size, min: Size, max: Size, w: int, h: int)
    ensures var r := Constrain(rect, output, min, max);
            && SizeFits(r.w, min.w, max.w, output.w) && SizeFits(r.h, min.h, max.h, output.h)
            && (SizeFits(w, min.w, max.w, output.w) ==> Abs(r.w - rect.w) <= Abs(w - rect.w))
            && (SizeFits(h, min.h, max.h, output.h) ==> Abs(r.h - rect.h) <= Abs(h - rect.h))
            && PlacedNear(r.x, rect.x, r.w, output.w) && PlacedNear(r.y, rect.y, r.h, output.h)
  {
  }

  // The position on an output that is nearest to the one wished for.
  predicate PlacedNear(position: int, wished: int, size: int, output: int) {
    if wished < 0 || output <= size then position == 0
    else if wished + size > output then position + size == output
    else position == wished
  }

  datatype ResizeEdges = ResizeEdges(left: bool, right: bool, top: bool, bottom: bool)

  // One axis of a resize: the new position and size.
  function ResizeAxis(position: int, size: int, delta: int, negative: bool, positive: bool,
                      limit: int, minimum: int, maximum: int): (int, int)
  {
    if !negative && !positive then (position, size)
    else
      var available := Max(if negative then Saturate(position + size) else Saturate(limit - position), 1);
      var upper := UpperLimit(maximum, available);
      var lower := LowerLimit(minimum, upper);
      var requested := if negative then Saturate(size - delta) else Saturate(size + delta);
      var resized := Clamp(requested, lower, upper);
      (if negative then position + size - resized else position, resized)
  }

  function Resize(start: Rect, dx: int, dy: int, edges: ResizeEdges, output: Size, min: Size, max: Size): Rect {
    var (x, w) := ResizeAxis(start.x, start.w, dx, edges.left, edges.right, output.w, min.w, max.w);
    var (y, h) := ResizeAxis(start.y, start.h, dy, edges.top, edges.bottom, output.h, min.h, max.h);
    Rect(x, y, w, h)
  }

  // One axis of `Constrain`, as a property of a position and a size.
  ghost predicate AxisFits(position: int, size: int, limit: int, minimum: int, maximum: int) {
    size == Limit(size, minimum, maximum, limit) && position == Clamp(position, 0, Max(limit - size, 0))
  }

  lemma FitsByAxis(r: Rect, output: Size, min: Size, max: Size)
    ensures Constrain(r, output, min, max) == r
        <==> AxisFits(r.x, r.w, output.w, min.w, max.w) && AxisFits(r.y, r.h, output.h, min.h, max.h)
  {
  }

  // The far edge stays and the result fits.
  lemma AxisResizeFits(position: int, size: int, delta: int, negative: bool, positive: bool,
                       limit: int, minimum: int, maximum: int)
    requires InI32(position) && InI32(size) && InI32(delta) && InI32(limit) && InI32(minimum) && InI32(maximum)
    requires AxisFits(position, size, limit, minimum, maximum)
    ensures var (p, s) := ResizeAxis(position, size, delta, negative, positive, limit, minimum, maximum);
            && AxisFits(p, s, limit, minimum, maximum)
            && (if negative then p + s == position + size else p == position)
            && (!negative && !positive ==> s == size)
  {
  }

  // No other size that fits with the far edge in place is nearer to the requested one.
  lemma AxisResizeNearest(position: int, size: int, delta: int, negative: bool, other: int,
                          limit: int, minimum: int, maximum: int)
    requires InI32(position) && InI32(size) && InI32(delta) && InI32(limit) && InI32(minimum) && InI32(maximum)
    requires AxisFits(position, size, limit, minimum, maximum)
    requires AxisFits(if negative then position + size - other else position, other, limit, minimum, maximum)
    ensures var s := ResizeAxis(position, size, delta, negative, true, limit, minimum, maximum).1;
            var requested := if negative then size - delta else size + delta;
            Abs(s - requested) <= Abs(other - requested)
  {
    var available := Max(if negative then Saturate(position + size) else Saturate(limit - position), 1);
    var upper := UpperLimit(maximum, available);
    assert LowerLimit(minimum, upper) <= other <= upper;
  }

  // A resize from a constrained rectangle needs no further constraining, keeps
  // the opposite edges fixed and leaves untouched axes alone.
  lemma ResizeKeepsConstraints(start: Rect, dx: int, dy: int, edges: ResizeEdges, output: Size, min: Size, max: Size)
    requires InI32(start.x) && InI32(start.y) && InI32(start.w) && InI32(start.h) && InI32(dx) && InI32(dy)
    requires InI32(output.w) && InI32(output.h) && InI32(min.w) && InI32(min.h) && InI32(max.w) && InI32(max.h)
    requires Constrain(start, output, min, max) == start
    ensures var r := Resize(start, dx, dy, edges, output, min, max);
            && Constrain(r, output, min, max) == r
            && (if edges.left then r.x + r.w == start.x + start.w else r.x == start.x)
            && (if edges.top then r.y + r.h == start.y + start.h else r.y == start.y)
            && (!edges.left && !edges.right ==> r.w == start.w)
            && (!edges.top && !edges.bottom ==> r.h == start.h)
  {
    FitsByAxis(start, output, min, max);
    AxisResizeFits(start.x, start.w, dx, edges.left, edges.right, output.w, min.w, max.w);
    AxisResizeFits(start.y, start.h, dy, edges.top, edges.bottom, output.h, min.h, max.h);
    FitsByAxis(Resize(start, dx, dy, edges, output, min, max), output, min, max);
  }

  // The size a resize asks for on one axis: an edge held goes with the pointer.
  function Asked(size: int, delta: int, low: bool, high: bool): int {
    if low then size - delta else if high then size + delta else size
  }

  // Whether two rectangles share the edges opposite to the ones held, and all
  // that lies on an axis on which none is held.
  predicate SharesFarEdges(a: Rect, b: Rect, edges: ResizeEdges) {
    && (if edges.left then a.x + a.w == b.x + b.w else a.x == b.x)
    && (if edges.top then a.y + a.h == b.y + b.h else a.y == b.y)
    && (!edges.left && !edges.right ==> a.w == b.w) && (!edges.top && !edges.bottom ==> a.h == b.h)
  }

  ghost predicate NoFarther(r: Rect, other: Rect, start: Rect, dx: int, dy: int, edges: ResizeEdges) {
    && Abs(r.w - Asked(start.w, dx, edges.left, edges.right))
       <= Abs(other.w - Asked(start.w, dx, edges.left, edges.right))
    && Abs(r.h - Asked(start.h, dy, edges.top, edges.bottom))
       <= Abs(other.h - Asked(start.h, dy, edges.top, edges.bottom))
  }

  // No constrained rectangle with the same far edges is nearer to the size asked for.
  lemma ResizeNearest(start: Rect, dx: int, dy: int, edges: ResizeEdges, output: Size, min: Size, max: Size,
                      other: Rect)
    requires InI32(start.x) && InI32(start.y) && InI32(start.w) && InI32(start.h) && InI32(dx) && InI32(dy)
    requires InI32(output.w) && InI32(output.h) && InI32(min.w) && InI32(min.h) && InI32(max.w) && InI32(max.h)
    requires Constrain(start, output, min, max) == start && Constrain(other, output, min, max) == other
    requires SharesFarEdges(other, start, edges)
    ensures NoFarther(Resize(start, dx, dy, edges, output, min, max), other, start, dx, dy, edges)
  {
    FitsByAxis(start, output, min, max);
    FitsByAxis(other, output, min, max);
    NearestOnAxis(start.x, start.w, dx, edges.left, edges.right, other.x, other.w, output.w, min.w, max.w);
    NearestOnAxis(start.y, start.h, dy, edges.top, edges.bottom, other.y, other.h, output.h, min.h, max.h);
  }

  lemma NearestOnAxis(position: int, size: int, delta: int, low: bool, high: bool, place: int, other: int,
                      limit: int, minimum: int, maximum: int)
    requires InI32(position) && InI32(size) && InI32(delta) && InI32(limit) && InI32(minimum) && InI32(maximum)
    requires AxisFits(position, size, limit, minimum, maximum) && AxisFits(place, other, limit, minimum, maximum)
    requires if low then place + other == position + size else place == position
    requires !low && !high ==> other == size
    ensures var s := ResizeAxis(position, size, delta, low, high, limit, minimum, maximum).1;
            Abs(s - Asked(size, delta, low, high)) <= Abs(other - Asked(size, delta, low, high))
  {
    if low || high {
      AxisResizeNearest(position, size, delta, low, other, limit, minimum, maximum);
    }
  }
}
