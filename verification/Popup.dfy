// Placing a popup under its positioner: anchor, flip, slide, then resize.
module Popup {
  import opened Common
  import opened Model
  import opened Geometry
  import opened Tiling

  datatype Side = Center | Top | Bottom | Left | Right | TopLeft | BottomLeft | TopRight | BottomRight {
    predicate OnLeft() { Left? || TopLeft? || BottomLeft? }

    predicate OnRight() { Right? || TopRight? || BottomRight? }

    predicate OnTop() { Top? || TopLeft? || TopRight? }

    predicate OnBottom() { Bottom? || BottomLeft? || BottomRight? }

    function MirrorX(): (r: Side)
      ensures r.OnLeft() == OnRight() && r.OnRight() == OnLeft()
      ensures r.OnTop() == OnTop() && r.OnBottom() == OnBottom()
    {
      match this
      case Left => Right
      case Right => Left
      case TopLeft => TopRight
      case TopRight => TopLeft
      case BottomLeft => BottomRight
      case BottomRight => BottomLeft
      case other => other
    }

    function MirrorY(): (r: Side)
      ensures r.OnTop() == OnBottom() && r.OnBottom() == OnTop()
      ensures r.OnLeft() == OnLeft() && r.OnRight() == OnRight()
    {
      match this
      case Top => Bottom
      case Bottom => Top
      case TopLeft => BottomLeft
      case TopRight => BottomRight
      case BottomLeft => TopLeft
      case BottomRight => TopRight
      case other => other
    }
  }

  datatype Adjustment = Adjustment(flipX: bool, flipY: bool, slideX: bool, slideY: bool, resizeX: bool, resizeY: bool)

  datatype Positioner = Positioner(anchorRect: Rect, size: Size, anchor: Side, gravity: Side,
                                   dx: int, dy: int, adjust: Adjustment)

  // Wire values are 32-bit.
  predicate OnWire(p: Positioner) {
    && InI32(p.anchorRect.x) && InI32(p.anchorRect.y) && InI32(p.anchorRect.w) && InI32(p.anchorRect.h)
    && InI32(p.size.w) && InI32(p.size.h) && InI32(p.dx) && InI32(p.dy)
  }

  // ------------------------------------------------------------------
  // Reference solution, one axis at a time, over unbounded integers

  // Where a popup of a given size starts on one axis.
  function Start(origin: int, length: int, atLow: bool, atHigh: bool, offset: int,
                 size: int, towardLow: bool, towardHigh: bool): int
  {
    var anchor := origin + if atLow then 0 else if atHigh then length else TruncDiv(length, 2);
    anchor + offset - (if towardLow then size else if towardHigh then 0 else TruncDiv(size, 2))
  }

  function StartX(p: Positioner): int {
    Start(p.anchorRect.x, p.anchorRect.w, p.anchor.OnLeft(), p.anchor.OnRight(), p.dx,
          p.size.w, p.gravity.OnLeft(), p.gravity.OnRight())
  }

  function StartY(p: Positioner): int {
    Start(p.anchorRect.y, p.anchorRect.h, p.anchor.OnTop(), p.anchor.OnBottom(), p.dy,
          p.size.h, p.gravity.OnTop(), p.gravity.OnBottom())
  }

  // The low edge, the high edge or the middle of the anchor rectangle on one axis.
  function AnchorPoint(low: int, length: int, atLow: bool, atHigh: bool): int {
    if atLow then low else if atHigh then low + length else low + TruncDiv(length, 2)
  }

  // A popup grows away from a point: the edge opposite to its gravity lies there,
  // or its middle when it has no gravity on the axis.
  ghost predicate GrowsFrom(point: int, low: int, size: int, towardLow: bool, towardHigh: bool) {
    if towardLow then low + size == point
    else if towardHigh then low == point
    else low + TruncDiv(size, 2) == point
  }

  // What a positioner asks for: a popup of its size that grows from the anchor
  // point plus the offset, on both axes.
  ghost predicate Anchored(p: Positioner, r: Rect) {
    && r.w == p.size.w && r.h == p.size.h
    && GrowsFrom(AnchorPoint(p.anchorRect.x, p.anchorRect.w, p.anchor.OnLeft(), p.anchor.OnRight()) + p.dx,
                 r.x, r.w, p.gravity.OnLeft(), p.gravity.OnRight())
    && GrowsFrom(AnchorPoint(p.anchorRect.y, p.anchorRect.h, p.anchor.OnTop(), p.anchor.OnBottom()) + p.dy,
                 r.y, r.h, p.gravity.OnTop(), p.gravity.OnBottom())
  }

  lemma AnchoredIs(p: Positioner, r: Rect)
    ensures Anchored(p, r) <==> r == Rect(StartX(p), StartY(p), p.size.w, p.size.h)
  {
  }

  // The mirrored positioner asks for the mirror image about the anchor
  // rectangle, moved by the same offset.
  lemma FlipMirrors(p: Positioner, r: Rect, q: Rect)
    requires Anchored(p, r)
    requires p.anchor.OnLeft() || p.anchor.OnRight()
    requires p.gravity.OnLeft() || p.gravity.OnRight()
    ensures Anchored(FlippedX(p), q) ==>
              && q.y == r.y && q.w == r.w && q.h == r.h
              && q.x + q.w - (p.anchorRect.x + p.dx) == p.anchorRect.x + p.anchorRect.w + p.dx - r.x
  {
  }

  lemma FlipMirrorsY(p: Positioner, r: Rect, q: Rect)
    requires Anchored(p, r)
    requires p.anchor.OnTop() || p.anchor.OnBottom()
    requires p.gravity.OnTop() || p.gravity.OnBottom()
    ensures Anchored(FlippedY(p), q) ==>
              && q.x == r.x && q.w == r.w && q.h == r.h
              && q.y + q.h - (p.anchorRect.y + p.dy) == p.anchorRect.y + p.anchorRect.h + p.dy - r.y
  {
  }

  function FlippedX(p: Positioner): Positioner {
    p.(anchor := p.anchor.MirrorX(), gravity := p.gravity.MirrorX())
  }

  function FlippedY(p: Positioner): Positioner {
    p.(anchor := p.anchor.MirrorY(), gravity := p.gravity.MirrorY())
  }

  predicate Representable(x: int, y: int, w: int, h: int) {
    InI32(x) && InI32(y) && InI32(w) && InI32(h)
  }

  function RectFrom(x: int, y: int, w: int, h: int): Option<Rect> {
    if Representable(x, y, w, h) then Some(Rect(x, y, w, h)) else None
  }

  predicate AxisInside(pos: int, size: int, low: int, length: int) {
    low <= pos && pos + size <= low + length
  }

  predicate XFlips(p: Positioner, t: Rect) {
    var q := FlippedX(p);
    && p.adjust.flipX && !AxisInside(StartX(p), p.size.w, t.x, t.w)
    && Representable(StartX(q), StartY(q), p.size.w, p.size.h)
    && AxisInside(StartX(q), p.size.w, t.x, t.w)
  }

  predicate YFlips(p: Positioner, t: Rect) {
    var q := FlippedY(p);
    && p.adjust.flipY && !AxisInside(StartY(p), p.size.h, t.y, t.h)
    && Representable(StartX(q), StartY(q), p.size.w, p.size.h)
    && AxisInside(StartY(q), p.size.h, t.y, t.h)
  }

  function Slid(pos: int, size: int, low: int, length: int): int {
    var before, after := low - pos, pos + size - (low + length);
    if before > 0 then pos + before
    else if after > 0 then pos - Min(after, -before)
    else pos
  }

  function Shortened(pos: int, size: int, low: int, length: int): (int, int) {
    var before, after := low - pos, pos + size - (low + length);
    var (p, s) := if 0 < before < size then (pos + before, size - before) else (pos, size);
    (p, if 0 < after < s then s - after else s)
  }

  function Settle(pos: int, size: int, low: int, length: int, slide: bool, resize: bool): (int, int) {
    var p := if slide then Slid(pos, size, low, length) else pos;
    if resize then Shortened(p, size, low, length) else (p, size)
  }

  // After both flips succeed the unflipped x returns with its constraints
  // marked as solved: nothing slides, and only a slide stage that ran lets the
  // resize stage see the overlap again.
  function SettleX(p: Positioner, t: Rect): (int, int) {
    if XFlips(p, t) && YFlips(p, t) then
      if p.adjust.slideX && p.adjust.resizeX then Shortened(StartX(p), p.size.w, t.x, t.w) else (StartX(p), p.size.w)
    else
      Settle(if XFlips(p, t) then StartX(FlippedX(p)) else StartX(p), p.size.w, t.x, t.w,
             p.adjust.slideX, p.adjust.resizeX)
  }

  function SettleY(p: Positioner, t: Rect): (int, int) {
    Settle(if YFlips(p, t) then StartY(FlippedY(p)) else StartY(p), p.size.h, t.y, t.h,
           p.adjust.slideY, p.adjust.resizeY)
  }

  // ------------------------------------------------------------------
  // The solver, in 64-bit arithmetic

  newtype i64 = x: int | -0x8000_0000_0000_0000 <= x < 0x8000_0000_0000_0000

  function Half(x: i64): (r: i64)
    ensures r as int == TruncDiv(x as int, 2)
    ensures -0x4000_0000_0000_0000 <= r <= 0x3FFF_FFFF_FFFF_FFFF
  {
    if x >= 0 then x / 2 else if x == -0x8000_0000_0000_0000 then -0x4000_0000_0000_0000 else -((-x) / 2)
  }

  method RectFromI64(x: i64, y: i64, width: i64, height: i64) returns (r: Option<Rect>)
    ensures r == RectFrom(x as int, y as int, width as int, height as int)
  {
    r := if Representable(x as int, y as int, width as int, height as int)
         then Some(Rect(x as int, y as int, width as int, height as int)) else None;
  }

  method Unconstrained(p: Positioner) returns (x: i64, y: i64)
    requires OnWire(p)
    ensures x as int == StartX(p) && y as int == StartY(p)
    ensures -0x3_0000_0000 <= x <= 0x3_0000_0000 && -0x3_0000_0000 <= y <= 0x3_0000_0000
  {
    var anchorX := p.anchorRect.x as i64
      + if p.anchor.OnLeft() then 0 else if p.anchor.OnRight() then p.anchorRect.w as i64
          else Half(p.anchorRect.w as i64);
    var anchorY := p.anchorRect.y as i64
      + if p.anchor.OnTop() then 0 else if p.anchor.OnBottom() then p.anchorRect.h as i64
          else Half(p.anchorRect.h as i64);
    x := anchorX + p.dx as i64;
    y := anchorY + p.dy as i64;
    if p.gravity.OnLeft() {
      x := x - p.size.w as i64;
    } else if !p.gravity.OnRight() {
      x := x - Half(p.size.w as i64);
    }
    if p.gravity.OnTop() {
      y := y - p.size.h as i64;
    } else if !p.gravity.OnBottom() {
      y := y - Half(p.size.h as i64);
    }
  }

  datatype Target = Target(x: i64, y: i64, w: i64, h: i64) {
    function AsRect(): Rect { Rect(x as int, y as int, w as int, h as int) }

    // Far more than any sum of 32-bit coordinates.
    predicate Bounded() {
      && -0x1000_0000_0000_0000 <= x <= 0x1000_0000_0000_0000 && -0x1000_0000_0000_0000 <= y <= 0x1000_0000_0000_0000
      && -0x1000_0000_0000_0000 <= w <= 0x1000_0000_0000_0000 && -0x1000_0000_0000_0000 <= h <= 0x1000_0000_0000_0000
    }
  }

  lemma FlipsAreIndependent(p: Positioner)
    ensures StartY(FlippedX(p)) == StartY(p) && StartX(FlippedY(p)) == StartX(p)
  {
  }

  // The unconstrained position after mirroring, if it is representable and inside on the mirrored axis.
  method TryFlip(flipped: Positioner, t: Target, horizontal: bool) returns (ok: bool, x: i64, y: i64)
    requires OnWire(flipped) && t.Bounded()
    ensures var r := t.AsRect();
            ok == (Representable(StartX(flipped), StartY(flipped), flipped.size.w, flipped.size.h)
                   && if horizontal then AxisInside(StartX(flipped), flipped.size.w, r.x, r.w)
                      else AxisInside(StartY(flipped), flipped.size.h, r.y, r.h))
    ensures x as int == StartX(flipped) && y as int == StartY(flipped)
    ensures -0x3_0000_0000 <= x <= 0x3_0000_0000 && -0x3_0000_0000 <= y <= 0x3_0000_0000
  {
    x, y := Unconstrained(flipped);
    var width, height := flipped.size.w as i64, flipped.size.h as i64;
    var rect := RectFromI64(x, y, width, height);
    ok := rect.Some? && if horizontal then t.x - x <= 0 && x + width - (t.x + t.w) <= 0
                        else t.y - y <= 0 && y + height - (t.y + t.h) <= 0;
  }

  // The anchor and flip stages, with the overhangs still to be resolved.
  method Flip(p: Positioner, t: Target) returns (x: i64, y: i64, left: i64, right: i64, top: i64, bottom: i64)
    requires OnWire(p) && t.Bounded()
    ensures -0x3_0000_0000 <= x <= 0x3_0000_0000 && -0x3_0000_0000 <= y <= 0x3_0000_0000
    ensures var r := t.AsRect();
            && x as int == (if XFlips(p, r) && !YFlips(p, r) then StartX(FlippedX(p)) else StartX(p))
            && y as int == (if YFlips(p, r) then StartY(FlippedY(p)) else StartY(p))
            && left as int == (if XFlips(p, r) then 0 else r.x - StartX(p))
            && right as int == (if XFlips(p, r) then 0 else StartX(p) + p.size.w - (r.x + r.w))
            && top as int == (if YFlips(p, r) then 0 else r.y - StartY(p))
            && bottom as int == (if YFlips(p, r) then 0 else StartY(p) + p.size.h - (r.y + r.h))
  {
    FlipsAreIndependent(p);
    x, y := Unconstrained(p);
    left, right := t.x - x, x + p.size.w as i64 - (t.x + t.w);
    top, bottom := t.y - y, y + p.size.h as i64 - (t.y + t.h);
    if (left > 0 || right > 0) && p.adjust.flipX {
      var ok, fx, fy := TryFlip(FlippedX(p), t, true);
      if ok {
        x, y, left, right := fx, fy, 0, 0;
      }
    }
    if (top > 0 || bottom > 0) && p.adjust.flipY {
      var ok, fx, fy := TryFlip(FlippedY(p), t, false);
      if ok {
        x, y, top, bottom := fx, fy, 0, 0;
      }
    }
  }

  // Slide, measure the overhangs again, resize: one axis after the flips.
  method Resolve(pos: i64, size: i64, before: i64, after: i64, low: i64, length: i64, slide: bool, resize: bool)
    returns (p: i64, s: i64)
    requires -0x3_0000_0000 <= pos <= 0x3_0000_0000 && -0x8000_0000 <= size <= 0x7FFF_FFFF
    requires -0x2000_0003_0000_0000 <= before <= 0x2000_0003_0000_0000
    requires -0x1000_0000_0000_0000 <= low <= 0x1000_0000_0000_0000
    requires -0x1000_0000_0000_0000 <= length <= 0x1000_0000_0000_0000
    ensures before == low - pos && after == pos + size - (low + length) ==>
              (p as int, s as int) == Settle(pos as int, size as int, low as int, length as int, slide, resize)
    ensures before == 0 && after == 0 ==>
              (p as int, s as int)
                  == if slide && resize then Shortened(pos as int, size as int, low as int, length as int)
                                      else (pos as int, size as int)
  {
    var left, right := before, after;
    p := pos;
    if slide {
      p := SlideStage(p, left, right);
      left, right := low - p, p + size - (low + length);
    }
    s := size;
    if resize {
      p, s := ResizeStage(p, size, left, right);
    }
  }

  // Every step stays within i64, and the outcome is the reference solution.
  method SafePopupGeometry(p: Positioner, target: Option<Target>) returns (r: Option<Rect>)
    requires OnWire(p)
    requires target.Some? ==> target.value.Bounded()
    ensures target.None? ==> r == RectFrom(StartX(p), StartY(p), p.size.w, p.size.h)
    ensures target.Some? ==>
              var t := target.value.AsRect();
              r == RectFrom(SettleX(p, t).0, SettleY(p, t).0, SettleX(p, t).1, SettleY(p, t).1)
    ensures forall at :: Anchored(p, at) && (target.Some? ==> Inside(at, target.value.AsRect())) ==>
              r == if Representable(at.x, at.y, at.w, at.h) then Some(at) else None
  {
    AnchoredIs(p, Rect(StartX(p), StartY(p), p.size.w, p.size.h));
    var width, height := p.size.w as i64, p.size.h as i64;
    if target.None? {
      var x, y := Unconstrained(p);
      r := RectFromI64(x, y, width, height);
      return;
    }
    var t := target.value;
    var x, y, left, right, top, bottom := Flip(p, t);
    FlipsAreIndependent(p);
    FlippedNeedsNothing(p, t.AsRect());
    x, width := Resolve(x, width, left, right, t.x, t.w, p.adjust.slideX, p.adjust.resizeX);
    y, height := Resolve(y, height, top, bottom, t.y, t.h, p.adjust.slideY, p.adjust.resizeY);
    r := RectFromI64(x, y, width, height);
  }

  // A flip that succeeded leaves nothing to slide or cut on its axis.
  lemma FlippedNeedsNothing(p: Positioner, t: Rect)
    ensures XFlips(p, t) ==>
              Settle(StartX(FlippedX(p)), p.size.w, t.x, t.w, p.adjust.slideX, p.adjust.resizeX)
                == (StartX(FlippedX(p)), p.size.w)
              && Shortened(StartX(FlippedX(p)), p.size.w, t.x, t.w) == (StartX(FlippedX(p)), p.size.w)
    ensures YFlips(p, t) ==>
              Settle(StartY(FlippedY(p)), p.size.h, t.y, t.h, p.adjust.slideY, p.adjust.resizeY)
                == (StartY(FlippedY(p)), p.size.h)
              && Shortened(StartY(FlippedY(p)), p.size.h, t.y, t.h) == (StartY(FlippedY(p)), p.size.h)
  {
  }

  method SlideStage(pos: i64, before: i64, after: i64) returns (r: i64)
    requires -0x4000_0000_0000_0000 <= pos <= 0x4000_0000_0000_0000
    requires -0x3000_0000_0000_0000 <= before <= 0x3000_0000_0000_0000
    ensures r == if before > 0 then pos + before
                 else if after > 0 then pos - (if after < -before then after else -before)
                 else pos
  {
    r := pos;
    if before > 0 {
      r := r + before;
    } else if after > 0 {
      r := r - if after < -before then after else -before;
    }
  }

  method ResizeStage(pos: i64, size: i64, before: i64, after: i64) returns (p: i64, s: i64)
    requires -0x4000_0000_0000_0000 <= pos <= 0x4000_0000_0000_0000
    requires -0x8000_0000 <= size <= 0x7FFF_FFFF
    ensures p == if 0 < before < size then pos + before else pos
    ensures var cut := if 0 < before < size then size - before else size;
            s == if 0 < after < cut then cut - after else cut
  {
    p, s := pos, size;
    if before > 0 && before < s {
      p := p + before;
      s := s - before;
    }
    if after > 0 && after < s {
      s := s - after;
    }
  }

  // ------------------------------------------------------------------
  // What the constraint adjustments promise

  // Sliding and resizing together always fit a non-empty target; a popup that
  // fits is left alone; sliding alone keeps the size and fits whatever can fit.
  lemma SettleFits(pos: int, size: int, low: int, length: int, slide: bool, resize: bool)
    requires length > 0
    ensures var (p, s) := Settle(pos, size, low, length, slide, resize);
            && (slide && resize ==> AxisInside(p, s, low, length))
            && (slide && size <= length ==> s == size && AxisInside(p, s, low, length))
            && (AxisInside(pos, size, low, length) ==> p == pos && s == size)
            && s <= size && (size > 0 ==> s > 0)
  {
  }

  // Sliding goes no further than it must; a popup too long for its target ends up
  // with its low edge on the target's.
  lemma SlideNearest(pos: int, size: int, low: int, length: int, other: int)
    requires length > 0
    ensures var p := Slid(pos, size, low, length);
            && (size >= length ==> p == low)
            && (AxisInside(other, size, low, length) ==>
                  AxisInside(p, size, low, length) && Abs(p - pos) <= Abs(other - pos))
  {
  }

  // Resizing keeps exactly the part over the target, and all of a popup that has none.
  lemma ResizeCuts(pos: int, size: int, low: int, length: int)
    requires length > 0 && size > 0
    ensures var (p, s) := Shortened(pos, size, low, length);
            if pos < low + length && low < pos + size
            then p == Max(pos, low) && p + s == Min(pos + size, low + length)
            else p == pos && s == size
  {
  }

  // On an axis on which it fits a popup is where its positioner asks for.
  lemma FittingAxisKept(p: Positioner, t: Rect, at: Rect)
    requires Anchored(p, at)
    ensures AxisInside(at.x, at.w, t.x, t.w) ==> SettleX(p, t) == (at.x, at.w)
    ensures AxisInside(at.y, at.h, t.y, t.h) ==> SettleY(p, t) == (at.y, at.h)
  {
    AnchoredIs(p, at);
  }

  // One that sticks out takes the mirrored place if it may and fits there, unless,
  // horizontally, the vertical flip takes it back.
  lemma FlipsWhereItHelps(p: Positioner, t: Rect, at: Rect, mirrored: Rect)
    requires Anchored(p, at) && Representable(mirrored.x, mirrored.y, mirrored.w, mirrored.h)
    ensures Anchored(FlippedX(p), mirrored) && p.adjust.flipX && Helps(at.x, mirrored.x, at.w, t.x, t.w)
            && !YFlips(p, t)
            ==> SettleX(p, t) == (mirrored.x, at.w)
    ensures Anchored(FlippedY(p), mirrored) && p.adjust.flipY && Helps(at.y, mirrored.y, at.h, t.y, t.h)
            ==> SettleY(p, t) == (mirrored.y, at.h)
  {
    AnchoredIs(p, at);
    AnchoredIs(FlippedX(p), mirrored);
    AnchoredIs(FlippedY(p), mirrored);
    FlippedNeedsNothing(p, t);
  }

  // The mirrored place fits and the asked one does not.
  predicate Helps(asked: int, mirrored: int, size: int, low: int, length: int) {
    !AxisInside(asked, size, low, length) && AxisInside(mirrored, size, low, length)
  }

  // Vertically the popup ends up inside the target, flips or not.
  lemma PopupInsideY(p: Positioner, t: Rect)
    requires p.adjust.slideY && p.adjust.resizeY && t.h > 0
    ensures AxisInside(SettleY(p, t).0, SettleY(p, t).1, t.y, t.h)
  {
    SettleFits(if YFlips(p, t) then StartY(FlippedY(p)) else StartY(p), p.size.h, t.y, t.h, true, true);
  }

  // The unflipped popup lies wholly past one side of the target.
  predicate ClearOfTarget(p: Positioner, t: Rect) {
    var before, after := t.x - StartX(p), StartX(p) + p.size.w - (t.x + t.w);
    (before > 0 && before >= p.size.w) || (after > 0 && after >= p.size.w)
  }

  // Horizontally it does so too, except exactly when both flips succeed and
  // the unflipped popup had no overlap with the target to keep.
  lemma PopupInsideX(p: Positioner, t: Rect)
    requires p.adjust.slideX && p.adjust.resizeX && t.w > 0
    ensures AxisInside(SettleX(p, t).0, SettleX(p, t).1, t.x, t.w)
        <==> !(XFlips(p, t) && YFlips(p, t) && ClearOfTarget(p, t))
  {
    if !(XFlips(p, t) && YFlips(p, t)) {
      SettleFits(if XFlips(p, t) then StartX(FlippedX(p)) else StartX(p), p.size.w, t.x, t.w, true, true);
    }
  }

  // A popup hanging off the bottom right corner of its output is such a case.
  lemma BothFlipsLoseX() returns (p: Positioner, t: Rect)
    ensures OnWire(p) && p.adjust == Adjustment(true, true, true, true, true, true)
    ensures t == Rect(0, 0, 1000, 800) && p.size.w <= t.w && p.size.h <= t.h
    ensures !AxisInside(SettleX(p, t).0, SettleX(p, t).1, t.x, t.w)
    ensures AxisInside(StartX(FlippedX(p)), p.size.w, t.x, t.w)
  {
    p := Positioner(Rect(900, 700, 100, 100), Size(200, 200), BottomRight, BottomRight, 0, 0,
                    Adjustment(true, true, true, true, true, true));
    t := Rect(0, 0, 1000, 800);
  }
}
