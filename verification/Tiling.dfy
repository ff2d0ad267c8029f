// The master-and-stack layout: floor-divided weighted splits that tile the
// output exactly, their renormalization, and dragging a stack divider.
module Tiling {
  import opened Common
  import opened Arith
  import opened Model

  const WEIGHT_UNIT: nat := 10000
  const U32_MAX: nat := 0xFFFF_FFFF
  const I64_MAX: nat := 0x7FFF_FFFF_FFFF_FFFF

  // Division of the source: towards zero.
  function TruncDiv(a: int, b: int): int
    requires b > 0
  {
    if a >= 0 then a / b else -((-a) / b)
  }

  function MasterWidth(width: int, ratio: nat): (r: int)
    ensures 0 <= width ==> 0 <= r <= width
  {
    var share := Clamp(ratio, 1000, 9000);
    if width >= 0 then ShareBounds(width, share); TruncDiv(width * share, 10000)
    else TruncDiv(width * share, 10000)
  }

  lemma ShareBounds(width: nat, share: nat)
    requires share <= 10000
    ensures 0 <= width * share / 10000 <= width
  {
    MulMono(share, 10000, width);
    FloorMono(width * share, width * 10000, 10000);
  }

  // The master takes its share of the width, rounded down, and never less than a
  // tenth or more than nine tenths.
  lemma MasterShare(width: nat, ratio: nat)
    ensures var r := MasterWidth(width, ratio);
            && width / 10 <= r <= width * 9 / 10
            && (1000 <= ratio <= 9000 ==> 10000 * r <= width * ratio < 10000 * (r + 1))
  {
    var share := Clamp(ratio, 1000, 9000);
    var part := width * share;
    MulMono(1000, share, width);
    MulMono(share, 9000, width);
    assert width * 1000 <= part <= width * 9000;
    FloorMono(width * 1000, part, 10000);
    FloorMono(part, width * 9000, 10000);
  }

  // ------------------------------------------------------------------
  // Weighted heights

  ghost function Prefix(weights: seq<nat>, i: nat): (s: nat)
    requires i <= |weights|
    ensures i <= s
  {
    if i == 0 then 0 else Prefix(weights, i - 1) + Max(weights[i - 1], 1)
  }

  ghost function Total(weights: seq<nat>): nat { Prefix(weights, |weights|) }

  // Where slot i starts: the floor of its exact share of the height.
  ghost function Cut(height: int, weights: seq<nat>, i: nat): int
    requires i <= |weights| && weights != []
  {
    TruncDiv(height * Prefix(weights, i), Total(weights))
  }

  ghost function Cuts(height: int, weights: seq<nat>): (r: seq<int>)
    ensures |r| == |weights| + 1 && r[0] == 0
    ensures weights != [] ==> forall i :: 0 <= i <= |weights| ==> r[i] == Cut(height, weights, i)
  {
    if weights == [] then [0]
    else
      assert height * Prefix(weights, 0) == 0;
      seq(|weights| + 1, i requires 0 <= i <= |weights| => Cut(height, weights, i))
  }

  method SumWeights(weights: seq<nat>) returns (total: nat)
    ensures total == Total(weights)
  {
    total := 0;
    for i := 0 to |weights|
      invariant total == Prefix(weights, i)
    {
      total := total + Max(weights[i], 1);
    }
  }

  method WeightedHeights(height: int, weights: seq<nat>) returns (heights: seq<int>)
    ensures |heights| == |weights|
    ensures forall i :: 0 <= i < |weights| ==>
              heights[i] == Cut(height, weights, i + 1) - Cut(height, weights, i)
  {
    var total := SumWeights(weights);
    var used := 0;
    var cumulative := 0;
    heights := [];
    for i := 0 to |weights|
      invariant |heights| == i
      invariant cumulative == Prefix(weights, i)
      invariant weights != [] ==> used == Cut(height, weights, i)
      invariant forall k :: 0 <= k < i ==>
                  heights[k] == Cut(height, weights, k + 1) - Cut(height, weights, k)
    {
      cumulative := cumulative + Max(weights[i], 1);
      var end := TruncDiv(height * cumulative, total);
      heights := heights + [end - used];
      used := end;
    }
  }

  lemma {:induction false} PrefixMonotone(weights: seq<nat>, i: nat, j: nat)
    requires i <= j <= |weights|
    ensures Prefix(weights, i) + (j - i) <= Prefix(weights, j)
    decreases j
  {
    if i < j {
      PrefixMonotone(weights, i, j - 1);
    }
  }

  lemma CutFloor(height: nat, weights: seq<nat>, i: nat)
    requires weights != [] && i <= |weights|
    ensures Cut(height, weights, i) == height * Prefix(weights, i) / Total(weights)
  {
    MulMono(0, height, Prefix(weights, i));
  }

  // Cuts run from the top edge to the bottom edge without turning back.
  lemma CutsRise(height: nat, weights: seq<nat>, i: nat, j: nat)
    requires weights != [] && i <= j <= |weights|
    ensures Cut(height, weights, i) <= Cut(height, weights, j)
  {
    PrefixMonotone(weights, i, j);
    MulMono(Prefix(weights, i), Prefix(weights, j), height);
    FloorMono(height * Prefix(weights, i), height * Prefix(weights, j), Total(weights));
    CutFloor(height, weights, i);
    CutFloor(height, weights, j);
  }

  lemma CutsSpan(height: nat, weights: seq<nat>, i: nat, j: nat)
    requires weights != [] && i <= j <= |weights|
    ensures Cut(height, weights, 0) == 0 && Cut(height, weights, |weights|) == height
    ensures 0 <= Cut(height, weights, i) <= Cut(height, weights, j) <= height
  {
    CutFloor(height, weights, 0);
    assert height * 0 == 0;
    FloorExact(0, Total(weights));
    CutFloor(height, weights, |weights|);
    FloorExact(height, Total(weights));
    CutsRise(height, weights, 0, i);
    CutsRise(height, weights, i, j);
    CutsRise(height, weights, j, |weights|);
  }

  // Every slot height is within one pixel of its exact share of the height.
  lemma HeightNearShare(height: nat, weights: seq<nat>, i: nat)
    requires i < |weights|
    ensures var h := Cut(height, weights, i + 1) - Cut(height, weights, i);
            Abs(h * Total(weights) - height * Max(weights[i], 1)) < Total(weights)
  {
    var c, w := Prefix(weights, i), Max(weights[i], 1);
    CutFloor(height, weights, i);
    CutFloor(height, weights, i + 1);
    FloorGap(height * c, height * (c + w), Total(weights));
    Distribute(height, c, w);
  }

  // ------------------------------------------------------------------
  // Slots

  ghost predicate Contains(r: Rect, x: int, y: int) {
    r.x <= x < r.x + r.w && r.y <= y < r.y + r.h
  }

  ghost predicate Inside(inner: Rect, outer: Rect) {
    && outer.x <= inner.x && inner.x + inner.w <= outer.x + outer.w
    && outer.y <= inner.y && inner.y + inner.h <= outer.y + outer.h
  }

  ghost predicate Disjoint(a: Rect, b: Rect) {
    forall x, y :: !(Contains(a, x, y) && Contains(b, x, y))
  }

  ghost predicate Covered(slots: seq<Rect>, x: int, y: int) {
    exists k :: 0 <= k < |slots| && Contains(slots[k], x, y)
  }

  // Slots tile the area: none sticks out and every pixel lies in exactly one.
  ghost predicate Tiles(area: Rect, slots: seq<Rect>) {
    && (forall k :: 0 <= k < |slots| ==> Inside(slots[k], area) && slots[k].w >= 0 && slots[k].h >= 0)
    && (forall x, y :: Contains(area, x, y) ==> Covered(slots, x, y))
    && (forall j, k :: 0 <= j < k < |slots| ==> Disjoint(slots[j], slots[k]))
  }

  // The even split that fixes the columns.
  method MasterStackLayout(output: Size, count: nat, ratio: nat) returns (tiles: seq<Rect>)
    ensures |tiles| == count
    ensures count == 1 ==> tiles == [Rect(0, 0, output.w, output.h)]
    ensures count >= 2 ==> tiles[0] == Rect(0, 0, MasterWidth(output.w, ratio), output.h)
    ensures forall k :: 1 <= k < count ==>
              && tiles[k].x == MasterWidth(output.w, ratio)
              && tiles[k].w == output.w - MasterWidth(output.w, ratio)
              && tiles[k].y == (if k == 1 then 0 else tiles[k - 1].y + tiles[k - 1].h)
    ensures forall k :: 1 <= k < count - 1 ==> tiles[k].h == TruncDiv(output.h, count - 1)
    ensures count >= 2 ==> tiles[count - 1].y + tiles[count - 1].h == output.h
  {
    if count == 0 {
      return [];
    }
    if count == 1 {
      return [Rect(0, 0, output.w, output.h)];
    }
    var master := MasterWidth(output.w, ratio);
    var stackCount := count - 1;
    var stackHeight := TruncDiv(output.h, stackCount);
    tiles := [Rect(0, 0, master, output.h)];
    for index := 0 to stackCount
      invariant |tiles| == index + 1
      invariant tiles[0] == Rect(0, 0, master, output.h)
      invariant forall k :: 1 <= k <= index ==>
                  && tiles[k].x == master && tiles[k].w == output.w - master
                  && tiles[k].y == (k - 1) * stackHeight
                  && tiles[k].h == if k == stackCount then output.h - (k - 1) * stackHeight else stackHeight
    {
      var y := index * stackHeight;
      var height := if index + 1 == stackCount then output.h - y else stackHeight;
      tiles := tiles + [Rect(master, y, output.w - master, height)];
    }
    forall k | 2 <= k < count
      ensures tiles[k].y == tiles[k - 1].y + tiles[k - 1].h
    {
      assert (k - 1) * stackHeight == (k - 2) * stackHeight + stackHeight;
    }
  }

  // The slot of tile k; weights belong to the stack, that is to tiles 1, 2, ...
  ghost function Slot(area: Rect, weights: seq<nat>, ratio: nat, count: nat, k: nat): Rect
    requires k < count && |weights| == count - 1
  {
    var master := MasterWidth(area.w, ratio);
    if count == 1 then area
    else if k == 0 then Rect(area.x, area.y, master, area.h)
    else Rect(area.x + master, area.y + Cut(area.h, weights, k - 1),
              area.w - master, Cut(area.h, weights, k) - Cut(area.h, weights, k - 1))
  }

  // One window takes the whole area. Of more the first is the master, on the left
  // over the whole height; the others lie right of it from top to bottom, each
  // below the one before, down to the end, at heights by their weights.
  lemma SlotPlaces(area: Rect, weights: seq<nat>, ratio: nat, count: nat, k: nat)
    requires k < count && |weights| == count - 1 && area.h >= 0
    ensures var s, master := Slot(area, weights, ratio, count, k), MasterWidth(area.w, ratio);
            && (count == 1 ==> s == area)
            && (count > 1 && k == 0 ==> s == Rect(area.x, area.y, master, area.h))
            && (k >= 1 ==>
                  && s.x == area.x + master && s.x + s.w == area.x + area.w
                  && s.y == (if k == 1 then area.y
                             else Slot(area, weights, ratio, count, k - 1).y
                                  + Slot(area, weights, ratio, count, k - 1).h)
                  && (k == count - 1 ==> s.y + s.h == area.y + area.h)
                  && Abs(s.h * Total(weights) - area.h * Max(weights[k - 1], 1)) < Total(weights))
  {
    if k >= 1 {
      CutsSpan(area.h, weights, k - 1, k);
      HeightNearShare(area.h, weights, k - 1);
    }
  }

  // Stretch the stack rows to given heights, whose running sums are the cuts.
  method StretchStack(even: seq<Rect>, heights: seq<int>, ghost cuts: seq<int>) returns (tiles: seq<Rect>)
    requires even == [] ==> heights == []
    requires even != [] ==> |heights| == |even| - 1
    requires |cuts| == |heights| + 1 && cuts[0] == 0
    requires forall i :: 0 <= i < |heights| ==> heights[i] == cuts[i + 1] - cuts[i]
    ensures |tiles| == |even| && (even != [] ==> tiles[0] == even[0])
    ensures forall k :: 1 <= k < |even| ==>
              tiles[k] == Rect(even[k].x, cuts[k - 1], even[k].w, cuts[k] - cuts[k - 1])
  {
    var y := 0;
    tiles := even;
    for i := 0 to |heights|
      invariant |tiles| == |even| && (even != [] ==> tiles[0] == even[0])
      invariant y == cuts[i]
      invariant forall k :: i < k < |even| ==> tiles[k] == even[k]
      invariant forall k :: 1 <= k <= i ==>
                  tiles[k] == Rect(even[k].x, cuts[k - 1], even[k].w, cuts[k] - cuts[k - 1])
    {
      tiles := tiles[i + 1 := tiles[i + 1].(y := y, h := heights[i])];
      y := y + heights[i];
    }
  }

  method BaseSlots(area: Rect, count: nat, weights: seq<nat>, ratio: nat) returns (slots: seq<Rect>)
    requires |weights| == if count == 0 then 0 else count - 1
    ensures |slots| == count
    ensures forall k :: 0 <= k < count ==> slots[k] == Slot(area, weights, ratio, count, k)
    ensures count > 0 && area.w >= 0 && area.h >= 0 ==> Tiles(area, slots)
  {
    var even := MasterStackLayout(Size(area.w, area.h), count, ratio);
    var heights := WeightedHeights(area.h, weights);
    ghost var cuts := Cuts(area.h, weights);
    var tiles := StretchStack(even, heights, cuts);
    slots := [];
    for k := 0 to count
      invariant |slots| == k
      invariant forall j :: 0 <= j < k ==> slots[j] == Slot(area, weights, ratio, count, j)
    {
      slots := slots + [tiles[k].(x := area.x + tiles[k].x, y := area.y + tiles[k].y)];
    }
    if count > 0 && area.w >= 0 && area.h >= 0 {
      SlotsTile(area, weights, ratio, count, slots);
    }
  }

  // The stack slot holding a given row.
  lemma {:induction false} RowInSlot(height: nat, weights: seq<nat>, row: nat, n: nat) returns (i: nat)
    requires weights != [] && n <= |weights| && row < Cut(height, weights, n)
    ensures i < n && Cut(height, weights, i) <= row < Cut(height, weights, i + 1)
  {
    CutsSpan(height, weights, 0, 0);
    if row < Cut(height, weights, n - 1) {
      i := RowInSlot(height, weights, row, n - 1);
    } else {
      i := n - 1;
    }
  }

  lemma SlotsTile(area: Rect, weights: seq<nat>, ratio: nat, count: nat, slots: seq<Rect>)
    requires area.w >= 0 && area.h >= 0 && count > 0 && |weights| == count - 1 && |slots| == count
    requires forall k :: 0 <= k < count ==> slots[k] == Slot(area, weights, ratio, count, k)
    ensures Tiles(area, slots)
  {
    forall k | 0 <= k < count
      ensures Inside(slots[k], area) && slots[k].w >= 0 && slots[k].h >= 0
    {
      if k > 0 {
        CutsSpan(area.h, weights, k - 1, k);
      }
    }
    forall x, y | Contains(area, x, y) ensures Covered(slots, x, y) {
      if count == 1 || x < area.x + MasterWidth(area.w, ratio) {
        assert Contains(slots[0], x, y);
      } else {
        CutsSpan(area.h, weights, 0, 0);
        var i := RowInSlot(area.h, weights, y - area.y, |weights|);
        assert Contains(slots[i + 1], x, y);
      }
    }
    forall j, k | 0 <= j < k < |slots| ensures Disjoint(slots[j], slots[k]) {
      if j > 0 {
        CutsRise(area.h, weights, j, k - 1);
      }
    }
  }

  // ------------------------------------------------------------------
  // Renormalization

  ghost function Sum(weights: seq<nat>): nat {
    if weights == [] then 0 else Sum(weights[..|weights| - 1]) + weights[|weights| - 1]
  }

  method PlainSum(weights: seq<nat>) returns (sum: nat)
    ensures sum == Sum(weights)
  {
    sum := 0;
    for i := 0 to |weights|
      invariant sum == Sum(weights[..i])
    {
      assert weights[..i + 1][..i] == weights[..i];
      sum := sum + weights[i];
    }
    assert weights[..|weights|] == weights;
  }

  ghost predicate OnTarget(weights: seq<nat>) {
    Sum(weights) == WEIGHT_UNIT * |weights|
  }

  // One weight after scaling the sum to the target.
  function Rescale(weight: nat, target: nat, sum: nat): nat
    requires sum > 0
  {
    Clamp(weight * target / sum, 1, U32_MAX)
  }

  ghost function Normalized(weights: seq<nat>): (r: seq<nat>)
    ensures |r| == |weights|
  {
    if Sum(weights) == 0 || OnTarget(weights) then weights
    else seq(|weights|, i requires 0 <= i < |weights| =>
               Rescale(weights[i], WEIGHT_UNIT * |weights|, Sum(weights)))
  }

  ghost predicate Positive(weights: seq<nat>) {
    forall i :: 0 <= i < |weights| ==> weights[i] >= 1
  }

  lemma {:induction false} WeightInSum(weights: seq<nat>, i: nat)
    requires i < |weights|
    ensures weights[i] <= Sum(weights)
  {
    if i < |weights| - 1 {
      WeightInSum(weights[..|weights| - 1], i);
    }
  }

  // One rescaled weight is positive, within the target, and off by less than one unit.
  lemma ScaledWeight(w: nat, target: nat, sum: nat)
    requires 1 <= w <= sum && 0 < target <= U32_MAX
    ensures 1 <= Rescale(w, target, sum) <= target
    ensures Rescale(w, target, sum) == Max(w * target / sum, 1)
    ensures w * target - sum < Rescale(w, target, sum) * sum < w * target + sum
  {
    DivMod(w * target, sum);
    MulMono(w, sum, target);
    FloorMono(w * target, sum * target, sum);
    FloorExact(target, sum);
    MulMono(1, w, target);
    FloorMono(0, w * target, sum);
    assert 1 * sum == sum;
  }

  // The rounding errors of scaled weights add up to less than a unit each.
  lemma {:induction false} ScaledSums(weights: seq<nat>, scaled: seq<nat>, target: nat, sum: nat)
    requires |scaled| == |weights| && Positive(weights) && sum > 0 && 0 < target <= U32_MAX
    requires forall i :: 0 <= i < |weights| ==> weights[i] <= sum && scaled[i] == Rescale(weights[i], target, sum)
    ensures weights != [] ==>
              Sum(weights) * target - sum * |weights| < Sum(scaled) * sum < Sum(weights) * target + sum * |weights|
  {
    if weights != [] {
      var n := |weights| - 1;
      ScaledSums(weights[..n], scaled[..n], target, sum);
      ScaledWeight(weights[n], target, sum);
      AddScaled(Sum(weights[..n]), weights[n], target, Sum(scaled[..n]), scaled[n], sum, n);
      if n == 0 {
        assert Sum(weights) == weights[0] && Sum(scaled) == scaled[0];
      }
    }
  }

  lemma AddScaled(s: nat, w: nat, target: nat, c: nat, v: nat, sum: nat, n: nat)
    ensures (s + w) * target == s * target + w * target
    ensures (c + v) * sum == c * sum + v * sum
    ensures sum * (n + 1) == sum * n + sum
  {
  }

  // Rescaled weights never exceed the target, however many windows share it.
  lemma RescaleCapped(w: nat, target: nat, sum: nat)
    requires 1 <= w <= sum && 0 < target
    ensures 1 <= Rescale(w, target, sum) <= target
  {
    MulMono(w, sum, target);
    FloorMono(w * target, sum * target, sum);
    FloorExact(target, sum);
  }

  lemma NormalizedCapped(weights: seq<nat>, i: nat)
    requires Positive(weights) && i < |weights|
    ensures 1 <= Normalized(weights)[i] <= WEIGHT_UNIT * |weights|
  {
    WeightInSum(weights, i);
    if !OnTarget(weights) {
      RescaleCapped(weights[i], WEIGHT_UNIT * |weights|, Sum(weights));
    }
  }

  // Renormalizing keeps weights positive and bounded, keeps their order, and
  // brings the sum to strictly within one unit per window of the target.
  lemma NormalizedBounds(weights: seq<nat>)
    requires Positive(weights) && weights != [] && WEIGHT_UNIT * |weights| <= U32_MAX
    ensures var r, target := Normalized(weights), WEIGHT_UNIT * |weights|;
            && Positive(r)
            && (forall i :: 0 <= i < |r| ==> r[i] <= target)
            && (forall i, j :: 0 <= i < |r| && 0 <= j < |r| && weights[i] <= weights[j] ==> r[i] <= r[j])
            && target - |weights| < Sum(r) < target + |weights|
  {
    var n, sum := |weights|, Sum(weights);
    var target, r := WEIGHT_UNIT * n, Normalized(weights);
    WeightInSum(weights, 0);
    forall i | 0 <= i < n ensures weights[i] <= sum {
      WeightInSum(weights, i);
    }
    if !OnTarget(weights) {
      forall i | 0 <= i < n ensures 1 <= r[i] <= target {
        ScaledWeight(weights[i], target, sum);
      }
      forall i, j | 0 <= i < n && 0 <= j < n && weights[i] <= weights[j] ensures r[i] <= r[j] {
        ScaledOrder(weights[i], weights[j], target, sum);
      }
      ScaledSums(weights, r, target, sum);
      CancelFactor(Sum(r), target, n, sum);
    }
  }

  lemma ScaledOrder(v: nat, w: nat, target: nat, sum: nat)
    requires v <= w && 0 < sum
    ensures Rescale(v, target, sum) <= Rescale(w, target, sum)
  {
    MulMono(v, w, target);
    FloorMono(v * target, w * target, sum);
  }

  lemma CancelFactor(a: int, t: int, n: int, s: int)
    requires s > 0 && s * t - s * n < a * s < s * t + s * n
    ensures t - n < a < t + n
  {
    assert (t - n) * s == s * t - s * n && (t + n) * s == s * t + s * n;
    CancelLess(t - n, a, s);
    CancelLess(a, t + n, s);
  }

  // Exactly when renormalizing leaves weights as they are.
  ghost predicate Settled(weights: seq<nat>) {
    var sum, target := Sum(weights), WEIGHT_UNIT * |weights|;
    sum == target
    || (sum < target && forall i :: 0 <= i < |weights| ==> weights[i] * (target - sum) < sum)
  }

  lemma NormalizedFixed(weights: seq<nat>)
    requires Positive(weights) && WEIGHT_UNIT * |weights| <= U32_MAX
    ensures Normalized(weights) == weights <==> Settled(weights)
  {
    var n, sum := |weights|, Sum(weights);
    var target := WEIGHT_UNIT * n;
    if n > 0 && sum != target {
      WeightInSum(weights, 0);
      forall i | 0 <= i < n
        ensures Normalized(weights)[i] == weights[i]
            <==> (if sum < target then weights[i] * (target - sum) < sum else weights[i] == 1)
      {
        WeightInSum(weights, i);
        RescaleFixed(weights[i], target, sum);
      }
      if sum > target {
        var i := HeavyWeight(weights);
        assert Normalized(weights)[i] != weights[i];
      }
    }
  }

  lemma RescaleFixed(w: nat, target: nat, sum: nat)
    requires 1 <= w <= sum && 0 < target <= U32_MAX && sum != target
    ensures Rescale(w, target, sum) == w
        <==> (if sum < target then w * (target - sum) < sum else w == 1)
  {
    ScaledWeight(w, target, sum);
    if sum < target {
      var e := w * (target - sum);
      assert w * target == w * sum + e;
      MulMono(0, target - sum, w);
      if e < sum {
        FloorIs(w * target, sum, w);
      } else {
        FloorAbove(w, w * target, sum);
      }
    } else {
      MulMono(1, sum - target, w);
      assert w * target == w * sum - w * (sum - target);
      FloorBelow(w, w * target, sum);
    }
  }

  lemma FloorAbove(w: nat, a: int, sum: nat)
    requires sum > 0 && a >= w * sum + sum
    ensures a / sum > w
  {
    assert (w + 1) * sum == w * sum + sum;
    FloorMono((w + 1) * sum, a, sum);
    FloorExact(w + 1, sum);
  }

  lemma FloorBelow(w: nat, a: int, sum: nat)
    requires sum > 0 && a < w * sum
    ensures a / sum < w
  {
    DivMod(a, sum);
    CancelLess(a / sum, w, sum);
  }

  lemma {:induction false} HeavyWeight(weights: seq<nat>) returns (i: nat)
    requires Sum(weights) > WEIGHT_UNIT * |weights|
    ensures i < |weights| && weights[i] > WEIGHT_UNIT
  {
    var n := |weights| - 1;
    if weights[n] > WEIGHT_UNIT {
      i := n;
    } else {
      i := HeavyWeight(weights[..n]);
    }
  }

  lemma {:induction false} PositiveTotal(weights: seq<nat>, i: nat)
    requires Positive(weights) && i <= |weights|
    ensures Prefix(weights, i) == Sum(weights[..i])
  {
    if i > 0 {
      PositiveTotal(weights, i - 1);
      assert weights[..i][..i - 1] == weights[..i - 1];
    }
  }

  // After a renormalization no product of the height split leaves the i64 range.
  lemma HeightProductFits(height: int, weights: seq<nat>, i: nat)
    requires Positive(weights) && 0 < |weights| <= 400000 && i <= |weights|
    requires -0x8000_0000 <= height <= 0x7FFF_FFFF
    ensures Abs(height * Prefix(Normalized(weights), i)) <= I64_MAX
  {
    NormalizedBounds(weights);
    var w := Normalized(weights);
    PrefixMonotone(w, i, |w|);
    PositiveTotal(w, |w|);
    assert w[..|w|] == w;
    var c := Prefix(w, i);
    MulMono(-0x8000_0000, height, c);
    MulMono(height, 0x7FFF_FFFF, c);
  }

  lemma {:induction false} PrefixCapped(weights: seq<nat>, cap: nat, i: nat)
    requires i <= |weights| && forall k :: 0 <= k < |weights| ==> 1 <= weights[k] <= cap
    ensures Prefix(weights, i) <= i * cap
  {
    if i > 0 {
      PrefixCapped(weights, cap, i - 1);
    }
  }

  // Nor does one for weights that were capped but not renormalized since.
  lemma CappedProductFits(height: int, weights: seq<nat>, cap: nat, i: nat)
    requires i <= |weights| && forall k :: 0 <= k < |weights| ==> 1 <= weights[k] <= cap
    requires |weights| * cap <= 0xFFFF_FFFF && -0x8000_0000 <= height <= 0x7FFF_FFFF
    ensures Abs(height * Prefix(weights, i)) <= I64_MAX
  {
    PrefixCapped(weights, cap, i);
    MulMono(i, |weights|, cap);
    var c := Prefix(weights, i);
    MulMono(-0x8000_0000, height, c);
    MulMono(height, 0x7FFF_FFFF, c);
  }

  // ------------------------------------------------------------------
  // Dragging a stack divider

  // The requested height of the upper slot.
  function RequestedHeight(upper: int, lower: int, delta: int): (h: int)
    requires upper + lower >= 2
    ensures 1 <= h < upper + lower
  {
    var total := upper + lower;
    var minimum := Max(Min(64, total / 2), 1);
    Clamp(upper + delta, minimum, total - minimum)
  }

  ghost function DraggedWeights(weights: seq<nat>, pair: nat, upper: int, lower: int, delta: int): (r: seq<nat>)
    requires pair + 1 < |weights| && upper + lower >= 2
    requires weights[pair] + weights[pair + 1] >= 2
    ensures |r| == |weights|
  {
    var both := weights[pair] + weights[pair + 1];
    var first := Clamp(both * RequestedHeight(upper, lower, delta) / (upper + lower), 1, both - 1);
    weights[pair := first][pair + 1 := both - first]
  }

  lemma {:induction false} SumUpdate(weights: seq<nat>, i: nat, w: nat)
    requires i < |weights|
    ensures Sum(weights[i := w]) == Sum(weights) - weights[i] + w
  {
    var n := |weights| - 1;
    if i < n {
      assert weights[i := w][..n] == weights[..n][i := w];
      SumUpdate(weights[..n], i, w);
    } else {
      assert weights[i := w][..n] == weights[..n];
    }
  }

  lemma DragKeepsSum(weights: seq<nat>, pair: nat, upper: int, lower: int, delta: int)
    requires pair + 1 < |weights| && upper + lower >= 2 && Positive(weights)
    ensures var r := DraggedWeights(weights, pair, upper, lower, delta);
            Sum(r) == Sum(weights) && Positive(r)
  {
    var r := DraggedWeights(weights, pair, upper, lower, delta);
    SumUpdate(weights, pair, r[pair]);
    SumUpdate(weights[pair := r[pair]], pair + 1, r[pair + 1]);
  }

  lemma {:induction false} SamePrefix(a: seq<nat>, b: seq<nat>, i: nat)
    requires i <= |a| && i <= |b| && a[..i] == b[..i]
    ensures Prefix(a, i) == Prefix(b, i)
  {
    if i > 0 {
      assert a[..i][..i - 1] == a[..i - 1] && b[..i][..i - 1] == b[..i - 1];
      SamePrefix(a, b, i - 1);
      assert a[i - 1] == a[..i][i - 1] && b[i - 1] == b[..i][i - 1];
    }
  }

  lemma {:induction false} PrefixAfterPair(a: seq<nat>, b: seq<nat>, pair: nat, i: nat)
    requires |a| == |b| && pair + 2 <= i <= |a| && Positive(a) && Positive(b)
    requires a[..pair] == b[..pair] && a[pair + 2..] == b[pair + 2..]
    requires a[pair] + a[pair + 1] == b[pair] + b[pair + 1]
    ensures Prefix(a, i) == Prefix(b, i)
    decreases i
  {
    if i == pair + 2 {
      SamePrefix(a, b, pair);
      assert Prefix(a, pair + 2) == Prefix(a, pair) + a[pair] + a[pair + 1];
      assert Prefix(b, pair + 2) == Prefix(b, pair) + b[pair] + b[pair + 1];
    } else {
      PrefixAfterPair(a, b, pair, i - 1);
      assert a[i - 1] == a[pair + 2..][i - pair - 3] == b[pair + 2..][i - pair - 3] == b[i - 1];
    }
  }

  // A divider drag moves one cut and no other: the remaining slots and the
  // pair's combined height stay, and with weights on target they stay on target.
  lemma DividerMovesOneCut(height: int, weights: seq<nat>, pair: nat, upper: int, lower: int, delta: int, i: nat)
    requires pair + 1 < |weights| && upper + lower >= 2 && Positive(weights)
    requires i <= |weights| && i != pair + 1
    ensures var r := DraggedWeights(weights, pair, upper, lower, delta);
            && Cut(height, r, i) == Cut(height, weights, i)
            && (OnTarget(weights) ==> Normalized(r) == r)
  {
    var r := DraggedWeights(weights, pair, upper, lower, delta);
    DragKeepsSum(weights, pair, upper, lower, delta);
    PrefixAfterPair(weights, r, pair, |weights|);
    if i <= pair {
      assert weights[..i] == r[..i];
      SamePrefix(weights, r, i);
    } else {
      PrefixAfterPair(weights, r, pair, i);
    }
  }

  // The dragged divider lands within two pixels of the request.
  lemma DividerLandsNearRequest(height: nat, weights: seq<nat>, pair: nat, delta: int)
    requires pair + 1 < |weights| && Positive(weights) && height <= Total(weights)
    requires Cut(height, weights, pair + 2) - Cut(height, weights, pair) >= 2
    ensures var upper := Cut(height, weights, pair + 1) - Cut(height, weights, pair);
            var lower := Cut(height, weights, pair + 2) - Cut(height, weights, pair + 1);
            var r := DraggedWeights(weights, pair, upper, lower, delta);
            var h := RequestedHeight(upper, lower, delta);
            h - 2 <= Cut(height, r, pair + 1) - Cut(height, r, pair) <= h + 1
  {
    var upper := Cut(height, weights, pair + 1) - Cut(height, weights, pair);
    var lower := Cut(height, weights, pair + 2) - Cut(height, weights, pair + 1);
    var r := DraggedWeights(weights, pair, upper, lower, delta);
    var h := RequestedHeight(upper, lower, delta);
    DragKeepsSum(weights, pair, upper, lower, delta);
    PrefixAfterPair(weights, r, pair, |weights|);
    SamePrefix(weights, r, pair);
    var c, both := Prefix(weights, pair), weights[pair] + weights[pair + 1];
    assert Prefix(weights, pair + 2) == c + both;
    CutFloor(height, weights, pair);
    CutFloor(height, weights, pair + 2);
    CutNearRequest(height, c, both, Total(weights), h);
    CutFloor(height, r, pair);
    CutFloor(height, r, pair + 1);
    assert Prefix(r, pair + 1) == c + r[pair];
  }

  lemma CutNearRequest(height: nat, c: nat, w: nat, t: nat, h: int)
    requires height <= t && t > 0 && w >= 2
    requires 1 <= h < height * (c + w) / t - height * c / t
    ensures var th := height * (c + w) / t - height * c / t;
            var f := Clamp(w * h / th, 1, w - 1);
            h - 2 <= height * (c + f) / t - height * c / t <= h + 1
  {
    var th := height * (c + w) / t - height * c / t;
    PairGap(height, c, w, t, th);
    SlotNotWiderThanWeight(height, w, t, th);
    QuotientInside(w, h, th);
    var f := w * h / th;
    ScaledCut(height, w, t, th, h, f);
    Distribute(height, c, f);
    FloorWindow(height * c, t, height * f, h);
  }

  lemma Distribute(k: int, a: int, b: int)
    ensures k * (a + b) == k * a + k * b
  {
  }

  lemma PairGap(height: nat, c: nat, w: nat, t: nat, th: int)
    requires t > 0 && th == height * (c + w) / t - height * c / t
    ensures th * t < height * w + t && height * w < th * t + t
  {
    FloorGap(height * c, height * (c + w), t);
    Distribute(height, c, w);
  }

  lemma SlotNotWiderThanWeight(height: nat, w: nat, t: nat, th: nat)
    requires height <= t && th * t < height * w + t
    ensures th <= w
  {
    MulMono(height, t, w);
    assert (w + 1) * t == t * w + t;
    CancelLess(th, w + 1, t);
  }

  lemma QuotientInside(w: nat, h: nat, th: nat)
    requires 1 <= h < th <= w
    ensures 1 <= w * h / th <= w - 1
  {
    MulMono(1, h, w);
    FloorMono(1 * th, w * h, th);
    FloorExact(1, th);
    MulMono(h, th - 1, w);
    assert w * (th - 1) == w * th - w;
    DivMod(w * h, th);
    CancelLess(w * h / th, w, th);
  }

  // Scaling the pair's weight by a height fraction scales its cut by the same fraction, up to two pixels.
  lemma ScaledCut(height: nat, w: nat, t: nat, th: nat, h: nat, f: nat)
    requires height <= t && th * t < height * w + t && height * w < th * t + t
    requires 1 <= h < th && f == w * h / th
    ensures (h - 2) * t < height * f < (h + 1) * t
  {
    FlooredProduct(height, w, t, th, h, f);
    ScaledProduct(height * w, t, th, h);
    Between(height * f * th, height * w * h, th * t * h, th * t, t);
    RegroupCut(h, t, th);
    CancelLess((h - 2) * t, height * f, th);
    CancelLess(height * f, (h + 1) * t, th);
  }

  lemma Between(a: int, b: int, y: int, z: int, t: nat)
    requires a <= b <= a + z - t && y - z + t < b < y + z
    ensures y - 2 * z < a < y + z
  {
  }

  lemma RegroupCut(h: int, t: int, th: int)
    ensures (h - 2) * t * th == th * t * h - 2 * (th * t)
    ensures (h + 1) * t * th == th * t * h + th * t
  {
    var z := th * t;
    assert (h - 2) * t * th == z * (h - 2) && (h + 1) * t * th == z * (h + 1);
  }

  lemma FlooredProduct(height: nat, w: nat, t: nat, th: nat, h: nat, f: nat)
    requires height <= t && 0 < th && f == w * h / th
    ensures height * f * th <= height * w * h <= height * f * th + th * t - t
  {
    DivMod(w * h, th);
    MulMono(f * th, w * h, height);
    MulMono(w * h, f * th + (th - 1), height);
    MulMono(height, t, th - 1);
    assert height * (f * th) == height * f * th && height * (w * h) == height * w * h;
    assert height * (f * th + (th - 1)) == height * f * th + height * (th - 1);
    assert t * (th - 1) == th * t - t;
  }

  lemma ScaledProduct(x: nat, t: nat, th: nat, h: nat)
    requires th * t < x + t && x < th * t + t && 1 <= h < th
    ensures th * t * h - th * t + t < x * h < th * t * h + th * t
  {
    var y := th * t;
    MulMono(y - t + 1, x, h);
    MulMono(x, y + t - 1, h);
    assert (y - t + 1) * h == y * h - t * h + h && (y + t - 1) * h == y * h + t * h - h;
    MulMono(h, th - 1, t);
    assert t * (th - 1) == y - t;
  }

  lemma FloorWindow(x: int, t: nat, g: int, h: int)
    requires t > 0 && (h - 2) * t < g < (h + 1) * t
    ensures h - 2 <= (x + g) / t - x / t <= h + 1
  {
    FloorGap(x, x + g, t);
    var k := (x + g) / t - x / t;
    assert (h - 3) * t == (h - 2) * t - t && (h + 2) * t == (h + 1) * t + t;
    CancelLess(h - 3, k, t);
    CancelLess(k, h + 2, t);
  }
}
