// Renormalizing again and again: weights never come back to where they were,
// unless they never left.
module Settling {
  import opened Arith
  import opened Tiling

  ghost function Iterated(weights: seq<nat>, k: nat): (r: seq<nat>)
    ensures |r| == |weights|
  {
    if k == 0 then weights else Normalized(Iterated(weights, k - 1))
  }

  lemma {:induction false} IteratedAdds(weights: seq<nat>, a: nat, b: nat)
    ensures Iterated(weights, a + b) == Iterated(Iterated(weights, a), b)
    decreases b
  {
    if b > 0 {
      IteratedAdds(weights, a, b - 1);
    }
  }

  // Below its target a sum only lets weights grow, above it only shrink.
  lemma RescaleUp(w: nat, target: nat, sum: nat)
    requires 1 <= w <= sum <= target <= U32_MAX
    ensures w <= Rescale(w, target, sum) && Rescale(w, target, sum) * sum <= w * target
  {
    MulMono(sum, target, w);
    FloorMono(w * sum, w * target, sum);
    FloorExact(w, sum);
    ScaledWeight(w, target, sum);
    DivMod(w * target, sum);
  }

  lemma RescaleDown(w: nat, target: nat, sum: nat)
    requires 1 <= w <= sum && 0 < target <= U32_MAX && target <= sum
    ensures 1 <= Rescale(w, target, sum) <= w
  {
    MulMono(target, sum, w);
    FloorMono(w * target, w * sum, sum);
    FloorExact(w, sum);
    ScaledWeight(w, target, sum);
  }

  lemma {:induction false} ScaledWithin(weights: seq<nat>, scaled: seq<nat>, target: nat, sum: nat)
    requires |scaled| == |weights|
    requires forall i :: 0 <= i < |weights| ==> scaled[i] * sum <= weights[i] * target
    ensures Sum(scaled) * sum <= Sum(weights) * target
  {
    if weights != [] {
      var n := |weights| - 1;
      ScaledWithin(weights[..n], scaled[..n], target, sum);
      AddScaled(Sum(weights[..n]), weights[n], target, Sum(scaled[..n]), scaled[n], sum, n);
    }
  }

  ghost predicate Bounded(weights: seq<nat>) {
    Positive(weights) && WEIGHT_UNIT * |weights| <= U32_MAX
  }

  ghost predicate Below(weights: seq<nat>) {
    Sum(weights) <= WEIGHT_UNIT * |weights|
  }

  ghost predicate NoMore(a: seq<nat>, b: seq<nat>) {
    |a| == |b| && forall i :: 0 <= i < |a| ==> a[i] <= b[i]
  }

  lemma Grows(weights: seq<nat>)
    requires Bounded(weights) && Below(weights)
    ensures Bounded(Normalized(weights)) && Below(Normalized(weights)) && NoMore(weights, Normalized(weights))
  {
    var sum, target, r := Sum(weights), WEIGHT_UNIT * |weights|, Normalized(weights);
    if weights != [] && sum != target {
      WeightInSum(weights, 0);
      forall i | 0 <= i < |weights| ensures weights[i] <= r[i] && r[i] * sum <= weights[i] * target {
        WeightInSum(weights, i);
        RescaleUp(weights[i], target, sum);
      }
      ScaledWithin(weights, r, target, sum);
      CancelAtMost(Sum(r), target, sum);
    }
  }

  lemma CancelAtMost(a: int, b: int, k: int)
    requires a * k <= k * b && 0 < k
    ensures a <= b
  {
    assert (b + 1) * k == k * b + k;
    if b < a {
      MulMono(b + 1, a, k);
    }
  }

  lemma Shrinks(weights: seq<nat>)
    requires Bounded(weights) && !Below(weights)
    ensures Bounded(Normalized(weights)) && NoMore(Normalized(weights), weights)
  {
    var sum, target, r := Sum(weights), WEIGHT_UNIT * |weights|, Normalized(weights);
    forall i | 0 <= i < |weights| ensures 1 <= r[i] <= weights[i] {
      WeightInSum(weights, i);
      RescaleDown(weights[i], target, sum);
    }
  }

  lemma {:induction false} IteratedSide(weights: seq<nat>, k: nat)
    requires Bounded(weights)
    ensures var r := Iterated(weights, k + 1);
            && Bounded(r)
            && (Below(weights) ==> Below(r) && NoMore(Normalized(weights), r))
            && (!Below(weights) ==> Below(r) || NoMore(r, Normalized(weights)))
  {
    if Below(weights) {
      Grows(weights);
    } else {
      Shrinks(weights);
    }
    assert Iterated(weights, 1) == Normalized(Iterated(weights, 0));
    if k > 0 {
      IteratedSide(weights, k - 1);
      var before := Iterated(weights, k);
      if Below(before) {
        Grows(before);
      } else {
        Shrinks(before);
      }
    }
  }

  // However often they are renormalized, weights come back exactly when they are at a fixed point.
  lemma IteratedReturns(weights: seq<nat>, k: nat)
    requires Bounded(weights) && k > 0
    ensures Iterated(weights, k) == weights <==> Settled(weights)
  {
    NormalizedFixed(weights);
    IteratedSide(weights, k - 1);
    if Below(weights) {
      Grows(weights);
    } else {
      Shrinks(weights);
    }
    if Settled(weights) {
      SettledStays(weights, k);
    }
  }

  lemma {:induction false} SettledStays(weights: seq<nat>, k: nat)
    requires Normalized(weights) == weights
    ensures Iterated(weights, k) == weights
  {
    if k > 0 {
      SettledStays(weights, k - 1);
    }
  }
}
