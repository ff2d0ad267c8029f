// The few facts about products and floors that the layout proofs rest on.
module Arith {
  lemma MulMono(a: int, b: int, k: int)
    requires a <= b && 0 <= k
    ensures a * k <= b * k && k * a <= k * b
  {
  }

  lemma CancelLess(a: int, b: int, k: int)
    requires a * k < b * k && 0 <= k
    ensures a < b
  {
    if b <= a {
      MulMono(b, a, k);
    }
  }

  lemma DivMod(a: int, d: int)
    requires 0 < d
    ensures (a / d) * d <= a < (a / d) * d + d
  {
  }

  // q is the floor of a / d.
  lemma FloorIs(a: int, d: int, q: int)
    requires 0 < d && q * d <= a < q * d + d
    ensures a / d == q
  {
    DivMod(a, d);
    var p := a / d;
    assert p * d < (q + 1) * d by { assert (q + 1) * d == q * d + d; }
    assert q * d < (p + 1) * d by { assert (p + 1) * d == p * d + d; }
    CancelLess(p, q + 1, d);
    CancelLess(q, p + 1, d);
  }

  lemma FloorMono(a: int, b: int, d: int)
    requires a <= b && 0 < d
    ensures a / d <= b / d
  {
    DivMod(a, d);
    DivMod(b, d);
    var p, q := a / d, b / d;
    assert (q + 1) * d == q * d + d;
    CancelLess(p, q + 1, d);
  }

  lemma FloorExact(q: int, d: int)
    requires 0 < d
    ensures (q * d) / d == q && (d * q) / d == q
  {
    FloorIs(q * d, d, q);
    assert d * q == q * d;
  }

  // Floors of two numbers are as far apart as the numbers, up to one.
  lemma FloorGap(x: int, y: int, d: int)
    requires 0 < d
    ensures (y / d - x / d) * d < y - x + d
    ensures y - x < (y / d - x / d) * d + d
  {
    DivMod(x, d);
    DivMod(y, d);
    var p, q := x / d, y / d;
    assert (q - p) * d == q * d - p * d;
  }
}
