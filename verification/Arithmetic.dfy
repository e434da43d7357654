/** Multiplication, and division that rounds down. */
module Arithmetic {

  lemma FloorMonotone(x: nat, y: nat, n: nat, d: nat)
    requires x <= y && d > 0
    ensures x * n / d <= y * n / d
  {
    assert x * n <= y * n;
    DivMonotone(x * n, y * n, d);
  }

  lemma DivMonotone(x: nat, y: nat, d: nat)
    requires x <= y && d > 0
    ensures x / d <= y / d
  {
    var q, r := x / d, y / d;
    assert x == d * q + x % d && y == d * r + y % d;
    assert q > r ==> d * q >= d * r + d by { MulStep(r, q, d); }
  }

  lemma MulStep(r: int, q: int, d: nat)
    ensures q > r ==> d * q >= d * r + d
  {
    if q > r {
      assert d * q == d * r + d + d * (q - r - 1);
      var n: nat := q - r - 1;
      assert d * n >= 0;
    }
  }

  lemma MulMonotone(x: nat, y: nat, d: nat)
    requires x <= y
    ensures d * x <= d * y
  {
  }

  /** x * n / d, rounded down, times d does not exceed x * n. */
  lemma FloorBelow(x: nat, n: nat, d: nat)
    requires d > 0
    ensures (x * n / d) * d <= x * n
  {
    var q := x * n / d;
    assert x * n == d * q + (x * n) % d;
  }

  lemma FloorWithin(x: nat, n: nat, d: nat, bound: nat)
    requires d > 0 && x * n <= bound * d
    ensures x * n / d <= bound
  {
    var q := x * n / d;
    FloorBelow(x, n, d);
    if q > bound {
      assert q * d >= (bound + 1) * d by { MulMonotone(bound + 1, q, d); }
    }
  }

  lemma RoundsDown(n: nat, d: nat)
    requires d > 0
    ensures n / d * d <= n < (n / d + 1) * d
  {
    var q := n / d;
    assert n == d * q + n % d;
    assert (q + 1) * d == q * d + d;
  }

  lemma Divides(g: nat, x: nat)
    requires g > 0
    ensures g * x / g == x
  {
    var n := g * x;
    var q := n / g;
    assert n == g * q + n % g;
    MulStep(q, x, g);
    MulStep(x, q, g);
  }

  lemma Scale(x: int, y: int, k: nat)
    requires k > 0
    ensures x < y <==> x * k < y * k
  {
    if x < y { assert (y - x) * k > 0; } else { assert (x - y) * k >= 0; }
  }

  lemma CancelFactor(x: int, y: int, k: nat)
    requires k > 0 && x * k <= y * k
    ensures x <= y
  {
    Scale(y, x, k);
  }
}
