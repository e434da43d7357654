/** The call price of a margin position: the price of its debt at which its collateral is down to the required ratio. */
module MarketCallPrice {
  import opened MarketState
  import opened Arithmetic

  const MAX_SHARES: nat := 1_000_000_000_000_000
  const DEFAULT_MCR: nat := 1750

  function Gcd(a: nat, b: nat): (g: nat)
    requires a > 0 || b > 0
    ensures g > 0
    decreases b
  {
    if b == 0 then a else Gcd(b, a % b)
  }

  lemma {:induction false} GcdDivides(a: nat, b: nat) returns (x: nat, y: nat)
    requires a > 0 || b > 0
    ensures a == Gcd(a, b) * x && b == Gcd(a, b) * y
    decreases b
  {
    if b == 0 {
      x, y := 1, 0;
    } else {
      var x', y' := GcdDivides(b, a % b);
      var g := Gcd(a, b);
      var q := a / b;
      x, y := q * x' + y', x';
      assert a == b * q + a % b;
      Combine(g, q, x', y');
    }
  }

  /** Every common divisor divides the greatest one. */
  lemma {:induction false} GcdIsGreatest(a: nat, b: nat, c: nat, x: nat, y: nat) returns (z: nat)
    requires (a > 0 || b > 0) && a == c * x && b == c * y
    ensures Gcd(a, b) == c * z
    decreases b
  {
    if b == 0 {
      z := x;
    } else {
      var q := a / b;
      assert a == b * q + a % b;
      assert a % b == c * (x - y * q) by {
        assert (c * y) * q == c * (y * q);
        assert c * (x - y * q) == c * x - c * (y * q);
      }
      assert x - y * q >= 0 by { Sign(c, x - y * q); }
      z := GcdIsGreatest(b, a % b, c, y, x - y * q);
    }
  }

  lemma Sign(c: nat, z: int)
    requires c > 0 && c * z >= 0
    ensures z >= 0
  {
    assert z <= -1 ==> c * z <= c * -1;
  }

  lemma Combine(g: nat, q: nat, x: nat, y: nat)
    ensures (g * x) * q + g * y == g * (q * x + y)
  {
  }

  /** A fraction in lowest terms. */
  function Reduced(n: nat, d: nat): (r: (nat, nat))
    requires n > 0 && d > 0
    ensures r.0 > 0 && r.1 > 0 && r.0 * d == n * r.1
  {
    var g := Gcd(n, d);
    ReducedSame(n, d);
    (n / g, d / g)
  }

  lemma ReducedSame(n: nat, d: nat)
    requires n > 0 && d > 0
    ensures var g := Gcd(n, d);
            n / g > 0 && d / g > 0 && (n / g) * d == n * (d / g)
  {
    var g := Gcd(n, d);
    var x, y := GcdDivides(n, d);
    Divides(g, x);
    Divides(g, y);
    assert x * (g * y) == (g * x) * y;
    assert x > 0 && y > 0;
  }

  /** No number but one divides both sides. */
  lemma ReducedIsLowest(n: nat, d: nat, c: nat, x: nat, y: nat)
    requires n > 0 && d > 0 && Reduced(n, d) == (c * x, c * y)
    ensures c == 1
  {
    var g := ReducedFactor(n, d);
    assert n == g * (c * x) && d == g * (c * y) && c > 0;
    hide Reduced, Gcd;
    assert n == (g * c) * x && d == (g * c) * y;
    var z := GcdIsGreatest(n, d, g * c, x, y);
    OnlyOne(g, c, z);
  }

  lemma OnlyOne(g: nat, c: nat, z: nat)
    requires g > 0 && c > 0 && g == (g * c) * z
    ensures c == 1
  {
    assert (g * c) * z == g * (c * z);
    Scale(c * z, 1, g);
    Scale(1, c * z, g);
    assert c * z == 1;
    MulMonotone(1, z, c);
  }

  /** Halves a fraction until both sides are legal amounts: the only step that can change its value. */
  function Fit(f: (nat, nat)): (r: (nat, nat))
    requires f.0 > 0 && f.1 > 0
    ensures 0 < r.0 <= MAX_SHARES && 0 < r.1 <= MAX_SHARES
    ensures f.0 <= MAX_SHARES && f.1 <= MAX_SHARES ==> r == f
    decreases f.0 + f.1
  {
    if f.0 > MAX_SHARES || f.1 > MAX_SHARES then
      ReducedSmaller(f.0 / 2 + 1, f.1 / 2 + 1);
      Fit(Reduced(f.0 / 2 + 1, f.1 / 2 + 1))
    else f
  }

  lemma ReducedSmaller(n: nat, d: nat)
    requires n > 0 && d > 0
    ensures Reduced(n, d).0 <= n && Reduced(n, d).1 <= d
  {
    var g := Gcd(n, d);
    DivLess(n, g);
    DivLess(d, g);
  }

  lemma DivLess(n: nat, g: nat)
    requires g > 0
    ensures n / g <= n
  {
    var q := n / g;
    assert n == g * q + n % g;
    MulMonotone(1, g, q);
  }

  /** price::call_price */
  function CallPrice(debt: nat, debtId: AssetId, collateral: nat, collateralId: AssetId, mcr: nat): (p: Price)
    requires debt > 0 && collateral > 0 && mcr > 0
    ensures p.Positive() && p.base <= MAX_SHARES && p.quote <= MAX_SHARES
    ensures p.baseId == collateralId && p.quoteId == debtId
  {
    Product(debt, mcr);
    var (n, d) := Fit(Reduced(debt * mcr, collateral * 1000));
    Price(d, collateralId, n, debtId)
  }

  lemma Product(x: nat, y: nat)
    requires x > 0 && y > 0
    ensures x * y > 0
  {
  }

  /** The call price needs no halving. */
  predicate Fits(debt: nat, collateral: nat, mcr: nat)
    requires debt > 0 && collateral > 0 && mcr > 0
  {
    Product(debt, mcr);
    var (n, d) := Reduced(debt * mcr, collateral * 1000);
    n <= MAX_SHARES && d <= MAX_SHARES
  }

  /** As long as the fraction fits, a position may be called at a feed price exactly when its collateral, at that price,
      is not worth more than the required ratio of its debt. */
  lemma CallPriceMeaning(debt: nat, collateral: nat, mcr: nat, feed: Price)
    requires debt > 0 && collateral > 0 && mcr > 0 && feed.Positive()
    requires Fits(debt, collateral, mcr)
    ensures CallPrice(debt, feed.baseId, collateral, feed.quoteId, mcr).Inverse().Less(feed)
            <==> debt * mcr * feed.quote < collateral * 1000 * feed.base
  {
    Product(debt, mcr);
    var n, d := debt * mcr, collateral * 1000;
    var (n', d') := Reduced(n, d);
    SameValue(n', d', n, d, feed.base, feed.quote);
  }

  lemma SameValue(n': nat, d': nat, n: nat, d: nat, base: nat, quote: nat)
    requires d' > 0 && d > 0 && n' * d == n * d'
    ensures n' * quote < base * d' <==> n * quote < d * base
  {
    calc <==> {
      n' * quote < base * d';
      { Scale(n' * quote, base * d', d); }
      n' * quote * d < base * d' * d;
      { assert n' * quote * d == (n' * d) * quote == (n * d') * quote == (n * quote) * d'; }
      { assert base * d' * d == (d * base) * d'; }
      (n * quote) * d' < (d * base) * d';
      { Scale(n * quote, d * base, d'); }
      n * quote < d * base;
    }
  }

  function Larger(n: nat, d: nat): nat {
    if n > d then n else d
  }

  lemma ReducedFactor(n: nat, d: nat) returns (g: nat)
    requires n > 0 && d > 0
    ensures g > 0 && g == Gcd(n, d) && n == g * Reduced(n, d).0 && d == g * Reduced(n, d).1
  {
    g := Gcd(n, d);
    var x, y := GcdDivides(n, d);
    Divides(g, x);
    Divides(g, y);
  }

  /** Halving keeps a fraction near: the result is the value of a fraction x / y whose sides, times some factor `s`, are
      those of the first fraction or less than 2 * s above them; and `s` is small, because halving stops as soon as both
      sides are legal. */
  lemma {:induction false} FitIsNear(f: (nat, nat)) returns (x: nat, y: nat, s: nat)
    requires f.0 > 0 && f.1 > 0 && Larger(f.0, f.1) > MAX_SHARES
    ensures x > 0 && y > 0 && s > 0 && Fit(f).0 * y == x * Fit(f).1
    ensures f.0 < s * x <= f.0 + 2 * s - 2 && f.1 < s * y <= f.1 + 2 * s - 2
    ensures s * (MAX_SHARES - 1) <= 2 * Larger(f.0, f.1) - 4
    decreases f.0 + f.1
  {
    var n, d := f.0 / 2 + 1, f.1 / 2 + 1;
    var r := Reduced(n, d);
    ReducedSmaller(n, d);
    assert Fit(f) == Fit(r);
    if Larger(r.0, r.1) <= MAX_SHARES {
      x, y, s := n, d, 2;
    } else {
      var g := ReducedFactor(n, d);
      hide Reduced, Fit;
      var s';
      x, y, s' := FitIsNear(r);
      s := 2 * g * s';
      Product(g, s');
      OneMoreHalving(f.0, n, g, r.0, s', x);
      OneMoreHalving(f.1, d, g, r.1, s', y);
      FactorStaysSmall(Larger(f.0, f.1), g, Larger(r.0, r.1), s');
    }
  }

  lemma OneMoreHalving(n: nat, half: nat, g: nat, r: nat, s: nat, x: nat)
    requires g > 0 && half == g * r && n < 2 * half <= n + 2 && r < s * x <= r + 2 * s - 2
    ensures n < (2 * g * s) * x <= n + 2 * (2 * g * s) - 2
  {
    Regroup(g, s, x);
    TimesFactor(g, r, s, s * x);
  }

  lemma Regroup(g: nat, s: nat, x: nat)
    ensures (2 * g * s) * x == 2 * (g * (s * x)) && 2 * g * s == 2 * (g * s)
  {
  }

  lemma TimesFactor(g: nat, r: nat, s: nat, p: nat)
    requires r < p <= r + 2 * s - 2
    ensures g * r + g <= g * p <= g * r + 2 * (g * s) - 2 * g
  {
    assert g * (r + 1) == g * r + g;
    MulMonotone(r + 1, p, g);
    assert g * (r + 2 * s - 2) == g * r + 2 * (g * s) - 2 * g;
    MulMonotone(p, r + 2 * s - 2, g);
  }

  lemma FactorStaysSmall(n: nat, g: nat, r: nat, s: nat)
    requires g > 0 && 2 * (g * r) <= n + 2 && s * (MAX_SHARES - 1) <= 2 * r - 4
    ensures (2 * g * s) * (MAX_SHARES - 1) <= 2 * n - 4
  {
    var p := s * (MAX_SHARES - 1);
    assert (2 * g * s) * (MAX_SHARES - 1) == 2 * (g * p);
    assert g * p <= g * (2 * r - 4) == 2 * (g * r) - 4 * g by { MulMonotone(p, 2 * r - 4, g); }
  }

  /** Debt at the required ratio is worth less than the collateral at a feed price, by more than 4 parts in
      MAX_SHARES - 1 of the larger of the two amounts `n` and `d` compared. */
  predicate ClearlyLess(n: nat, quote: nat, d: nat, base: nat) {
    ((MAX_SHARES - 1) * n + 4 * Larger(n, d)) * quote <= (MAX_SHARES - 1) * d * base
  }

  /** Also with halving, a position may be called at a feed price when its collateral is clearly not worth the required
      ratio of its debt, and may not be called when it clearly is. */
  lemma CallPriceNear(debt: nat, collateral: nat, mcr: nat, feed: Price)
    requires debt > 0 && collateral > 0 && mcr > 0 && feed.Positive()
    ensures ClearlyLess(debt * mcr, feed.quote, collateral * 1000, feed.base) ==>
              CallPrice(debt, feed.baseId, collateral, feed.quoteId, mcr).Inverse().Less(feed)
    ensures ClearlyLess(collateral * 1000, feed.base, debt * mcr, feed.quote) ==>
              !CallPrice(debt, feed.baseId, collateral, feed.quoteId, mcr).Inverse().Less(feed)
  {
    Product(debt, mcr);
    hide ClearlyLess;
    var n, d := debt * mcr, collateral * 1000;
    var f := Reduced(n, d);
    if Fits(debt, collateral, mcr) {
      CallPriceMeaning(debt, collateral, mcr, feed);
      hide Reduced, Fit;
      ClearlyMeansLess(n, feed.quote, d, feed.base);
      ClearlyMeansLess(d, feed.base, n, feed.quote);
    } else {
      var g := ReducedFactor(n, d);
      var x, y, s := FitIsNear(f);
      hide Reduced, Fit;
      SameValue(Fit(f).0, Fit(f).1, x, y, feed.base, feed.quote);
      NearFactor(n, g, f.0, s, x);
      NearFactor(d, g, f.1, s, y);
      SmallFactor(g, f, s);
      NearIsClear(n, d, x, y, g * s, feed.quote, feed.base);
      NearIsClear(d, n, y, x, g * s, feed.base, feed.quote);
    }
  }

  lemma ClearlyMeansLess(n: nat, quote: nat, d: nat, base: nat)
    requires n > 0 && quote > 0
    ensures ClearlyLess(n, quote, d, base) ==> n * quote < d * base
  {
    var k := MAX_SHARES - 1;
    assert (k * n + 4 * Larger(n, d)) * quote == k * (n * quote) + 4 * Larger(n, d) * quote;
    Product(4 * Larger(n, d), quote);
  }

  lemma NearFactor(n: nat, g: nat, r: nat, s: nat, x: nat)
    requires g > 0 && n == g * r && r < s * x <= r + 2 * s
    ensures n < (g * s) * x <= n + 2 * (g * s)
  {
    var p := s * x;
    assert (g * s) * x == g * p;
    MulMonotone(r + 1, p, g);
    MulMonotone(p, r + 2 * s, g);
    assert g * (r + 2 * s) == g * r + 2 * (g * s);
  }

  lemma SmallFactor(g: nat, f: (nat, nat), s: nat)
    requires g > 0 && s > 0 && s * (MAX_SHARES - 1) <= 2 * Larger(f.0, f.1)
    ensures g * s > 0 && g * s * (MAX_SHARES - 1) <= 2 * Larger(g * f.0, g * f.1)
  {
    Product(g, s);
    MulMonotone(s * (MAX_SHARES - 1), 2 * Larger(f.0, f.1), g);
    MulMonotone(f.0, Larger(f.0, f.1), g);
    MulMonotone(f.1, Larger(f.0, f.1), g);
  }

  /** Sides that are near enough compare as the clearly different amounts do. */
  lemma NearIsClear(n: nat, d: nat, x: nat, y: nat, s: nat, quote: nat, base: nat)
    requires s > 0 && s * (MAX_SHARES - 1) <= 2 * Larger(n, d) && base > 0
    requires s * x <= n + 2 * s && d < s * y
    ensures ClearlyLess(n, quote, d, base) ==> x * quote < y * base
  {
    var k, slack := MAX_SHARES - 1, 4 * Larger(n, d);
    assert k * (s * x) <= k * n + slack by { MulMonotone(s * x, n + 2 * s, k); }
    MulMonotone(k * (s * x), k * n + slack, quote);
    assert k * d < k * (s * y);
    Scale(k * d, k * (s * y), base);
    assert quote * (k * (s * x)) == (x * quote) * (k * s);
    assert k * (s * y) * base == (y * base) * (k * s);
    Product(k, s);
    Scale(x * quote, y * base, k * s);
  }

  /** What it means for a position to be `safe` from margin calls at a feed: if its call price needs no halving, that
      its collateral is worth more than the required ratio of its debt; with halving, if there is a clear difference. */
  predicate CallTest(debt: nat, collateral: nat, feed: Feed, safe: bool)
    requires debt > 0 && collateral > 0 && feed.mcr > 0
  {
    var n, d, p := debt * feed.mcr, collateral * 1000, feed.price;
    && (Fits(debt, collateral, feed.mcr) ==> (safe <==> n * p.quote < d * p.base))
    && (ClearlyLess(n, p.quote, d, p.base) ==> safe)
    && (ClearlyLess(d, p.base, n, p.quote) ==> !safe)
  }

  /** Comparing the call price with the feed is such a test. */
  lemma CallPriceTests(debt: nat, collateral: nat, feed: Feed)
    requires debt > 0 && collateral > 0 && feed.mcr > 0 && feed.price.Positive()
    ensures CallTest(debt, collateral, feed,
                     CallPrice(debt, feed.price.baseId, collateral, feed.price.quoteId, feed.mcr).Inverse()
                       .Less(feed.price))
  {
    hide CallPrice, Fits, ClearlyLess;
    CallPriceNear(debt, collateral, feed.mcr, feed.price);
    if Fits(debt, collateral, feed.mcr) {
      CallPriceMeaning(debt, collateral, feed.mcr, feed.price);
    }
  }

  /** Halves a fraction until both sides are legal amounts, rounding up. */
  function FitUp(f: (nat, nat)): (r: (nat, nat))
    requires f.0 > 0 && f.1 > 0
    ensures 0 < r.0 <= MAX_SHARES && 0 < r.1 <= MAX_SHARES
    ensures f.0 <= MAX_SHARES && f.1 <= MAX_SHARES ==> r == f
    decreases f.0 + f.1
  {
    if f.0 > MAX_SHARES || f.1 > MAX_SHARES then
      ReducedSmaller((f.0 + 1) / 2, (f.1 + 1) / 2);
      FitUp(Reduced((f.0 + 1) / 2, (f.1 + 1) / 2))
    else f
  }

  /** max_short_squeeze_price: the feed price over the squeeze ratio. (The feed of an asset is positive.) */
  function SqueezePrice(f: Feed): (p: Price)
    ensures p.baseId == f.price.baseId && p.quoteId == f.price.quoteId
    ensures f.price.Positive() && f.mssr > 0 ==> p.Positive() && p.base <= MAX_SHARES && p.quote <= MAX_SHARES
  {
    if !f.price.Positive() || f.mssr == 0 then f.price
    else
      Product(f.price.quote, f.mssr);
      var (n, d) := FitUp(Reduced(f.price.base * 1000, f.price.quote * f.mssr));
      Price(n, f.price.baseId, d, f.price.quoteId)
  }

  /** As long as the fraction fits, an offer is within the squeeze price exactly when it asks for no more than the
      squeeze ratio over the feed. */
  lemma SqueezeMeaning(f: Feed, offer: Price)
    requires f.price.Positive() && f.mssr > 0 && f.price.quote * f.mssr > 0
    requires var (n, d) := Reduced(f.price.base * 1000, f.price.quote * f.mssr); n <= MAX_SHARES && d <= MAX_SHARES
    ensures !offer.Less(SqueezePrice(f)) <==> offer.base * (f.price.quote * f.mssr) >= f.price.base * 1000 * offer.quote
  {
    var n, d := f.price.base * 1000, f.price.quote * f.mssr;
    var (n', d') := Reduced(n, d);
    calc <==> {
      offer.base * d' < n' * offer.quote;
      { Scale(offer.base * d', n' * offer.quote, n); }
      offer.base * d' * n < n' * offer.quote * n;
      { assert offer.base * d' * n == offer.base * (n * d') == offer.base * (n' * d) == (offer.base * d) * n'; }
      { assert n' * offer.quote * n == (n * offer.quote) * n'; }
      (offer.base * d) * n' < (n * offer.quote) * n';
      { Scale(offer.base * d, n * offer.quote, n'); }
      offer.base * d < n * offer.quote;
    }
  }
}
