/** How much changes hands when two orders meet. */
module MarketMatch {
  import opened MarketState
  import opened Arithmetic
  import opened MarketInvariant

  /** The amounts of a match between a taker and a resting maker, at the maker's price `p` (maker's asset / taker's
      asset): the taker pays `paid` and receives `received`. Neither pays more than it has, and one of them is used
      up. */
  function MatchAmounts(taker: nat, maker: nat, p: Price): (r: (nat, nat))
    requires p.Positive()
    ensures r.0 <= taker && r.1 <= maker
    ensures r.0 == taker || r.1 == maker
  {
    if taker <= p.ToQuote(maker) then
      assert p.ToBase(taker) <= maker by {
        FloorBelow(maker, p.quote, p.base);
        assert taker * p.base <= p.ToQuote(maker) * p.base by { MulMonotone(taker, p.ToQuote(maker), p.base); }
        FloorWithin(taker, p.base, p.quote, maker);
      }
      (taker, p.ToBase(taker))
    else
      (p.ToQuote(maker), maker)
  }

  /** The amounts of a match are at the price `p` of the maker: one side gives all it has, the other what that is worth,
      rounded down. */
  predicate AtMakersPrice(taker: nat, maker: nat, p: Price, paid: nat, received: nat) {
    || (paid == taker && received <= maker && received * p.quote <= paid * p.base < (received + 1) * p.quote)
    || (received == maker && paid <= taker && paid * p.base <= received * p.quote < (paid + 1) * p.base)
  }

  lemma MatchIsAtMakersPrice(taker: nat, maker: nat, p: Price)
    requires p.Positive()
    ensures var (paid, received) := MatchAmounts(taker, maker, p);
            AtMakersPrice(taker, maker, p, paid, received)
  {
    p.ToQuoteIsFloor(maker);
    p.ToBaseIsFloor(taker);
  }

  /** The maker is paid at least its asking price unless it is sold out and the division has a remainder. */
  lemma MakerGetsItsPrice(taker: nat, maker: nat, p: Price)
    requires p.Positive()
    ensures var r := MatchAmounts(taker, maker, p);
            r.0 * p.base >= r.1 * p.quote <==> taker <= p.ToQuote(maker) || maker * p.quote % p.base == 0
  {
    if taker <= p.ToQuote(maker) {
      FloorBelow(taker, p.base, p.quote);
    } else {
      var q := p.ToQuote(maker);
      assert maker * p.quote == p.base * q + maker * p.quote % p.base;
      assert q * p.base == p.base * q;
    }
  }

  /** A maker that sells its last unit for three halves gets one. */
  lemma MakerLosesRemainder(taker: nat)
    requires taker > 1
    ensures var p := Price(2, 1, 3, 2);
            MatchAmounts(taker, 1, p) == (1, 1) && 1 * p.base < 1 * p.quote
  {
  }

  /** A taker whose price is met gets less than it asked for by under one unit, and no less than that. */
  lemma TakerLosesLessThanAUnit(taker: nat, maker: nat, p: Price, asked: Price)
    requires p.Positive() && asked.Positive() && Crosses(asked, p)
    ensures var r := MatchAmounts(taker, maker, p);
            (r.1 + 1) * asked.base > r.0 * asked.quote
  {
    var r := MatchAmounts(taker, maker, p);
    // r.0 * p.base < (r.1 + 1) * p.quote in both branches
    if taker <= p.ToQuote(maker) {
      var q := p.ToBase(taker);
      assert taker * p.base == p.quote * q + taker * p.base % p.quote;
      assert (q + 1) * p.quote == p.quote * q + p.quote;
    } else {
      FloorBelow(maker, p.quote, p.base);
      assert r.0 * p.base <= maker * p.quote;
      assert (maker + 1) * p.quote == maker * p.quote + p.quote;
    }
    assert r.0 * p.base < (r.1 + 1) * p.quote;
    CrossScale(r.0, r.1 + 1, p.base, p.quote, asked.base, asked.quote);
  }

  lemma CrossScale(x: nat, y: nat, b: nat, q: nat, ab: nat, aq: nat)
    requires b > 0 && q > 0 && ab > 0
    requires x * b < y * q
    requires ab * b >= aq * q
    ensures y * ab > x * aq
  {
    calc {
      q * (x * aq);
      == x * (aq * q);
      <= { MulMonotone(aq * q, ab * b, x); }
      x * (ab * b);
      == (x * b) * ab;
      < { Scale(x * b, y * q, ab); }
      (y * q) * ab;
      == q * (y * ab);
    }
    Scale(x * aq, y * ab, q);
  }

  /** A taker can pay and get nothing: exactly when what it has is worth less than one unit at the maker's price. */
  lemma TakerGetsNothing(taker: nat, maker: nat, p: Price)
    requires p.Positive() && maker > 0
    ensures MatchAmounts(taker, maker, p).1 == 0 <==> taker <= p.ToQuote(maker) && taker * p.base < p.quote
  {
    if taker <= p.ToQuote(maker) {
      var q := p.ToBase(taker);
      assert taker * p.base == p.quote * q + taker * p.base % p.quote;
      if q >= 1 {
        assert p.quote * q >= p.quote by { MulMonotone(1, q, p.quote); }
      }
    }
  }

  /** A margin call fills the smaller of the position's debt and the order, at the order's price (debt asset / backing
      asset). If the whole debt can be bought for the collateral, so can any part of it. */
  function CallAmounts(debt: nat, collateral: nat, forSale: nat, p: Price): (r: (nat, nat))
    requires p.base > 0 && p.ToQuote(debt) <= collateral
    ensures r.0 <= debt && r.0 <= forSale && (r.0 == debt || r.0 == forSale)
    ensures r.1 == p.ToQuote(r.0) <= collateral
  {
    var amount := if debt >= forSale then forSale else debt;
    FloorMonotone(amount, debt, p.quote, p.base);
    (amount, p.ToQuote(amount))
  }
}
