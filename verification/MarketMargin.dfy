/** Black swans: whether the position that is looked at stands for all others. */
module MarketMargin {
  import opened Common
  import opened Arithmetic
  import opened MarketState
  import opened MarketFills
  import opened MarketIndex
  import opened MarketCallPrice
  import opened MarketInvariant
  import opened MarketMatch
  import opened MarketSwan
  import opened Sums
  import opened Market

  /** The debt of the position can be bought with its collateral, at the feed price or from an offer. */
  ghost predicate CanBeCovered(s: State, a: AssetId, k: Position)
    requires s.IsBitasset(a) && s.Bit(a).feed.Some? && k in s.calls
  {
    || s.calls[k].debt * s.Bit(a).feed.value.price.quote < s.calls[k].collateral * s.Bit(a).feed.value.price.base
    || exists i :: && i in s.limits && s.limits[i].price.baseId == a && s.limits[i].price.quoteId == s.Bit(a).backing
                   && s.calls[k].debt * s.limits[i].price.quote < s.calls[k].collateral * s.limits[i].price.base
  }

  /** A black swan is a first position, by call price, that cannot be covered. */
  lemma SwanIsFirst(s: State, a: AssetId, k: Position)
    requires Good(s) && s.IsBitasset(a) && s.Bit(a).feed.Some? && k in s.calls && FirstCall(s.calls, a, k)
    ensures BlackSwan(s, a) <==> !CanBeCovered(s, a, k)
  {
    hide Good, FirstCall;
    forall j | FirstCall(s.calls, a, j) ensures j == k {
      FirstCallUnique(s, a, k, j);
    }
    var c, feed := s.calls[k], s.Bit(a).feed.value.price;
    assert SwanPrice(c).Less(feed) <==> c.debt * feed.quote < c.collateral * feed.base;
    forall i | i in s.limits
      ensures SwanPrice(c).Less(s.limits[i].price) <==>
              c.debt * s.limits[i].price.quote < c.collateral * s.limits[i].price.base
    {
    }
  }

  /** The call price of the position is the one for its amounts at the ratio `mcr`, exactly. */
  predicate Current(c: CallOrder, mcr: nat) {
    && mcr > 0 && c.debt > 0 && c.collateral > 0 && c.callPrice.Positive()
    && c.callPrice.quote * (c.collateral * 1000) == (c.debt * mcr) * c.callPrice.base
  }

  /** A call price that needs no halving is current when it is set. */
  lemma CurrentWhenSet(debt: nat, debtId: AssetId, collateral: nat, collateralId: AssetId, mcr: nat, id: nat)
    requires debt > 0 && collateral > 0 && mcr > 0 && Fits(debt, collateral, mcr)
    ensures Current(CallOrder(id, collateral, debt, CallPrice(debt, debtId, collateral, collateralId, mcr)), mcr)
  {
    Product(debt, mcr);
  }

  /** While all call prices are current for one ratio, the first position is the least covered one, so without a black
      swan every position can be covered. */
  lemma NoSwanAtAll(s: State, a: AssetId, mcr: nat)
    requires Good(s) && s.IsBitasset(a) && s.Bit(a).feed.Some? && !BlackSwan(s, a)
    requires forall k :: k in s.calls && k.1 == a ==> Current(s.calls[k], mcr)
    ensures forall k :: k in s.calls && k.1 == a ==> CanBeCovered(s, a, k)
  {
    GoodPrices(s);
    hide Good, BlackSwan;
    forall k | k in s.calls && k.1 == a ensures CanBeCovered(s, a, k) {
      assert k in CallsOf(s.calls, a);
      var j := FirstCallExists(s.calls, a);
      SwanIsFirst(s, a, j);
      assert !s.calls[k].callPrice.Less(s.calls[j].callPrice) by {
        FirstCallIsLowest(s.calls, a, j);
        LessIsByValue(s.calls[k].callPrice, s.calls[j].callPrice);
      }
      var c, d, feed := s.calls[j], s.calls[k], s.Bit(a).feed.value.price;
      LowerIsLessCovered(c, d, mcr);
      if c.debt * feed.quote < c.collateral * feed.base { BetterCovered(c, d, feed); }
      forall i | i in s.limits
        ensures c.debt * s.limits[i].price.quote < c.collateral * s.limits[i].price.base ==>
                  d.debt * s.limits[i].price.quote < d.collateral * s.limits[i].price.base
      {
        var p := s.limits[i].price;
        if c.debt * p.quote < c.collateral * p.base { BetterCovered(c, d, p); }
      }
    }
  }

  lemma LowerIsLessCovered(c: CallOrder, d: CallOrder, mcr: nat)
    requires Current(c, mcr) && Current(d, mcr) && !d.callPrice.Less(c.callPrice)
    ensures c.collateral * d.debt <= d.collateral * c.debt
  {
    var p, q := c.callPrice, d.callPrice;
    // p.base / p.quote is the collateral over the debt, but for the factor 1000 / mcr
    RatioOf(c, mcr);
    RatioOf(d, mcr);
    Cross(c.collateral, c.debt, p.base, p.quote, d.collateral, d.debt, q.base, q.quote, mcr);
  }

  lemma RatioOf(c: CallOrder, mcr: nat)
    requires Current(c, mcr)
    ensures 1000 * (c.collateral * c.callPrice.quote) == mcr * (c.debt * c.callPrice.base)
  {
  }

  /** If x / y is m / 1000 times b / q for both, then they compare as the b / q do. */
  lemma Cross(x: nat, y: nat, b: nat, q: nat, x': nat, y': nat, b': nat, q': nat, m: nat)
    requires y > 0 && y' > 0 && q > 0 && q' > 0
    requires 1000 * (x * q) == m * (y * b) && 1000 * (x' * q') == m * (y' * b') && b * q' <= b' * q
    ensures x * y' <= x' * y
  {
    Mix(1000, x, q, y', q');
    Mix(m, y, b, y', q');
    Mix(m, y', b', y, q);
    Mix(1000, x', q', y, q);
    MulMonotone(b * q', b' * q, m * (y * y'));
    Product(q, q');
    CancelFactor(1000 * (x * y'), 1000 * (x' * y), q * q');
  }

  lemma Mix(k: nat, a: nat, b: nat, c: nat, d: nat)
    ensures (k * (a * b)) * (c * d) == (k * (a * c)) * (b * d)
  {
    assert (a * b) * (c * d) == (a * c) * (b * d);
    assert (k * (a * b)) * (c * d) == k * ((a * b) * (c * d));
    assert (k * (a * c)) * (b * d) == k * ((a * c) * (b * d));
  }

  /** A position that is covered no less well can be covered at the same price. */
  lemma BetterCovered(c: CallOrder, d: CallOrder, p: Price)
    requires c.debt > 0 && d.debt > 0 && c.collateral * d.debt <= d.collateral * c.debt
    requires c.debt * p.quote < c.collateral * p.base
    ensures d.debt * p.quote < d.collateral * p.base
  {
    calc {
      (d.debt * p.quote) * c.debt;
      (c.debt * p.quote) * d.debt;
    <  { Scale(c.debt * p.quote, c.collateral * p.base, d.debt); }
      (c.collateral * p.base) * d.debt;
      (c.collateral * d.debt) * p.base;
    <= { MulMonotone(c.collateral * d.debt, d.collateral * c.debt, p.base); }
      (d.collateral * c.debt) * p.base;
      (d.collateral * p.base) * c.debt;
    }
    Scale(d.debt * p.quote, d.collateral * p.base, c.debt);
  }

  /** The debt can be bought with the collateral at a price of `quote` for `base`. */
  predicate Buys(c: CallOrder, base: nat, quote: nat) {
    c.debt * quote < c.collateral * base
  }

  /** One position stands for another, whatever the feed and the offers are, if and only if it has no more collateral
      for its debt. */
  lemma WhenOneStandsForAnother(c: CallOrder, d: CallOrder)
    requires c.debt > 0 && d.debt > 0 && c.collateral > 0
    ensures (forall base: nat, quote: nat {:trigger Buys(d, base, quote)} ::
               quote > 0 && Buys(c, base, quote) ==> Buys(d, base, quote))
            <==> c.collateral * d.debt <= d.collateral * c.debt
  {
    if c.collateral * d.debt <= d.collateral * c.debt {
      forall base: nat, quote: nat | quote > 0 && Buys(c, base, quote) ensures Buys(d, base, quote) {
        BetterCovered(c, d, Price(base, 0, quote, 0));
      }
    } else if d.collateral == 0 {
      assert Buys(c, c.debt + 1, 1) by { MulMonotone(1, c.collateral, c.debt + 1); }
      assert !Buys(d, c.debt + 1, 1);
    } else {
      assert Buys(c, d.debt, d.collateral);
      assert !Buys(d, d.debt, d.collateral);
    }
  }

  /** Two positions with call prices for different ratios, 32 and 1.75; at the feed the second one cannot pay. */
  function StaleCallPrices(): State {
    var bit := Bitasset(CORE, Some(Feed(Price(1, 1, 1, CORE), 1750, 1100)), None, 0, 0, 2000, 0, false);
    var calls := map[(8, 1) := CallOrder(0, 100, 10, Price(5, CORE, 16, 1)),
                     (9, 1) := CallOrder(1, 10, 10, Price(4, CORE, 7, 1))];
    State(map[(7, 1) := 20], map[], calls, map[], map[],
          map[CORE := Asset(0, 110, 0, 0, 0, None), 1 := Asset(5, 20, 0, 0, 0, Some(bit))], map[], 2)
  }

  /** Otherwise a position that cannot be covered may go unseen behind one that was borrowed at a higher ratio. */
  lemma SwanUnseen()
    ensures var s := StaleCallPrices();
            && Good(s) && s.IsBitasset(1) && s.Bit(1).feed.Some? && !BlackSwan(s, 1) && (9, 1) in s.calls
            && Current(s.calls[(8, 1)], 32000) && Current(s.calls[(9, 1)], 1750)
            && !CanBeCovered(s, 1, (9, 1))
  {
    var s, k: Position, j: Position := StaleCallPrices(), (8, 1), (9, 1);
    assert Good(s) by {
      assert GoodCall(s, k, s.calls[k]) && GoodCall(s, j, s.calls[j]);
    }
    assert FirstCall(s.calls, 1, k);
    assert CanBeCovered(s, 1, k);
    SwanIsFirst(s, 1, k);
  }

  /** At the price at which a black swan is settled, the position pays just all of its collateral. */
  lemma SwanPaysAll(c: CallOrder)
    requires c.debt > 0
    ensures SwanPrice(c).base > 0 && PaysAt(c, SwanPrice(c)) == c.collateral
  {
    Divides(c.debt, c.collateral);
  }

  // --------------------------------------------------------------------------------------------------------------
  // What margin calls leave alone.

  /** Offers of the asset at the squeeze price or better; without halving, those that ask for no more than the squeeze
      ratio over the feed. */
  lemma InRangeMeans(s: State, a: AssetId, i: nat)
    requires s.IsBitasset(a) && s.Bit(a).feed.Some? && i in s.limits
    requires var f := s.Bit(a).feed.value;
             && f.price.Positive() && f.mssr > 0 && f.price.quote * f.mssr > 0
             && var (n, d) := Reduced(f.price.base * 1000, f.price.quote * f.mssr); n <= MAX_SHARES && d <= MAX_SHARES
    ensures var f, o := s.Bit(a).feed.value, s.limits[i].price;
            i in InRange(s.limits, a, s.Bit(a), {}) <==>
            && o.baseId == a && o.quoteId == s.Bit(a).backing
            && o.base * (f.price.quote * f.mssr) >= f.price.base * 1000 * o.quote
  {
    SqueezeMeaning(s.Bit(a).feed.value, s.limits[i].price);
    hide SqueezePrice;
  }

  /** The feed protects the position: it is above its call price. */
  predicate Protected(s: State, a: AssetId, k: Position)
    requires s.IsBitasset(a) && s.Bit(a).feed.Some? && k in s.calls
  {
    s.calls[k].callPrice.Inverse().Less(s.Bit(a).feed.value.price)
  }

  /** If its call price is the one for its amounts, that is a matter of its collateral ratio. */
  lemma ProtectedMeans(s: State, a: AssetId, k: Position)
    requires s.IsBitasset(a) && s.Bit(a).feed.Some? && k in s.calls
    requires var f, c := s.Bit(a).feed.value, s.calls[k];
             && f.mcr > 0 && f.price.Positive() && c.debt > 0 && c.collateral > 0
             && c.callPrice == CallPrice(c.debt, f.price.baseId, c.collateral, f.price.quoteId, f.mcr)
    ensures CallTest(s.calls[k].debt, s.calls[k].collateral, s.Bit(a).feed.value, Protected(s, a, k))
  {
    CallPriceTests(s.calls[k].debt, s.calls[k].collateral, s.Bit(a).feed.value);
    hide CallPrice, CallTest;
  }

  /** Once an offer has been sold out, which shows in what has been burned, the iterator moves on. */
  lemma SoldOutIsPassed(c: Cursor, d: Cursor, a: AssetId) returns (i: nat)
    requires CalledOnce(c, d, a)
    ensures c.s.IsBitasset(a) && c.s.Bit(a).feed.Some? && i in c.s.limits
    ensures FirstLimit(c.s.limits, InRange(c.s.limits, a, c.s.Bit(a), c.passed), i)
    ensures var burned := c.s.Supply(a) - d.s.Supply(a);
            && 0 < burned <= c.s.limits[i].forSale
            && (d.filled <==> c.filled || burned == c.s.limits[i].forSale)
    ensures d.passed == if d.filled then c.passed + {i} else c.passed
  {
    hide Good, SqueezePrice, MarginCalled, LimitBefore, BoughtBack;
    var s := c.s;
    var k;
    k, i :| && Good(s) && FirstCall(s.calls, a, k) && s.IsBitasset(a) && i in s.limits
            && s.limits[i].price.baseId == a && s.limits[i].price.quoteId == s.Bit(a).backing
            && s.limits[i].price.base > 0 && s.limits[i].price.ToQuote(s.calls[k].debt) <= s.calls[k].collateral
            && s.Bit(a).feed.Some? && FirstLimit(s.limits, InRange(s.limits, a, s.Bit(a), c.passed), i)
            && Executable(s, a, k, i) && d.s == MarginCalled(s, a, k, i)
            && d.filled == (c.filled || s.limits[i].forSale <= s.calls[k].debt)
            && d.passed == if d.filled then c.passed + {i} else c.passed;
    PositionOf(s, a, k);
    SomethingToSell(s, k, i);
    MarginCalledPays(s, a, k, i);
    hide FirstCall, FirstLimit, Executable, InRange;
    Burned(s, d.s, k, i);
  }

  lemma Burned(s: State, t: State, k: Position, i: nat)
    requires k in s.calls && k.1 in s.assets && i in s.limits && s.limits[i].price.quoteId in s.assets
    requires BoughtBack(s, t, k, i)
    ensures t.Supply(k.1) == s.Supply(k.1)
                             - if s.calls[k].debt <= s.limits[i].forSale then s.calls[k].debt else s.limits[i].forSale
  {
    hide MarketFee, Earned;
  }

  /** Offers out of range, positions of other assets and protected positions are as they were. */
  ghost predicate Bypassed(s: State, t: State, a: AssetId)
    requires s.IsBitasset(a) && s.Bit(a).feed.Some?
  {
    && OffersBypassed(s, t, a)
    && (forall k :: k in s.calls && (k.1 != a || Protected(s, a, k)) ==> k in t.calls && t.calls[k] == s.calls[k])
    && (forall k :: k in t.calls ==> k in s.calls && t.calls[k].callPrice == s.calls[k].callPrice)
    && t.IsBitasset(a) && t.Bit(a) == s.Bit(a)
  }

  ghost predicate OffersBypassed(s: State, t: State, a: AssetId)
    requires s.IsBitasset(a) && s.Bit(a).feed.Some?
  {
    forall i :: i in s.limits && i !in InRange(s.limits, a, s.Bit(a), {}) ==>
      i in t.limits && t.limits[i] == s.limits[i]
  }

  lemma CallBypasses(c: Cursor, d: Cursor, a: AssetId)
    requires CalledOnce(c, d, a)
    ensures c.s.IsBitasset(a) && c.s.Bit(a).feed.Some? && Bypassed(c.s, d.s, a)
  {
    hide Good, SqueezePrice, MarginCalled, LimitBefore, Bypassed;
    var s := c.s;
    var k, i :| && Good(s) && FirstCall(s.calls, a, k) && s.IsBitasset(a) && i in s.limits
                && s.limits[i].price.baseId == a && s.limits[i].price.quoteId == s.Bit(a).backing
                && s.limits[i].price.base > 0 && s.limits[i].price.ToQuote(s.calls[k].debt) <= s.calls[k].collateral
                && s.Bit(a).feed.Some? && FirstLimit(s.limits, InRange(s.limits, a, s.Bit(a), c.passed), i)
                && Executable(s, a, k, i) && d.s == MarginCalled(s, a, k, i);
    MarginCalledFrame(s, a, k, i);
    PositionOf(s, a, k);
    assert !Protected(s, a, k);
    FirstIsIn(s, a, c.passed, i);
    hide Protected, InRange, Executable, FirstCall, FirstLimit;
    OnlyTheseTwo(s, d.s, a, k, i);
  }

  lemma OnlyTheseTwo(s: State, t: State, a: AssetId, k: Position, i: nat)
    requires s.IsBitasset(a) && s.Bit(a).feed.Some? && t.IsBitasset(a) && t.Bit(a) == s.Bit(a)
    requires k in s.calls && k.1 == a && !Protected(s, a, k) && i in InRange(s.limits, a, s.Bit(a), {})
    requires forall j :: j in s.calls && j != k ==> j in t.calls && t.calls[j] == s.calls[j]
    requires forall j :: j in t.calls ==> j in s.calls && t.calls[j].callPrice == s.calls[j].callPrice
    requires forall j :: j in s.limits && j != i ==> j in t.limits && t.limits[j] == s.limits[j]
    ensures Bypassed(s, t, a)
  {
    hide Protected, InRange;
  }

  lemma FirstIsIn(s: State, a: AssetId, passed: set<nat>, i: nat)
    requires s.IsBitasset(a) && s.Bit(a).feed.Some?
    requires FirstLimit(s.limits, InRange(s.limits, a, s.Bit(a), passed), i)
    ensures i in InRange(s.limits, a, s.Bit(a), {})
  {
    hide SqueezePrice;
  }

  lemma MarginCalledFrame(s: State, a: AssetId, k: Position, i: nat)
    requires Good(s) && FirstCall(s.calls, a, k) && s.IsBitasset(a)
    requires i in s.limits && s.limits[i].price.baseId == a && s.limits[i].price.quoteId == s.Bit(a).backing
    requires s.limits[i].price.base > 0 && s.limits[i].price.ToQuote(s.calls[k].debt) <= s.calls[k].collateral
    ensures var t := MarginCalled(s, a, k, i);
            && (forall j :: j in s.calls && j != k ==> j in t.calls && t.calls[j] == s.calls[j])
            && (forall j :: j in t.calls ==> j in s.calls && t.calls[j].callPrice == s.calls[j].callPrice)
            && (forall j :: j in s.limits && j != i ==> j in t.limits && t.limits[j] == s.limits[j])
            && t.IsBitasset(a) && t.Bit(a) == s.Bit(a)
  {
    hide Good, SameAssets, FillCall, FillLimit, FirstCall, Filled, Evolves;
    PositionOf(s, a, k);
    var (amount, pays) := CallAmounts(s.calls[k].debt, s.calls[k].collateral, s.limits[i].forSale, s.limits[i].price);
    MarginFillFrame(s, k, i, amount, pays);
    var u := FillCall(s, k, pays, amount);
    FillableLimit(u, i);
    var t := FillLimit(u, i, amount, pays, true);
    assert MarginCalled(s, a, k, i) == t;
    hide MarginCalled, CallAmounts;
    assert forall j :: j in s.limits && j != i ==> j in t.limits && t.limits[j] == s.limits[j] by {
      FillLimitResult(u, i, amount, pays, true);
      OthersFilled(u, t, i, amount, pays);
    }
    MarginFillEvolves(s, k, i, amount, pays);
    EvolvesShrinks(s, t, a);
  }

  lemma OthersFilled(s: State, t: State, id: nat, pays: nat, receives: nat)
    requires id in s.limits && s.limits[id].price.quoteId in s.assets && Filled(s, t, id, pays, receives)
    ensures forall j :: j in s.limits && j != id ==> j in t.limits && t.limits[j] == s.limits[j]
  {
    hide MarketFee;
  }

  /** Margin calls never touch an offer above the squeeze price, nor a position that the feed protects. */
  lemma {:induction false} CallsBypass(c: Cursor, d: Cursor, a: AssetId, n: nat)
    requires Series(c, d, a, n) && c.s.IsBitasset(a) && c.s.Bit(a).feed.Some?
    ensures Bypassed(c.s, d.s, a)
    decreases n
  {
    hide CalledOnce, Bypassed;
    if n == 0 {
      BypassedRefl(c.s, a);
    } else {
      var e :| Series(c, e, a, n - 1) && CalledOnce(e, d, a);
      CallsBypass(c, e, a, n - 1);
      CallBypasses(e, d, a);
      BypassedTrans(c.s, e.s, d.s, a);
    }
  }

  lemma BypassedRefl(s: State, a: AssetId)
    requires s.IsBitasset(a) && s.Bit(a).feed.Some?
    ensures Bypassed(s, s, a)
  {
  }

  lemma BypassedTrans(s: State, t: State, u: State, a: AssetId)
    requires s.IsBitasset(a) && s.Bit(a).feed.Some? && Bypassed(s, t, a)
    requires t.IsBitasset(a) && t.Bit(a).feed.Some? && Bypassed(t, u, a)
    ensures Bypassed(s, u, a)
  {
    hide SqueezePrice;
  }

  /** The same of all that check_call_orders does: the offers in any case, the positions unless the asset is settled. */
  lemma MarginCallsBypass(s: State, t: State, a: AssetId, passed: set<nat>)
    requires CallsMade(s, t, a, passed) && s.IsBitasset(a) && s.Bit(a).feed.Some?
    ensures OffersBypassed(s, t, a)
    ensures Unsettled(t, a) ==> Bypassed(s, t, a)
  {
    hide Series, Swanned, Bypassed, OffersBypassed;
    var u, filled, n :| Series(Cursor(s, {}, false), Cursor(u, passed, filled), a, n)
                        && (t == u || Swanned(u, t, a, passed));
    CallsBypass(Cursor(s, {}, false), Cursor(u, passed, filled), a, n);
    OffersOfBypassed(s, u, a);
    if t != u {
      SwannedOffers(u, t, a, passed);
      SameOffers(s, u, t, a);
    }
  }

  lemma OffersOfBypassed(s: State, t: State, a: AssetId)
    requires s.IsBitasset(a) && s.Bit(a).feed.Some? && Bypassed(s, t, a)
    ensures OffersBypassed(s, t, a)
  {
  }

  lemma SwannedOffers(s: State, t: State, a: AssetId, passed: set<nat>)
    requires Swanned(s, t, a, passed)
    ensures t.limits == s.limits && !Unsettled(t, a)
  {
    hide SumBy, Freed, BlackSwan;
    if !(exists k :: k in s.calls && FirstCall(s.calls, a, k) && GloballySettled(s, t, a, SwanPrice(s.calls[k]))) {
      assert GloballySettled(s, t, a, s.Bit(a).feed.value.price);
    }
    SwanIsSettled(s, t, a);
  }

  lemma SameOffers(s: State, u: State, t: State, a: AssetId)
    requires s.IsBitasset(a) && s.Bit(a).feed.Some? && OffersBypassed(s, u, a) && t.limits == u.limits
    ensures OffersBypassed(s, t, a)
  {
  }
}
