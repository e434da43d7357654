/** The market engine: matching, margin calls, forced and global settlement, bids and revival, on the tables of
    MarketState. A method that reports failure stands for one that throws. */
module Market {
  import opened Common
  import opened Sums
  import opened MarketState
  import opened MarketFills
  import opened MarketIndex
  import opened MarketInvariant
  import opened MarketMatch
  import opened MarketSwan
  import CallPrices = MarketCallPrice

  /** What fills do to the tables between them: assets keep their terms, orders shrink, totals are steady. */
  ghost predicate Evolves(s: State, t: State) {
    && Good(t) && Steady(s, t) && SameAssets(s, t)
    && LimitsShrink(s.limits, t.limits) && Harmless(s, t)
    && t.calls.Keys <= s.calls.Keys
    && t.bids == s.bids && t.nextId == s.nextId
  }

  lemma EvolvesRefl(s: State)
    requires Good(s)
    ensures Evolves(s, s)
  {
    hide Held, Debt;
  }

  lemma EvolvesTrans(s: State, t: State, u: State)
    requires Evolves(s, t) && Evolves(t, u)
    ensures Evolves(s, u)
  {
    hide Good, Steady, SameAssets, Harmless;
    SteadyTrans(s, t, u);
    HarmlessTrans(s, t, u);
    SameAssetsTrans(s, t, u);
    LimitsShrinkTrans(s.limits, t.limits, u.limits);
  }

  /** What a margin call does: the position buys `amount` of its debt from the order for `price` of its collateral. */
  lemma MarginFillEvolves(s: State, k: Position, i: nat, amount: nat, price: nat)
    requires Good(s)
    requires k in s.calls && amount <= s.calls[k].debt && price <= s.calls[k].collateral
    requires i in s.limits && amount <= s.limits[i].forSale
    requires s.limits[i].price.baseId == k.1 && s.limits[i].price.quoteId == s.calls[k].callPrice.baseId
    ensures k.1 in s.assets && Good(FillCall(s, k, price, amount))
    ensures Evolves(s, FillLimit(FillCall(s, k, price, amount), i, amount, price, true))
  {
    hide Good, SameAssets, FillCall, FillLimit, Held, Debt, Harmless;
    FillCallGood(s, k, price, amount);
    var t := FillCall(s, k, price, amount);
    FillCallFrame(s, k, price, amount);
    FillableLimit(t, i);
    FillLimitGood(t, i, amount, price, true);
    FillLimitFrame(t, i, amount, price, true);
    var u := FillLimit(t, i, amount, price, true);
    FillCallHarmless(s, k, price, amount);
    FillLimitHarmless(t, i, amount, price, true);
    HarmlessTrans(s, t, u);
    SameAssetsTrans(s, t, u);
    forall a: AssetId
      ensures Held(u, a) - u.Supply(a) == Held(s, a) - s.Supply(a)
      ensures Debt(u, a) - u.Supply(a) == Debt(s, a) - s.Supply(a)
    {
      FillCallTotals(s, k, price, amount, a);
      FillLimitTotals(t, i, amount, price, true, a);
    }
  }

  /** What a match of two limit orders does. */
  lemma MatchEvolves(s: State, taker: nat, maker: nat, paid: nat, received: nat)
    requires Good(s)
    requires taker in s.limits && maker in s.limits && taker != maker
    requires s.limits[taker].price.baseId == s.limits[maker].price.quoteId
    requires s.limits[taker].price.quoteId == s.limits[maker].price.baseId
    requires paid <= s.limits[taker].forSale && received <= s.limits[maker].forSale
    ensures s.limits[taker].price.base > 0 && s.limits[taker].price.quoteId in s.assets
    ensures s.assets[s.limits[taker].price.quoteId].feePercent <= HUNDRED_PERCENT
    ensures Good(FillLimit(s, taker, paid, received, false))
    ensures maker in FillLimit(s, taker, paid, received, false).limits
    ensures FillLimit(s, taker, paid, received, false).limits[maker] == s.limits[maker]
    ensures Evolves(s, FillLimit(FillLimit(s, taker, paid, received, false), maker, received, paid, true))
  {
    hide Good, SameAssets, FillLimit, Held, Debt, Harmless;
    FillableLimit(s, taker);
    FillLimitGood(s, taker, paid, received, false);
    FillLimitFrame(s, taker, paid, received, false);
    var t := FillLimit(s, taker, paid, received, false);
    FillableLimit(t, maker);
    FillLimitGood(t, maker, received, paid, true);
    FillLimitFrame(t, maker, received, paid, true);
    var u := FillLimit(t, maker, received, paid, true);
    FillLimitHarmless(s, taker, paid, received, false);
    FillLimitHarmless(t, maker, received, paid, true);
    HarmlessTrans(s, t, u);
    SameAssetsTrans(s, t, u);
    LimitsShrinkTrans(s.limits, t.limits, u.limits);
    forall a: AssetId
      ensures Held(u, a) - u.Supply(a) == Held(s, a) - s.Supply(a)
      ensures Debt(u, a) - u.Supply(a) == Debt(s, a) - s.Supply(a)
    {
      FillLimitTotals(s, taker, paid, received, false, a);
      FillLimitTotals(t, maker, received, paid, true, a);
    }
  }

  class Engine {
    var balances: map<(AccountId, AssetId), nat>
    var limits: map<nat, LimitOrder>
    var calls: map<Position, CallOrder>
    var settles: map<nat, SettleOrder>
    var bids: map<Position, Bid>
    var assets: map<AssetId, Asset>
    var pending: map<AccountId, nat>
    var nextId: nat

    function Snapshot(): State
      reads this
    {
      State(balances, limits, calls, settles, bids, assets, pending, nextId)
    }

    /** A market as genesis leaves it. */
    constructor (start: State)
      requires AtStart(start)
      ensures Snapshot() == start && Inv(Snapshot())
    {
      StartIsGood(start);
      balances, assets, calls, limits := start.balances, start.assets, start.calls, start.limits;
      settles, bids, pending, nextId := start.settles, start.bids, start.pending, start.nextId;
    }

    // ------------------------------------------------------------------------------------------------------------
    // Paying.

    /** adjust_balance: throws if the balance would become negative. */
    method AdjustBalance(who: AccountId, a: AssetId, delta: int) returns (ok: bool)
      modifies this`balances
      ensures ok <==> old(Snapshot()).Balance(who, a) + delta >= 0
      ensures Snapshot() == if ok then AddBalance(old(Snapshot()), who, a, delta) else old(Snapshot())
    {
      var balance := Snapshot().Balance(who, a);
      if balance + delta < 0 {
        return false;
      }
      balances := balances[(who, a) := balance + delta];
      return true;
    }

    /** pay_market_fees: the issuer's share of what is received in a trade. */
    method PayMarketFees(a: AssetId, receives: nat) returns (fee: nat)
      requires a in assets
      modifies this`assets
      ensures fee == MarketFee(old(assets)[a], receives)
      ensures Snapshot() == AddFees(old(Snapshot()), a, fee)
    {
      fee := MarketFee(assets[a], receives);
      assets := assets[a := assets[a].(fees := assets[a].fees + fee)];
    }

    method CancelLimitOrder(id: nat)
      requires id in limits
      modifies this`balances, this`limits
      ensures Snapshot() == CancelLimit(old(Snapshot()), id)
    {
      var o := limits[id];
      var _ := AdjustBalance(o.seller, o.price.baseId, o.forSale);
      var _ := AdjustBalance(o.seller, CORE, o.deferredFee);
      limits := limits - {id};
    }

    method FillLimitOrder(id: nat, pays: nat, receives: nat, cullIfSmall: bool) returns (filled: bool)
      requires id in limits && pays <= limits[id].forSale && limits[id].price.base > 0
      requires limits[id].price.quoteId in assets
      requires assets[limits[id].price.quoteId].feePercent <= HUNDRED_PERCENT
      modifies this`balances, this`assets, this`pending, this`limits
      ensures Snapshot() == FillLimit(old(Snapshot()), id, pays, receives, cullIfSmall)
      ensures filled <==> id !in limits
    {
      var o := limits[id];
      var fee := PayMarketFees(o.price.quoteId, receives);
      var _ := AdjustBalance(o.seller, o.price.quoteId, receives - fee);
      pending := pending[o.seller := Snapshot().Pending(o.seller) + o.deferredFee];
      assert Snapshot() == PaySeller(old(Snapshot()), o, receives);
      if pays == o.forSale {
        limits := limits - {id};
        return true;
      }
      limits := limits[id := o.(forSale := o.forSale - pays, deferredFee := 0)];
      if cullIfSmall && TooSmall(limits[id]) {
        CancelLimitOrder(id);
        return true;
      }
      return false;
    }

    method FillCallOrder(k: Position, pays: nat, receives: nat) returns (filled: bool)
      requires k in calls && k.1 in assets
      requires pays <= calls[k].collateral && receives <= calls[k].debt
      modifies this`balances, this`assets, this`calls
      ensures Snapshot() == FillCall(old(Snapshot()), k, pays, receives)
      ensures filled <==> k !in calls
    {
      var c := calls[k];
      assets := assets[k.1 := assets[k.1].(supply := assets[k.1].supply - receives)];
      if receives == c.debt {
        var _ := AdjustBalance(k.0, c.callPrice.baseId, c.collateral - pays);
        calls := calls - {k};
        return true;
      }
      calls := calls[k := c.(debt := c.debt - receives, collateral := c.collateral - pays)];
      return false;
    }

    // ------------------------------------------------------------------------------------------------------------
    // Global settlement.

    /** globally_settle_asset: throws if the asset is settled already. No fill it makes can fail. */
    method GloballySettleAsset(a: AssetId, price: Price) returns (ok: bool)
      requires Laws(Snapshot()) && Snapshot().IsBitasset(a) && price.base > 0
      modifies this`balances, this`assets, this`calls
      ensures ok <==> old(Snapshot()).Bit(a).settlement.None?
      ensures !ok ==> Snapshot() == old(Snapshot())
      ensures ok ==> GloballySettled(old(Snapshot()), Snapshot(), a, price)
      ensures ok ==> Kept(old(Snapshot()), Snapshot())
    {
      if assets[a].bit.value.settlement.Some? {
        return false;
      }
      ghost var s0 := Snapshot();
      var supply := assets[a].supply;
      var gathered := 0;
      SettlementStarts(s0, a, price);
      while CallsOf(calls, a) != {}
        invariant Closing(s0, Snapshot(), a, price, gathered) && Freed(s0, Snapshot(), a, price)
        invariant ClosingTotals(s0, Snapshot(), a, s0.Bit(a).backing, gathered)
        decreases calls.Keys
      {
        ghost var s := Snapshot();
        // every position is closed, so the order does not matter
        var k :| k in CallsOf(calls, a);
        var pays := PaysAt(calls[k], price);
        CloseStep(s0, s, a, price, gathered, k);
        gathered := gathered + pays;
        var filled := FillCallOrder(k, pays, calls[k].debt);
        assert filled;
      }
      AllClosed(s0, Snapshot(), a, price, gathered);
      SettlementRecorded(s0, Snapshot(), a, price, gathered);
      assets := assets[a := SettledRecord(assets[a], a, supply, gathered)];
      return true;
    }

    /** Whether the first position (by call price) can no longer be covered at the best price on offer, and the price at
        which its collateral just pays its debt. */
    method FindBlackSwan(a: AssetId) returns (swan: bool, price: Price)
      requires Good(Snapshot()) && Snapshot().IsBitasset(a)
      ensures swan <==> BlackSwan(Snapshot(), a)
      ensures swan ==> price.base > 0 && exists k :: FirstCall(calls, a, k) && price == SwanPrice(calls[k])
    {
      hide Good;
      var bit := assets[a].bit.value;
      price := Price(0, a, 0, bit.backing);
      var positions := CallsOf(calls, a);
      if bit.feed.None? || positions == {} {
        assert forall k :: k in calls && k.1 == a ==> k in positions;
        return false, price;
      }
      GoodPrices(Snapshot());
      ghost var k' := FirstCallExists(calls, a);
      var k :| k in calls && FirstCall(calls, a, k);
      forall j | FirstCall(calls, a, j) ensures j == k {
        FirstCallUnique(Snapshot(), a, k, j);
      }
      hide FirstCall;
      price := SwanPrice(calls[k]);
      var highest := bit.feed.value.price;
      var bidders := OffersOf(limits, a, bit.backing);
      if bidders != {} {
        ghost var i' := FirstLimitExists(limits, bidders);
        var i :| i in bidders && FirstLimit(limits, bidders, i);
        highest := if limits[i].price.Less(highest) then highest else limits[i].price;
        HighestOffer(Snapshot(), a, i, price);
      }
      return !price.Less(highest), price;
    }

    /** check_for_blackswan: settles the asset if its least covered position (by call price) can no longer be covered
        at the best price on offer. Throws if that is not allowed now. */
    method CheckForBlackSwan(a: AssetId, enable: bool) returns (ok: bool, swan: bool)
      requires Laws(Snapshot())
      modifies this`balances, this`assets, this`calls
      ensures var s := old(Snapshot());
              && (ok <==> enable || !s.IsBitasset(a) || s.Bit(a).settlement.Some? || !BlackSwan(s, a))
              && (ok ==> (swan <==> s.IsBitasset(a) && (s.Bit(a).settlement.Some? || BlackSwan(s, a))))
              && (!ok || !swan || s.Bit(a).settlement.Some? ==> Snapshot() == s)
              && (ok && swan && s.Bit(a).settlement.None? ==>
                    exists k :: FirstCall(s.calls, a, k) && GloballySettled(s, Snapshot(), a, SwanPrice(s.calls[k])))
      ensures Kept(old(Snapshot()), Snapshot())
    {
      hide Good, LifeCycle, Conserved, SameKinds, Harmless, BlackSwan, GloballySettled, FirstCall;
      KeptRefl(Snapshot());
      if a !in assets || assets[a].bit.None? {
        return true, false;
      }
      if assets[a].bit.value.settlement.Some? {
        return true, true;
      }
      var price;
      swan, price := FindBlackSwan(a);
      if !swan {
        return true, false;
      }
      if !enable {
        return false, false;
      }
      var _ := GloballySettleAsset(a, price);
      return true, true;
    }

    /** The first position and the first offer in range, if the offer can be met. */
    method FindMarginCall(a: AssetId, passed: set<nat>) returns (found: bool, k: Position, i: nat)
      requires Good(Snapshot()) && Unsettled(Snapshot(), a)
      requires Snapshot().Bit(a).feed.Some? && !Snapshot().Bit(a).prediction
      ensures found ==> && k in calls && FirstCall(calls, a, k) && i in InRange(limits, a, Snapshot().Bit(a), passed)
                        && FirstLimit(limits, InRange(limits, a, Snapshot().Bit(a), passed), i)
                        && Executable(Snapshot(), a, k, i)
                        && limits[i].price.Positive() && Snapshot().Bit(a).feed.value.price.Positive()
      ensures found <==> CallableBeyond(Snapshot(), a, passed)
    {
      hide Good, FirstCall, FirstLimit, CallableBeyond;
      k, i := (0, 0), 0;
      var offers := InRange(limits, a, assets[a].bit.value, passed);
      if CallsOf(calls, a) == {} || offers == {} {
        NothingToCall(Snapshot(), a, passed);
        return false, k, i;
      }
      GoodPrices(Snapshot());
      ghost var k' := FirstCallExists(calls, a);
      k :| k in calls && FirstCall(calls, a, k);
      ghost var i' := FirstLimitExists(limits, offers);
      i :| i in offers && FirstLimit(limits, offers, i);
      CallableWhen(Snapshot(), a, passed, k, i);
      return Executable(Snapshot(), a, k, i), k, i;
    }

    /** One turn of the loop in check_call_orders. `passed` are the offers the iterator has moved beyond; once an offer
        has been filled, `filledLimit` stays set and the iterator moves on in every turn. */
    method MarginCallTurn(a: AssetId, enable: bool, bit: Bitasset, passed: set<nat>, filledLimit: bool)
      returns (ok: bool, done: bool, called: bool, passed': set<nat>, filledLimit': bool)
      requires Laws(Snapshot()) && AlmostCollateralized(Snapshot(), a)
      requires Snapshot().IsBitasset(a) && Snapshot().Bit(a) == bit
      requires bit.settlement.None? && bit.feed.Some? && !bit.prediction
      modifies this`balances, this`assets, this`calls, this`limits, this`pending
      ensures !ok ==> !enable
      ensures ok ==> Kept(old(Snapshot()), Snapshot())
      ensures ok && done ==> Collateralized(Snapshot())
      ensures ok && !done ==> && called && AlmostCollateralized(Snapshot(), a)
                              && Snapshot().IsBitasset(a) && Snapshot().Bit(a) == bit
                              && |limits| + |calls| < |old(limits)| + |old(calls)|
                              && CalledOnce(Cursor(old(Snapshot()), passed, filledLimit),
                                            Cursor(Snapshot(), passed', filledLimit'), a)
      ensures ok && !called ==> limits == old(limits)
      ensures ok && !enable ==> Snapshot().IsBitasset(a) && Snapshot().Bit(a) == bit
      ensures ok && !called && (!enable || !BlackSwan(old(Snapshot()), a)) ==> Snapshot() == old(Snapshot())
      ensures !ok ==> BlackSwan(old(Snapshot()), a) || CallableBeyond(old(Snapshot()), a, passed)
      ensures ok && !BlackSwan(old(Snapshot()), a) ==> (called <==> CallableBeyond(old(Snapshot()), a, passed))
      ensures ok && done && Unsettled(Snapshot(), a) ==> !CallableBeyond(Snapshot(), a, passed')
      ensures ok && done ==> passed' == passed && filledLimit' == filledLimit
      ensures ok && done ==> Snapshot() == old(Snapshot()) || Swanned(old(Snapshot()), Snapshot(), a, passed)
      ensures forall j :: j in passed' && j !in passed ==> j in old(limits) && SoldSome(old(limits), limits, j)
    {
      hide Good, LifeCycle, Conserved, SameKinds, Harmless, Collateralized, AlmostCollateralized, BlackSwan,
           CallableBeyond,
           GloballySettled, CalledOnce, FillCall, FillLimit, FirstCall, FirstLimit, Executable;
      ghost var s := Snapshot();
      passed', filledLimit' := passed, filledLimit;
      var swan;
      ok, swan := CheckForBlackSwan(a, enable);
      if !ok {
        return false, true, false, passed', filledLimit';
      }
      if swan {
        SwanCollateralized(s, Snapshot(), a);
        SwanIsSettled(s, Snapshot(), a);
        assert Swanned(s, Snapshot(), a, passed);
        return true, true, false, passed', filledLimit';
      }
      NoSwanCollateralized(s, a);
      var found, k, i := FindMarginCall(a, passed);
      if !found {
        return true, true, false, passed', filledLimit';
      }
      var price, forSale, position := limits[i].price, limits[i].forSale, calls[k];
      if price.ToQuote(position.debt) > position.collateral {
        if !enable {
          return false, true, true, passed', filledLimit';
        }
        var _ := GloballySettleAsset(a, bit.feed.value.price);
        SwanCollateralized(s, Snapshot(), a);
        SwanIsSettled(s, Snapshot(), a);
        assert Unpayable(s, a, passed);
        return true, true, true, passed', filledLimit';
      }
      var (amount, pays) := CallAmounts(position.debt, position.collateral, forSale, price);
      MarginStep(s, a, k, i, amount, pays);
      assert amount > 0 by { SomethingToSell(s, k, i); }
      if amount == forSale {
        filledLimit' := true;
      }
      PositionOf(s, a, k);
      var _ := FillCallOrder(k, pays, amount);
      if filledLimit' {
        passed' := passed' + {i};
      }
      FillableLimit(Snapshot(), i);
      var _ := FillLimitOrder(i, amount, pays, true);
      MarginCalledOnce(Cursor(s, passed, filledLimit), Cursor(Snapshot(), passed', filledLimit'), a, k, i, amount,
        pays);
      OfferReduced(s, k, i, amount, pays);
      return true, false, true, passed', filledLimit';
    }

    /** check_call_orders: fills margin positions, lowest call price first, against the best offers above the squeeze
        price. Throws if a black swan shows that is not allowed now. */
    method CheckCallOrders(a: AssetId, enable: bool) returns (ok: bool, called: bool, ghost passed: set<nat>)
      requires Laws(Snapshot()) && Collateralized(Snapshot())
      modifies this`balances, this`assets, this`calls, this`limits, this`pending
      ensures !ok ==> !enable && Unsettled(old(Snapshot()), a)
      ensures !ok ==> BlackSwan(old(Snapshot()), a) || Callable(old(Snapshot()), a)
      ensures ok ==> Kept(old(Snapshot()), Snapshot()) && Collateralized(Snapshot())
      ensures ok && !called ==> limits == old(limits)
      ensures ok && !enable && Unsettled(old(Snapshot()), a) ==>
                Snapshot().IsBitasset(a) && Snapshot().Bit(a) == old(Snapshot()).Bit(a)
      ensures ok && !enable && !called ==> Snapshot() == old(Snapshot())
      ensures ok && Unsettled(old(Snapshot()), a) && !BlackSwan(old(Snapshot()), a) ==>
                (called <==> Callable(old(Snapshot()), a))
      // it changes nothing when there is nothing to do, and stops only when no offer it has not passed can be met
      ensures Idle(old(Snapshot()), a) ==> Snapshot() == old(Snapshot())
      ensures ok ==> !CallableBeyond(Snapshot(), a, passed) && NoneExecutable(Snapshot(), a, passed)
      // what happened is a series of margin calls, and a settlement at the end if one of them could not be paid
      ensures ok && Unsettled(old(Snapshot()), a) ==> CallsMade(old(Snapshot()), Snapshot(), a, passed)
      ensures !Unsettled(old(Snapshot()), a) ==> Snapshot() == old(Snapshot())
      ensures !enable && Unsettled(old(Snapshot()), a) && BlackSwan(old(Snapshot()), a) ==> !ok
      ensures ok ==> forall i :: i in passed ==> i in old(limits) && SoldSome(old(limits), limits, i)
    {
      hide Good, LifeCycle, Conserved, SameKinds, Harmless, BlackSwan, CallableBeyond, GloballySettled,
           CalledOnce, Swanned, Series, CallsMade, NoneExecutable;
      passed := {};
      ghost var s0 := Snapshot();
      KeptRefl(s0);
      if a !in assets || assets[a].bit.None? {
        OnlyUnsettledCallable(Snapshot(), a, passed);
        NobodyCalled(Snapshot(), a, passed);
        return true, false, passed;
      }
      var swan;
      ok, swan := CheckForBlackSwan(a, enable);
      if !ok {
        return false, false, passed;
      }
      if swan {
        if s0.Bit(a).settlement.None? {
          SwanCollateralized(s0, Snapshot(), a);
          SwanIsSettled(s0, Snapshot(), a);
          SwannedAtOnce(s0, Snapshot(), a);
        }
        OnlyUnsettledCallable(Snapshot(), a, passed);
        NobodyCalled(Snapshot(), a, passed);
        return true, false, passed;
      }
      var bit := assets[a].bit.value;
      NothingToCall(s0, a, {});
      NoCalls(s0, a);
      if bit.prediction || bit.feed.None? || InRange(limits, a, bit, {}) == {} {
        NobodyCalled(s0, a, {});
        return true, false, passed;
      }
      called := false;
      var beyond, filledLimit, done := {}, false, false;
      ghost var n := 0;
      hide Collateralized, AlmostCollateralized;
      while !done
        invariant Kept(s0, Snapshot())
        invariant done ==> Collateralized(Snapshot())
        invariant !done ==> AlmostCollateralized(Snapshot(), a) && Snapshot().IsBitasset(a) && Snapshot().Bit(a) == bit
        invariant !called ==> limits == s0.limits
        invariant !called && !done ==> Snapshot() == s0 && beyond == {}
        invariant !enable ==> Snapshot().IsBitasset(a) && Snapshot().Bit(a) == bit
        invariant !called && (!enable || !BlackSwan(s0, a)) ==> Snapshot() == s0
        invariant called || done ==> (called <==> Callable(s0, a))
        invariant done && Unsettled(Snapshot(), a) ==> !CallableBeyond(Snapshot(), a, beyond)
        invariant forall i :: i in beyond ==> i in s0.limits && SoldSome(s0.limits, limits, i)
        invariant if done then CallsMade(s0, Snapshot(), a, beyond)
                  else Series(Cursor(s0, {}, false), Cursor(Snapshot(), beyond, filledLimit), a, n)
        decreases !done, |limits| + |calls|
      {
        ghost var s, before, filled := Snapshot(), beyond, filledLimit;
        var called';
        ok, done, called', beyond, filledLimit := MarginCallTurn(a, enable, bit, beyond, filledLimit);
        if !ok {
          return false, called, beyond;
        }
        ReducedStill(s0.limits, s.limits, limits, before, beyond);
        KeptTrans(s0, s, Snapshot());
        OneMoreCall(s0, Cursor(s, before, filled), Cursor(Snapshot(), beyond, filledLimit), a, n);
        n := n + 1;
        called := called || called';
      }
      OnlyUnsettledCallable(Snapshot(), a, beyond);
      NobodyCalled(Snapshot(), a, beyond);
      return true, called, beyond;
    }

    // ------------------------------------------------------------------------------------------------------------
    // Limit orders.

    /** match() of a new order with a resting one, at the resting order's price. At least one of them is filled. */
    method MatchOrders(taker: nat, maker: nat) returns (takerFilled: bool, makerFilled: bool)
      requires Good(Snapshot())
      requires taker in limits && maker in limits && Crosses(limits[taker].price, limits[maker].price)
      modifies this`balances, this`assets, this`pending, this`limits
      ensures Snapshot() == Matched(old(Snapshot()), taker, maker)
      ensures Traded(old(Snapshot()), Snapshot(), taker, maker)
      ensures Evolves(old(Snapshot()), Snapshot())
      ensures takerFilled <==> taker !in limits
      ensures makerFilled <==> maker !in limits
      ensures takerFilled || makerFilled
      ensures forall i :: i != taker && i != maker ==> (i in limits <==> i in old(limits))
      ensures forall i :: i in limits && i != taker && i != maker ==> limits[i] == old(limits)[i]
    {
      hide Good, SameAssets, Steady, FillLimit, Harmless, Traded;
      ghost var s := Snapshot();
      FillableLimit(s, taker);
      FillableLimit(s, maker);
      var (paid, received) := MatchAmounts(limits[taker].forSale, limits[maker].forSale, limits[maker].price);
      MatchEvolves(s, taker, maker, paid, received);
      FillLimitFrame(s, taker, paid, received, false);
      takerFilled := FillLimitOrder(taker, paid, received, false);
      FillableLimit(Snapshot(), maker);
      FillLimitFrame(Snapshot(), maker, received, paid, true);
      makerFilled := FillLimitOrder(maker, received, paid, true);
      MatchedPays(s, taker, maker);
    }

    /** The matching loop of apply_order: resting orders are met in index order while they cross the new order. */
    method MatchAll(id: nat)
      requires Good(Snapshot()) && id in limits
      modifies this`balances, this`assets, this`pending, this`limits
      ensures Snapshot() == MatchedAll(old(Snapshot()), id)
      ensures Evolves(old(Snapshot()), Snapshot())
      ensures id in limits ==> Makers(limits, limits[id].price) == {}
      ensures InIndexOrder(old(limits), limits, Makers(old(limits), old(limits)[id].price))
    {
      hide Good, SameAssets, Steady, Harmless, Matched, MatchedAll;
      ghost var s0 := Snapshot();
      var price := limits[id].price;
      EvolvesRefl(s0);
      GoodPrices(s0);
      ghost var makers0 := Makers(limits, price);
      ghost var gone: set<nat> := {};
      assert id !in makers0 by { FillableLimit(s0, id); }
      while id in limits && Makers(limits, price) != {}
        invariant Evolves(s0, Snapshot()) && MatchedAll(Snapshot(), id) == MatchedAll(s0, id)
        invariant id in limits ==> Untouched(s0.limits, limits, makers0, gone)
        invariant InIndexOrder(s0.limits, limits, makers0)
        decreases |limits|
      {
        ghost var s := Snapshot();
        var makers := Makers(limits, price);
        GoodPrices(s);
        ghost var m' := FirstLimitExists(limits, makers);
        var m :| m in makers && FirstLimit(limits, makers, m);
        MakersLeft(s0.limits, limits, makers0, gone, price);
        assert limits[id].price == price;
        MatchedStep(s, id, m);
        var takerFilled, makerFilled := MatchOrders(id, m);
        EvolvesTrans(s0, s, Snapshot());
        Shrinks(s.limits, limits, if takerFilled then id else m);
        NextMaker(s0.limits, s.limits, limits, makers0, gone, id, m);
        gone := gone + {m};
      }
      MatchedDone(Snapshot(), id);
    }

    /** apply_order: margin calls first, then the matching loop, then margin calls again; what is left of a new order
        rests in the book unless it is too small. A new order leaves an uncrossed book uncrossed. */
    method ApplyOrder(id: nat) returns (filled: bool)
      requires Laws(Snapshot()) && Collateralized(Snapshot())
      requires id in limits && UncrossedBut(limits, id)
      modifies this`balances, this`assets, this`calls, this`limits, this`pending
      ensures Kept(old(Snapshot()), Snapshot()) && Collateralized(Snapshot())
      ensures Uncrossed(limits)
      ensures filled <==> id !in limits
      // what is left of the order would still get something for what it sells
      ensures id in limits ==> limits[id].price.base <= limits[id].forSale * limits[id].price.quote
      ensures JustMatched(old(Snapshot()), Snapshot(), id)
    {
      hide Good, LifeCycle, Conserved, SameKinds, Harmless, Steady, SameAssets, InIndexOrder, Uncrossed,
           UncrossedBut, Culled, Idle, MatchedAll, Collateralized, LimitsShrink, JustMatched;
      ghost var s0 := Snapshot();
      var price := limits[id].price;
      var called := CheckBoth(price);
      ghost var s2 := Snapshot();
      UncrossedButShrinks(s0.limits, limits, id);
      if called && id !in limits {
        GoneBefore(s0, s2, id);
        return true;
      }
      MatchAll(id);
      ghost var s3 := Snapshot();
      EvolvesKept(s2, s3);
      if id in limits { FillableLimit(s3, id); }
      NoMakersLeft(s2.limits, s3.limits, id);
      SameCallsCollateralized(s2, s3);
      var _ := CheckBoth(price);
      UncrossedShrinks(s3.limits, limits);
      KeptTrans(s2, s3, Snapshot());
      KeptTrans(s0, s2, Snapshot());
      ghost var s4 := Snapshot();
      filled := CullIfSmall(id, s0);
      MatchedInBetween(s0, s2, s3, s4, Snapshot(), id, price);
    }

    /** Margin calls in both assets of a price. */
    method CheckBoth(price: Price) returns (called: bool)
      requires Laws(Snapshot()) && Collateralized(Snapshot())
      modifies this`balances, this`assets, this`calls, this`limits, this`pending
      ensures Kept(old(Snapshot()), Snapshot()) && Collateralized(Snapshot())
      ensures !called ==> limits == old(limits)
      ensures Idle(old(Snapshot()), price.baseId) && Idle(old(Snapshot()), price.quoteId) ==>
                Snapshot() == old(Snapshot())
    {
      hide Good, LifeCycle, Conserved, SameKinds, Harmless, BlackSwan, CallableBeyond, Idle, Collateralized;
      ghost var s0 := Snapshot();
      var _, c1, _ := CheckCallOrders(price.baseId, true);
      ghost var s1 := Snapshot();
      var _, c2, _ := CheckCallOrders(price.quoteId, true);
      KeptTrans(s0, s1, Snapshot());
      return c1 || c2;
    }

    /** What is left of an order is taken back if it is too small. */
    method CullIfSmall(id: nat, ghost s0: State) returns (gone: bool)
      requires Kept(s0, Snapshot()) && Collateralized(Snapshot()) && Uncrossed(limits)
      modifies this`balances, this`limits
      ensures Kept(s0, Snapshot()) && Collateralized(Snapshot()) && Uncrossed(limits)
      ensures gone <==> id !in limits
      ensures Good(old(Snapshot())) && Snapshot() == Culled(old(Snapshot()), id)
      ensures id in limits ==> limits[id].price.base <= limits[id].forSale * limits[id].price.quote
    {
      ghost var s := Snapshot();
      assert Laws(s) && Good(s);
      hide Good, Conserved, SameKinds, Harmless, Uncrossed, CancelLimit, LifeCycle;
      if id !in limits {
        return true;
      }
      FillableLimit(s, id);
      TooSmallMeans(limits[id]);
      if TooSmall(limits[id]) {
        CancelLimitKept(s, id);
        CancelLimitOrder(id);
        KeptTrans(s0, s, Snapshot());
        UncrossedShrinks(s.limits, limits);
        return true;
      }
      return false;
    }

    // ------------------------------------------------------------------------------------------------------------

    /** An operation that throws is undone by its session: the tables are put back. */
    method PutBack(saved: State)
      modifies this
      ensures Snapshot() == saved
    {
      balances, limits, calls, settles := saved.balances, saved.limits, saved.calls, saved.settles;
      bids, assets, pending, nextId := saved.bids, saved.assets, saved.pending, saved.nextId;
    }
  }

  ghost predicate UncrossedBut(l: map<nat, LimitOrder>, id: nat) {
    forall i, j :: i in l && j in l && i != id && j != id ==> !Crosses(l[i].price, l[j].price)
  }

  lemma UncrossedButShrinks(l: map<nat, LimitOrder>, l': map<nat, LimitOrder>, id: nat)
    requires UncrossedBut(l, id) && LimitsShrink(l, l')
    ensures UncrossedBut(l', id)
    ensures id !in l' ==> Uncrossed(l')
  {
  }

  lemma NoMakersLeft(l: map<nat, LimitOrder>, l': map<nat, LimitOrder>, id: nat)
    requires UncrossedBut(l, id) && LimitsShrink(l, l')
    requires id in l' ==> Makers(l', l'[id].price) == {}
    requires id in l' ==> l'[id].price.baseId != l'[id].price.quoteId
    ensures Uncrossed(l')
  {
    forall i, j | i in l' && j in l' ensures !Crosses(l'[i].price, l'[j].price) {
      if i == id {
        assert j !in Makers(l', l'[id].price);
      } else if j == id {
        assert i !in Makers(l', l'[id].price);
        CrossesBothWays(l'[i].price, l'[j].price);
      }
    }
  }

  lemma CrossesBothWays(p: Price, q: Price)
    ensures Crosses(p, q) <==> Crosses(q, p)
  {
  }

  lemma EvolvesKept(s: State, t: State)
    requires Laws(s) && Evolves(s, t) && t.settles == s.settles
    ensures Kept(s, t)
  {
    hide Good, LifeCycle, Steady, SameAssets, SameKinds, Conserved, Harmless;
    LifeCycleSteady(s, t);
    SteadyConserved(s, t);
    SameAssetsSameKinds(s, t);
  }

  lemma CancelLimitKept(s: State, id: nat)
    requires Laws(s) && id in s.limits
    ensures Kept(s, CancelLimit(s, id))
    ensures CancelLimit(s, id) == s.(balances := CancelLimit(s, id).balances, limits := s.limits - {id})
  {
    hide Good, LifeCycle, Held, Debt, SameAssets, Harmless;
    var t := CancelLimit(s, id);
    CancelLimitHarmless(s, id);
    GoodOrders(s);
    assert SameAssets(s, t) by { SameAssetsRefl(s, t); }
    GoodAgain(s, t);
    forall a: AssetId
      ensures Held(t, a) - t.Supply(a) == Held(s, a) - s.Supply(a)
      ensures Debt(t, a) - t.Supply(a) == Debt(s, a) - s.Supply(a)
    {
      CancelLimitTotals(s, id, a);
    }
    EvolvesKept(s, t);
  }

  lemma SameAssetsRefl(s: State, t: State)
    requires s.assets == t.assets
    ensures SameAssets(s, t)
  {
  }

  /** A match at the maker's price. */
  ghost function Matched(s: State, taker: nat, maker: nat): State
    requires Good(s) && taker in s.limits && maker in s.limits && Crosses(s.limits[taker].price, s.limits[maker].price)
  {
    FillableLimit(s, taker);
    FillableLimit(s, maker);
    var (paid, received) := MatchAmounts(s.limits[taker].forSale, s.limits[maker].forSale, s.limits[maker].price);
    MatchEvolves(s, taker, maker, paid, received);
    FillableLimit(FillLimit(s, taker, paid, received, false), maker);
    FillLimit(FillLimit(s, taker, paid, received, false), maker, received, paid, true)
  }

  /** Each seller gets what the other one gives, less the market fee, and nobody else gets anything; what is left of the
      maker goes back to its seller if it is too small to stay. */
  ghost predicate Traded(s: State, t: State, taker: nat, maker: nat)
    requires taker in s.limits && maker in s.limits
    requires s.limits[taker].price.quoteId in s.assets && s.limits[maker].price.quoteId in s.assets
  {
    var o, m := s.limits[taker], s.limits[maker];
    exists paid: nat, received: nat {:trigger AtMakersPrice(o.forSale, m.forSale, m.price, paid, received)} ::
      && AtMakersPrice(o.forSale, m.forSale, m.price, paid, received)
      && var fee, fee' := MarketFee(s.assets[o.price.quoteId], received), MarketFee(s.assets[m.price.quoteId], paid);
         && (taker in t.limits ==> t.limits[taker].forSale == o.forSale - paid)
         && (maker in t.limits ==> t.limits[maker].forSale == m.forSale - received)
         && forall w: AccountId, a: AssetId {:trigger t.Balance(w, a)} ::
              t.Balance(w, a) == s.Balance(w, a) + Earned(o, received - fee, w, a) + Earned(m, paid - fee', w, a)
                                 + if w == m.seller && a == m.price.baseId && maker !in t.limits
                                   then m.forSale - received else 0
  }

  lemma MatchedPays(s: State, taker: nat, maker: nat)
    requires Good(s) && taker in s.limits && maker in s.limits && Crosses(s.limits[taker].price, s.limits[maker].price)
    ensures s.limits[taker].price.quoteId in s.assets && s.limits[maker].price.quoteId in s.assets
    ensures Traded(s, Matched(s, taker, maker), taker, maker)
  {
    hide Good, SameAssets, Evolves, Filled, MarketFee;
    FillableLimit(s, taker);
    FillableLimit(s, maker);
    var o, m := s.limits[taker], s.limits[maker];
    var (paid, received) := MatchAmounts(o.forSale, m.forSale, m.price);
    MatchIsAtMakersPrice(o.forSale, m.forSale, m.price);
    MatchEvolves(s, taker, maker, paid, received);
    hide AtMakersPrice, MatchAmounts, FillLimit, Traded;
    FillLimitFrame(s, taker, paid, received, false);
    var u := FillLimit(s, taker, paid, received, false);
    SameFee(s, u, m.price.quoteId, paid);
    FillLimitResult(s, taker, paid, received, false);
    FillLimitResult(u, maker, received, paid, true);
    TradedBy(s, u, Matched(s, taker, maker), taker, maker, paid, received);
  }

  lemma TradedBy(s: State, u: State, t: State, taker: nat, maker: nat, paid: nat, received: nat)
    requires taker in s.limits && maker in s.limits && taker != maker
    requires s.limits[taker].price.quoteId in s.assets && s.limits[maker].price.quoteId in s.assets
    requires maker in u.limits && u.limits[maker] == s.limits[maker] && s.limits[maker].price.quoteId in u.assets
    requires MarketFee(u.assets[s.limits[maker].price.quoteId], paid)
             == MarketFee(s.assets[s.limits[maker].price.quoteId], paid)
    requires AtMakersPrice(s.limits[taker].forSale, s.limits[maker].forSale, s.limits[maker].price, paid, received)
    requires Filled(s, u, taker, paid, received) && (taker !in u.limits ==> paid == s.limits[taker].forSale)
    requires Filled(u, t, maker, received, paid)
    ensures Traded(s, t, taker, maker)
  {
    hide AtMakersPrice, MarketFee, Earned;
  }

  lemma SameFee(s: State, t: State, x: AssetId, amount: nat)
    requires SameAssets(s, t) && x in s.assets
    ensures x in t.assets && MarketFee(t.assets[x], amount) == MarketFee(s.assets[x], amount)
  {
    assert SameTerms(s.assets[x], t.assets[x]);
  }

  /** One of the two is gone after it. */
  lemma MatchedShrinks(s: State, taker: nat, maker: nat)
    requires Good(s) && taker in s.limits && maker in s.limits && Crosses(s.limits[taker].price, s.limits[maker].price)
    ensures var t := Matched(s, taker, maker);
            Good(t) && |t.limits| < |s.limits|
  {
    hide Good, FillLimit, SameAssets, Steady, Harmless;
    FillableLimit(s, taker);
    FillableLimit(s, maker);
    var (paid, received) := MatchAmounts(s.limits[taker].forSale, s.limits[maker].forSale, s.limits[maker].price);
    MatchEvolves(s, taker, maker, paid, received);
    var u := FillLimit(s, taker, paid, received, false);
    FillLimitFrame(s, taker, paid, received, false);
    FillableLimit(u, maker);
    FillLimitFrame(u, maker, received, paid, true);
    var t := FillLimit(u, maker, received, paid, true);
    Shrinks(s.limits, t.limits, taker);
    Shrinks(s.limits, t.limits, maker);
  }

  ghost function FirstMaker(s: State, id: nat): (m: nat)
    requires Good(s) && id in s.limits && Makers(s.limits, s.limits[id].price) != {}
    ensures m in Makers(s.limits, s.limits[id].price)
    ensures FirstLimit(s.limits, Makers(s.limits, s.limits[id].price), m)
  {
    SomeFirstMaker(s, id);
    var m :| m in Makers(s.limits, s.limits[id].price) && FirstLimit(s.limits, Makers(s.limits, s.limits[id].price), m);
    m
  }

  lemma SomeFirstMaker(s: State, id: nat)
    requires Good(s) && id in s.limits && Makers(s.limits, s.limits[id].price) != {}
    ensures exists m :: && m in Makers(s.limits, s.limits[id].price)
                        && FirstLimit(s.limits, Makers(s.limits, s.limits[id].price), m)
  {
    GoodPrices(s);
    var m := FirstLimitExists(s.limits, Makers(s.limits, s.limits[id].price));
  }

  /** Order `id` matched with the resting orders that cross it, the first of them in turn, until it is filled or none is
      left. */
  ghost function MatchedAll(s: State, id: nat): State
    requires Good(s)
    decreases |s.limits|
  {
    if id !in s.limits || Makers(s.limits, s.limits[id].price) == {} then s
    else
      var m := FirstMaker(s, id);
      MatchedShrinks(s, id, m);
      MatchedAll(Matched(s, id, m), id)
  }

  lemma {:induction false} MatchedAllGood(s: State, id: nat)
    requires Good(s)
    ensures Good(MatchedAll(s, id))
    decreases |s.limits|
  {
    hide Good, Matched;
    if id in s.limits && Makers(s.limits, s.limits[id].price) != {} {
      var m := FirstMaker(s, id);
      MatchedShrinks(s, id, m);
      MatchedAllGood(Matched(s, id, m), id);
    }
  }

  lemma MatchedStep(s: State, id: nat, m: nat)
    requires Good(s) && id in s.limits && m in Makers(s.limits, s.limits[id].price)
    requires FirstLimit(s.limits, Makers(s.limits, s.limits[id].price), m)
    ensures Good(Matched(s, id, m)) && MatchedAll(s, id) == MatchedAll(Matched(s, id, m), id)
  {
    hide Good, Matched, FirstLimit;
    MatchedShrinks(s, id, m);
    FirstLimitUnique(s.limits, Makers(s.limits, s.limits[id].price), m, FirstMaker(s, id));
  }

  lemma MatchedDone(s: State, id: nat)
    requires Good(s) && (id !in s.limits || Makers(s.limits, s.limits[id].price) == {})
    ensures MatchedAll(s, id) == s
  {
  }

  /** What is left of an order is taken back if it is too small. */
  ghost function Culled(s: State, id: nat): State
    requires Good(s)
  {
    if id in s.limits && (FillableLimit(s, id); TooSmall(s.limits[id])) then CancelLimit(s, id) else s
  }

  /** When there are no margin calls before or after, an order is just matched and culled. */
  ghost predicate JustMatched(s: State, t: State, id: nat) {
    && Good(s) && id in s.limits && Good(MatchedAll(s, id))
    && var p, m := s.limits[id].price, MatchedAll(s, id);
       Idle(s, p.baseId) && Idle(s, p.quoteId) && Idle(m, p.baseId) && Idle(m, p.quoteId) ==> t == Culled(m, id)
  }

  lemma MatchedInBetween(s0: State, s2: State, s3: State, s4: State, t: State, id: nat, p: Price)
    requires Good(s0) && id in s0.limits && p == s0.limits[id].price && Good(s2) && Good(s4)
    requires Idle(s0, p.baseId) && Idle(s0, p.quoteId) ==> s2 == s0
    requires s3 == MatchedAll(s2, id)
    requires Idle(s3, p.baseId) && Idle(s3, p.quoteId) ==> s4 == s3
    requires t == Culled(s4, id)
    ensures JustMatched(s0, t, id)
  {
    MatchedAllGood(s0, id);
    hide Good, Idle, MatchedAll, Culled;
  }

  lemma SameCallsCollateralized(s: State, t: State)
    requires Collateralized(s) && t.calls == s.calls
    ensures Collateralized(t)
  {
  }

  lemma GoneBefore(s0: State, s2: State, id: nat)
    requires Good(s0) && id in s0.limits && id !in s2.limits
    requires Idle(s0, s0.limits[id].price.baseId) && Idle(s0, s0.limits[id].price.quoteId) ==> s2 == s0
    ensures JustMatched(s0, s2, id)
  {
    MatchedAllGood(s0, id);
    hide Good, Idle, MatchedAll, Culled;
  }

  /** The resting orders that cross an order with price `p`. */
  function Makers(l: map<nat, LimitOrder>, p: Price): set<nat> {
    set j | j in l && Crosses(p, l[j].price)
  }

  /** Orders of `c` that were reduced or removed come before those that were not. */
  ghost predicate InIndexOrder(l0: map<nat, LimitOrder>, l: map<nat, LimitOrder>, c: set<nat>)
    requires c <= l0.Keys
  {
    forall i, j :: i in c && j in c && !(i in l && l[i] == l0[i]) && j in l && l[j] == l0[j] ==> LimitBefore(l0, i, j)
  }

  /** So far the orders in `gone` were removed and the others of `c` were not touched; the former come first. */
  ghost predicate Untouched(l0: map<nat, LimitOrder>, l: map<nat, LimitOrder>, c: set<nat>, gone: set<nat>)
    requires c <= l0.Keys
  {
    && gone <= c
    && (forall i :: i in gone ==> i !in l)
    && (forall j :: j in c && j !in gone ==> j in l && l[j] == l0[j])
    && (forall i, j :: i in gone && j in c && j !in gone ==> LimitBefore(l0, i, j))
  }

  lemma MakersLeft(l0: map<nat, LimitOrder>, l: map<nat, LimitOrder>, c: set<nat>, gone: set<nat>, p: Price)
    requires c == Makers(l0, p) && LimitsShrink(l0, l) && Untouched(l0, l, c, gone)
    ensures Makers(l, p) == c - gone
  {
  }

  lemma NextMaker(l0: map<nat, LimitOrder>, l: map<nat, LimitOrder>, l': map<nat, LimitOrder>,
                  c: set<nat>, gone: set<nat>, id: nat, m: nat)
    requires c <= l0.Keys && Untouched(l0, l, c, gone) && id !in c
    requires m in c - gone && c - gone <= l.Keys && FirstLimit(l, c - gone, m)
    requires forall i :: i != id && i != m ==> (i in l' <==> i in l) && (i in l' ==> l'[i] == l[i])
    ensures m !in l' ==> Untouched(l0, l', c, gone + {m})
    ensures InIndexOrder(l0, l', c)
  {
    forall j | j in c && j !in gone && j != m ensures LimitBefore(l0, m, j) {
      assert LimitBefore(l, m, j);
    }
  }

  /** The offers of asset `a` for its backing asset at the squeeze price or better that the iterator has not passed. */
  function InRange(l: map<nat, LimitOrder>, a: AssetId, bit: Bitasset, passed: set<nat>): set<nat>
    requires bit.feed.Some?
  {
    set i | i in l && l[i].price.baseId == a && l[i].price.quoteId == bit.backing
            && !l[i].price.Less(CallPrices.SqueezePrice(bit.feed.value)) && i !in passed
  }

  ghost predicate Unsettled(s: State, a: AssetId) {
    s.IsBitasset(a) && s.Bit(a).settlement.None?
  }

  /** The position is not protected by the feed, and the offer is at its call price or better. */
  predicate Executable(s: State, a: AssetId, k: Position, i: nat)
    requires s.IsBitasset(a) && s.Bit(a).feed.Some? && k in s.calls && i in s.limits
  {
    var call := s.calls[k].callPrice.Inverse();
    !call.Less(s.Bit(a).feed.value.price) && !call.Less(s.limits[i].price)
  }

  /** A margin call can be executed: the first position against the first offer in range that has not been passed. */
  ghost predicate CallableBeyond(s: State, a: AssetId, passed: set<nat>) {
    && Unsettled(s, a) && !s.Bit(a).prediction && s.Bit(a).feed.Some?
    && exists k, i :: && FirstCall(s.calls, a, k)
                      && i in InRange(s.limits, a, s.Bit(a), passed)
                      && FirstLimit(s.limits, InRange(s.limits, a, s.Bit(a), passed), i)
                      && Executable(s, a, k, i)
  }

  ghost predicate Callable(s: State, a: AssetId) {
    CallableBeyond(s, a, {})
  }

  /** Whether a margin call can be executed is decided by the first position and the first offer. */
  lemma CallableWhen(s: State, a: AssetId, passed: set<nat>, k: Position, i: nat)
    requires Good(s) && Unsettled(s, a) && !s.Bit(a).prediction && s.Bit(a).feed.Some?
    requires k in s.calls && FirstCall(s.calls, a, k)
    requires i in s.limits
    ensures var c := InRange(s.limits, a, s.Bit(a), passed);
            i in c && FirstLimit(s.limits, c, i) ==> (CallableBeyond(s, a, passed) <==> Executable(s, a, k, i))
  {
    var c := InRange(s.limits, a, s.Bit(a), passed);
    if i in c && FirstLimit(s.limits, c, i) && CallableBeyond(s, a, passed) {
      var k', i' :| FirstCall(s.calls, a, k') && i' in c && FirstLimit(s.limits, c, i') && Executable(s, a, k', i');
      FirstCallUnique(s, a, k, k');
      assert i == i' by { FirstLimitUnique(s.limits, c, i, i'); }
    }
  }

  lemma FirstLimitUnique(l: map<nat, LimitOrder>, c: set<nat>, i: nat, j: nat)
    requires c <= l.Keys && FirstLimit(l, c, i) && FirstLimit(l, c, j)
    ensures i == j
  {
  }

  lemma NothingToCall(s: State, a: AssetId, passed: set<nat>)
    requires s.IsBitasset(a)
    ensures s.Bit(a).feed.None? || s.Bit(a).prediction ==> !CallableBeyond(s, a, passed)
    ensures CallsOf(s.calls, a) == {} ==> !CallableBeyond(s, a, passed)
    ensures s.Bit(a).feed.Some? && InRange(s.limits, a, s.Bit(a), passed) == {} ==> !CallableBeyond(s, a, passed)
  {
    assert forall k :: k in s.calls && k.1 == a ==> k in CallsOf(s.calls, a);
  }

  /** No position at all, not only the first, can be called at the first offer in range that has not been passed. */
  ghost predicate NoneExecutable(s: State, a: AssetId, passed: set<nat>) {
    Unsettled(s, a) && !s.Bit(a).prediction && s.Bit(a).feed.Some? ==>
      forall k, i :: k in s.calls && k.1 == a && i in s.limits
                     && FirstLimit(s.limits, InRange(s.limits, a, s.Bit(a), passed), i)
                     ==> !Executable(s, a, k, i)
  }

  lemma NobodyCalled(s: State, a: AssetId, passed: set<nat>)
    requires Good(s) && !CallableBeyond(s, a, passed)
    ensures NoneExecutable(s, a, passed)
  {
    if Unsettled(s, a) && !s.Bit(a).prediction && s.Bit(a).feed.Some? {
      GoodPrices(s);
      hide Good;
      forall k, i | && k in s.calls && k.1 == a && i in s.limits
                    && FirstLimit(s.limits, InRange(s.limits, a, s.Bit(a), passed), i)
        ensures !Executable(s, a, k, i)
      {
        assert k in CallsOf(s.calls, a);
        var j := FirstCallExists(s.calls, a);
        assert !Executable(s, a, j, i);
        FirstCallIsLowest(s.calls, a, j);
        var feed, offer := s.Bit(a).feed.value.price, s.limits[i].price;
        HigherCallPrice(s.calls[j].callPrice, s.calls[k].callPrice, feed);
        HigherCallPrice(s.calls[j].callPrice, s.calls[k].callPrice, offer);
      }
    }
  }

  /** A position with a higher call price is not called at a price at which one with a lower call price is not. */
  lemma HigherCallPrice(low: Price, high: Price, p: Price)
    requires low.Positive() && high.Positive() && p.Positive() && Value(low) <= Value(high)
    ensures low.Inverse().Less(p) ==> high.Inverse().Less(p)
  {
    LessIsByValue(low, p.Inverse());
    LessIsByValue(high, p.Inverse());
    LessIsByValue(p.Inverse(), low);
    LessIsByValue(p.Inverse(), high);
  }

  lemma OnlyUnsettledCallable(s: State, a: AssetId, passed: set<nat>)
    ensures CallableBeyond(s, a, passed) ==> Unsettled(s, a)
  {
  }

  /** The engine of margin calls has nothing to do for asset `a`. */
  ghost predicate Idle(s: State, a: AssetId) {
    s.IsBitasset(a) && s.Bit(a).settlement.None? ==> !BlackSwan(s, a) && !Callable(s, a)
  }

  /** The first position buys from the first offer what it needs, or what there is. */
  ghost function MarginCalled(s: State, a: AssetId, k: Position, i: nat): State
    requires Good(s) && FirstCall(s.calls, a, k) && s.IsBitasset(a)
    requires i in s.limits && s.limits[i].price.baseId == a && s.limits[i].price.quoteId == s.Bit(a).backing
    requires s.limits[i].price.base > 0 && s.limits[i].price.ToQuote(s.calls[k].debt) <= s.calls[k].collateral
  {
    PositionOf(s, a, k);
    var (amount, pays) := CallAmounts(s.calls[k].debt, s.calls[k].collateral, s.limits[i].forSale, s.limits[i].price);
    MarginFillFrame(s, k, i, amount, pays);
    FillableLimit(FillCall(s, k, pays, amount), i);
    FillLimit(FillCall(s, k, pays, amount), i, amount, pays, true)
  }

  /** A position buys as much of its debt as it owes or the offer sells, at the price of the offer, rounded down.
      What it buys is burned; what it pays goes to the seller of the offer, less the market fee. If that settles its
      debt, its owner gets the rest of the collateral; nobody else gets anything. */
  ghost predicate BoughtBack(s: State, t: State, k: Position, i: nat)
    requires k in s.calls && k.1 in s.assets && i in s.limits && s.limits[i].price.quoteId in s.assets
  {
    var c, o := s.calls[k], s.limits[i];
    var amount := if c.debt <= o.forSale then c.debt else o.forSale;
    exists pays: nat {:trigger MarketFee(s.assets[o.price.quoteId], pays)} ::
      && pays <= c.collateral && pays * o.price.base <= amount * o.price.quote < (pays + 1) * o.price.base
      && t.calls == (if amount == c.debt then s.calls - {k}
                     else s.calls[k := c.(debt := c.debt - amount, collateral := c.collateral - pays)])
      && t.Supply(k.1) == s.Supply(k.1) - amount
      && (i in t.limits ==> t.limits[i].forSale == o.forSale - amount)
      && forall w: AccountId, x: AssetId {:trigger t.Balance(w, x)} ::
           t.Balance(w, x) == s.Balance(w, x)
                              + Earned(o, pays - MarketFee(s.assets[o.price.quoteId], pays), w, x)
                              + (if w == k.0 && x == c.callPrice.baseId && amount == c.debt
                                 then c.collateral - pays else 0)
                              + (if w == o.seller && x == o.price.baseId && i !in t.limits
                                 then o.forSale - amount else 0)
  }

  lemma MarginCalledPays(s: State, a: AssetId, k: Position, i: nat)
    requires Good(s) && FirstCall(s.calls, a, k) && s.IsBitasset(a)
    requires i in s.limits && s.limits[i].price.baseId == a && s.limits[i].price.quoteId == s.Bit(a).backing
    requires s.limits[i].price.base > 0 && s.limits[i].price.ToQuote(s.calls[k].debt) <= s.calls[k].collateral
    ensures k.1 in s.assets && s.limits[i].price.quoteId in s.assets
    ensures BoughtBack(s, MarginCalled(s, a, k, i), k, i)
  {
    hide Good, SameAssets, MarketFee, FirstCall, Filled, BoughtBack, Credited, Held, Debt, FillCall, FillLimit;
    PositionOf(s, a, k);
    FillableLimit(s, i);
    var c, o := s.calls[k], s.limits[i];
    var (amount, pays) := CallAmounts(c.debt, c.collateral, o.forSale, o.price);
    assert amount == if c.debt <= o.forSale then c.debt else o.forSale;
    o.price.ToQuoteIsFloor(amount);
    MarginFillFrame(s, k, i, amount, pays);
    var u := FillCall(s, k, pays, amount);
    FillLimitResult(u, i, amount, pays, true);
    assert MarginCalled(s, a, k, i) == FillLimit(u, i, amount, pays, true);
    hide MarginCalled, CallAmounts;
    var t := MarginCalled(s, a, k, i);
    assert u.calls == (if amount == c.debt then s.calls - {k}
                       else s.calls[k := c.(debt := c.debt - amount, collateral := c.collateral - pays)])
           && SameAssets(s, u)
    by { FillCallFrame(s, k, pays, amount); }
    assert t.Supply(k.1) == s.Supply(k.1) - amount by {
      FillCallTotals(s, k, pays, amount, a);
      FillLimitTotals(u, i, amount, pays, true, a);
    }
    FillCallPays(s, k, pays, amount);
    SameFee(s, u, o.price.quoteId, pays);
    BoughtBackFor(s, u, t, k, i, amount, pays);
  }

  lemma BoughtBackFor(s: State, u: State, t: State, k: Position, i: nat, amount: nat, pays: nat)
    requires k in s.calls && k.1 in s.assets && i in s.limits && s.limits[i].price.quoteId in s.assets
    requires u.limits == s.limits && s.limits[i].price.quoteId in u.assets
    requires MarketFee(u.assets[s.limits[i].price.quoteId], pays) ==
               MarketFee(s.assets[s.limits[i].price.quoteId], pays)
    requires Filled(u, t, i, amount, pays)
    requires var c, o := s.calls[k], s.limits[i];
             && amount == (if c.debt <= o.forSale then c.debt else o.forSale)
             && pays <= c.collateral && pays * o.price.base <= amount * o.price.quote < (pays + 1) * o.price.base
             && u.calls == (if amount == c.debt then s.calls - {k}
                            else s.calls[k := c.(debt := c.debt - amount, collateral := c.collateral - pays)])
             && t.Supply(k.1) == s.Supply(k.1) - amount
             && Credited(s, u, k.0, c.callPrice.baseId, if amount == c.debt then c.collateral - pays else 0)
    ensures BoughtBack(s, t, k, i)
  {
    hide MarketFee, Earned;
    var c, o := s.calls[k], s.limits[i];
    var fee := MarketFee(s.assets[o.price.quoteId], pays);
    forall w: AccountId, x: AssetId
      ensures t.Balance(w, x) == s.Balance(w, x) + Earned(o, pays - fee, w, x)
                                 + (if w == k.0 && x == c.callPrice.baseId && amount == c.debt
                                    then c.collateral - pays else 0)
                                 + (if w == o.seller && x == o.price.baseId && i !in t.limits
                                    then o.forSale - amount else 0)
    {
      assert u.Balance(w, x) == s.Balance(w, x) + if w == k.0 && x == c.callPrice.baseId
                                                  then if amount == c.debt then c.collateral - pays else 0 else 0;
    }
  }

  /** The market in the middle of the margin calls of an asset: the offers that the iterator has moved beyond, and
      whether an offer has been filled. */
  datatype Cursor = Cursor(s: State, passed: set<nat>, filled: bool)

  /** One margin call: the first position meets the first offer in range that has not been passed. Once an offer has
      been filled, every offer that is met is passed. */
  ghost predicate CalledOnce(c: Cursor, d: Cursor, a: AssetId) {
    var s := c.s;
    exists k, i ::
      && Good(s) && FirstCall(s.calls, a, k) && s.IsBitasset(a) && i in s.limits
      && s.limits[i].price.baseId == a && s.limits[i].price.quoteId == s.Bit(a).backing
      && s.limits[i].price.base > 0 && s.limits[i].price.ToQuote(s.calls[k].debt) <= s.calls[k].collateral
      && s.Bit(a).feed.Some? && FirstLimit(s.limits, InRange(s.limits, a, s.Bit(a), c.passed), i)
      && Executable(s, a, k, i) && d.s == MarginCalled(s, a, k, i)
      && d.filled == (c.filled || s.limits[i].forSale <= s.calls[k].debt)
      && d.passed == if d.filled then c.passed + {i} else c.passed
  }

  /** A series of `n` margin calls. */
  ghost predicate Series(c: Cursor, d: Cursor, a: AssetId, n: nat)
    decreases n
  {
    if n == 0 then d == c else exists e :: Series(c, e, a, n - 1) && CalledOnce(e, d, a)
  }

  /** The first position cannot pay what it owes at the offer it has to meet. */
  ghost predicate Unpayable(s: State, a: AssetId, passed: set<nat>) {
    && s.IsBitasset(a) && s.Bit(a).feed.Some?
    && exists k, i :: && k in s.calls && FirstCall(s.calls, a, k) && i in s.limits && Executable(s, a, k, i)
                      && FirstLimit(s.limits, InRange(s.limits, a, s.Bit(a), passed), i) && s.limits[i].price.base > 0
                      && s.limits[i].price.ToQuote(s.calls[k].debt) > s.calls[k].collateral
  }

  /** The asset has been settled: for a black swan, or because the first position cannot pay. */
  ghost predicate Swanned(s: State, t: State, a: AssetId, passed: set<nat>) {
    || (&& s.IsBitasset(a) && BlackSwan(s, a)
        && exists k :: FirstCall(s.calls, a, k) && GloballySettled(s, t, a, SwanPrice(s.calls[k])))
    || (Unpayable(s, a, passed) && GloballySettled(s, t, a, s.Bit(a).feed.value.price))
  }

  /** Margin calls one after the other from the best offer on, and a settlement if it comes to that. */
  ghost predicate CallsMade(s: State, t: State, a: AssetId, passed: set<nat>) {
    exists u, filled, n :: && Series(Cursor(s, {}, false), Cursor(u, passed, filled), a, n)
                           && (t == u || Swanned(u, t, a, passed))
  }

  lemma NoCalls(s: State, a: AssetId)
    ensures Series(Cursor(s, {}, false), Cursor(s, {}, false), a, 0) && CallsMade(s, s, a, {})
  {
    hide Swanned;
  }

  lemma SwannedAtOnce(s: State, t: State, a: AssetId)
    requires s.IsBitasset(a) && BlackSwan(s, a)
    requires exists k :: FirstCall(s.calls, a, k) && GloballySettled(s, t, a, SwanPrice(s.calls[k]))
    ensures CallsMade(s, t, a, {})
  {
    hide BlackSwan, GloballySettled;
    assert Swanned(s, t, a, {});
    assert Series(Cursor(s, {}, false), Cursor(s, {}, false), a, 0);
  }

  lemma OneMoreCall(s0: State, c: Cursor, d: Cursor, a: AssetId, n: nat)
    requires Series(Cursor(s0, {}, false), c, a, n)
    ensures CalledOnce(c, d, a) ==> Series(Cursor(s0, {}, false), d, a, n + 1)
    ensures d.passed == c.passed && (d.s == c.s || Swanned(c.s, d.s, a, c.passed)) ==> CallsMade(s0, d.s, a, d.passed)
  {
    hide CalledOnce, Swanned;
    assert c == Cursor(c.s, c.passed, c.filled);
  }

  /** After a settlement the asset's positions are gone, so none is left without collateral. */
  lemma SwanCollateralized(s: State, t: State, a: AssetId)
    requires AlmostCollateralized(s, a)
    requires exists price :: GloballySettled(s, t, a, price)
    ensures Collateralized(t)
  {
    hide SumBy, Freed;
  }

  /** The offer has sold something. */
  ghost predicate SoldSome(l: map<nat, LimitOrder>, l': map<nat, LimitOrder>, i: nat)
    requires i in l
  {
    i in l' ==> l'[i].forSale < l[i].forSale
  }

  lemma ReducedStill(l0: map<nat, LimitOrder>, l: map<nat, LimitOrder>, l': map<nat, LimitOrder>, before: set<nat>,
                     after: set<nat>)
    requires LimitsShrink(l0, l) && LimitsShrink(l, l')
    requires forall i :: i in before ==> i in l0 && SoldSome(l0, l, i)
    requires forall i :: i in after && i !in before ==> i in l && SoldSome(l, l', i)
    ensures forall i :: i in after ==> i in l0 && SoldSome(l0, l', i)
  {
  }

  lemma SomethingToSell(s: State, k: Position, i: nat)
    requires Good(s) && k in s.calls && i in s.limits
    ensures s.calls[k].debt > 0 && s.limits[i].forSale > 0
  {
  }

  lemma OfferReduced(s: State, k: Position, i: nat, amount: nat, pays: nat)
    requires Good(s) && k in s.calls && 0 < amount <= s.calls[k].debt && pays <= s.calls[k].collateral
    requires i in s.limits && amount <= s.limits[i].forSale
    requires s.limits[i].price.baseId == k.1 && s.limits[i].price.quoteId == s.calls[k].callPrice.baseId
    ensures k.1 in s.assets && Good(FillCall(s, k, pays, amount)) && FillCall(s, k, pays, amount).limits == s.limits
    ensures SoldSome(s.limits, FillLimit(FillCall(s, k, pays, amount), i, amount, pays, true).limits, i)
  {
    hide Good, SameAssets, FillCall, FillLimit;
    MarginFillFrame(s, k, i, amount, pays);
    FillLimitFrame(FillCall(s, k, pays, amount), i, amount, pays, true);
  }

  lemma SwanIsSettled(s: State, t: State, a: AssetId)
    requires exists price :: GloballySettled(s, t, a, price)
    ensures !Unsettled(t, a)
  {
    hide SumBy, Freed;
  }

  lemma MarginCalledOnce(c: Cursor, d: Cursor, a: AssetId, k: Position, i: nat, amount: nat, pays: nat)
    requires Good(c.s) && FirstCall(c.s.calls, a, k) && c.s.IsBitasset(a) && i in c.s.limits
    requires c.s.limits[i].price.baseId == a && c.s.limits[i].price.quoteId == c.s.Bit(a).backing
    requires c.s.limits[i].price.base > 0 && c.s.limits[i].price.ToQuote(c.s.calls[k].debt) <= c.s.calls[k].collateral
    requires c.s.Bit(a).feed.Some? && FirstLimit(c.s.limits, InRange(c.s.limits, a, c.s.Bit(a), c.passed), i)
    requires Executable(c.s, a, k, i)
    requires (amount, pays) ==
             CallAmounts(c.s.calls[k].debt, c.s.calls[k].collateral, c.s.limits[i].forSale, c.s.limits[i].price)
    requires d.s == MarginCalled(c.s, a, k, i)
    requires d.filled == (c.filled || amount == c.s.limits[i].forSale)
    requires d.passed == if d.filled then c.passed + {i} else c.passed
    ensures CalledOnce(c, d, a)
  {
    hide Good, MarginCalled, Executable, FirstCall, FirstLimit;
  }

  /** A position without collateral is a black swan; so if there is none, every position has collateral. */
  lemma NoSwanCollateralized(s: State, a: AssetId)
    requires AlmostCollateralized(s, a) && s.IsBitasset(a) && s.Bit(a).feed.Some?
    requires !BlackSwan(s, a)
    ensures Collateralized(s)
  {
    forall k | k in s.calls ensures s.calls[k].collateral > 0 {
      if s.calls[k].collateral == 0 {
        var p := SwanPrice(s.calls[k]);
        assert FirstCall(s.calls, a, k) && p.quote == 0;
        assert forall q: Price :: !p.Less(q);
      }
    }
  }

  /** A margin fill, table by table. */
  lemma MarginFillFrame(s: State, k: Position, i: nat, amount: nat, pays: nat)
    requires Good(s)
    requires k in s.calls && amount <= s.calls[k].debt && pays <= s.calls[k].collateral
    requires i in s.limits && amount <= s.limits[i].forSale
    requires s.limits[i].price.baseId == k.1 && s.limits[i].price.quoteId == s.calls[k].callPrice.baseId
    ensures k.1 in s.assets && Good(FillCall(s, k, pays, amount))
    ensures FillCall(s, k, pays, amount).limits == s.limits
    ensures var t := FillLimit(FillCall(s, k, pays, amount), i, amount, pays, true);
            var c := s.calls[k];
            && t.calls == (if amount == c.debt then s.calls - {k}
                           else s.calls[k := c.(debt := c.debt - amount, collateral := c.collateral - pays)])
            && (amount == s.limits[i].forSale ==> i !in t.limits)
            && t.settles == s.settles
  {
    hide Good, SameAssets, FillCall, FillLimit;
    GoodCallOf(s, k);
    FillCallGood(s, k, pays, amount);
    FillCallFrame(s, k, pays, amount);
    var t := FillCall(s, k, pays, amount);
    FillLimitFrame(t, i, amount, pays, true);
  }

  /** One round of margin calling: the position buys `amount` of its debt for `pays` of its collateral. */
  lemma MarginStep(s: State, a: AssetId, k: Position, i: nat, amount: nat, pays: nat)
    requires Laws(s) && Collateralized(s) && FirstCall(s.calls, a, k) && s.IsBitasset(a)
    requires i in s.limits && s.limits[i].price.baseId == a && s.limits[i].price.quoteId == s.Bit(a).backing
    requires amount <= s.calls[k].debt && amount <= s.limits[i].forSale && pays <= s.calls[k].collateral
    requires amount == s.calls[k].debt || amount == s.limits[i].forSale
    ensures Good(FillCall(s, k, pays, amount)) && FillCall(s, k, pays, amount).limits == s.limits
    ensures var t := FillLimit(FillCall(s, k, pays, amount), i, amount, pays, true);
            && Kept(s, t) && AlmostCollateralized(t, a)
            && t.IsBitasset(a) && t.Bit(a) == s.Bit(a)
            && |t.limits| + |t.calls| < |s.limits| + |s.calls|
  {
    hide Good, LifeCycle, Evolves, SameAssets, FillCall, FillLimit, FirstCall, Kept, Collateralized,
         AlmostCollateralized;
    assert k in s.calls && k.1 == a && s.calls[k].callPrice.baseId == s.Bit(a).backing by { PositionOf(s, a, k); }
    MarginFillEvolves(s, k, i, amount, pays);
    MarginFillFrame(s, k, i, amount, pays);
    FillableLimit(FillCall(s, k, pays, amount), i);
    var t := FillLimit(FillCall(s, k, pays, amount), i, amount, pays, true);
    EvolvesKept(s, t);
    EvolvesShrinks(s, t, a);
    FirstCallAfterFill(s, t, a, k);
    Shrinks(s.limits, t.limits, i);
    Shrinks(s.calls, t.calls, k);
  }

  lemma EvolvesShrinks(s: State, t: State, a: AssetId)
    requires Evolves(s, t) && s.IsBitasset(a)
    ensures t.IsBitasset(a) && t.Bit(a) == s.Bit(a)
    ensures t.limits.Keys <= s.limits.Keys && t.calls.Keys <= s.calls.Keys
  {
    hide Good, Steady, SameAssets, Harmless;
    SameBit(s, t, a);
  }

  lemma PositionOf(s: State, a: AssetId, k: Position)
    requires Good(s) && FirstCall(s.calls, a, k)
    ensures k in s.calls && k.1 == a && s.IsBitasset(a)
    ensures s.calls[k].callPrice.baseId == s.Bit(a).backing
  {
    GoodCallOf(s, k);
  }

  lemma SteadyConserved(s: State, t: State)
    requires Steady(s, t)
    ensures Conserved(s, t)
  {
    hide Held, Debt;
  }

  lemma SameBit(s: State, t: State, a: AssetId)
    requires SameAssets(s, t) && s.IsBitasset(a)
    ensures t.IsBitasset(a) && t.Bit(a) == s.Bit(a)
  {
    assert SameTerms(s.assets[a], t.assets[a]);
  }

  lemma Shrinks<K, V>(m: map<K, V>, m': map<K, V>, k: K)
    requires m'.Keys <= m.Keys
    ensures |m'| <= |m|
    ensures k in m && k !in m' ==> |m'| < |m|
  {
    SubsetSize(m'.Keys, m.Keys);
    if k in m && k !in m' {
      SubsetSize(m'.Keys, m.Keys - {k});
    }
  }

  lemma FirstCallAfterFill(s: State, t: State, a: AssetId, k: Position)
    requires Collateralized(s) && FirstCall(s.calls, a, k)
    requires forall j :: j in t.calls ==> j in s.calls && t.calls[j].callPrice == s.calls[j].callPrice
                                          && t.calls[j].id == s.calls[j].id
    requires forall j :: j in t.calls && j != k ==> t.calls[j] == s.calls[j]
    ensures AlmostCollateralized(t, a)
  {
  }

  /** The price at which a position's collateral just pays its debt. */
  function SwanPrice(c: CallOrder): Price {
    Collateralization(c).Inverse()
  }

  /** The limit orders that sell asset `a` for asset `b`. */
  function OffersOf(l: map<nat, LimitOrder>, a: AssetId, b: AssetId): set<nat> {
    set i | i in l && l[i].price.baseId == a && l[i].price.quoteId == b
  }

  /** Neither the feed nor any offer would buy the debt of the first position with its collateral. */
  ghost predicate BlackSwan(s: State, a: AssetId)
    requires s.IsBitasset(a)
  {
    && s.Bit(a).feed.Some?
    && exists k :: && FirstCall(s.calls, a, k)
                   && !SwanPrice(s.calls[k]).Less(s.Bit(a).feed.value.price)
                   && forall i :: i in OffersOf(s.limits, a, s.Bit(a).backing) ==>
                                  !SwanPrice(s.calls[k]).Less(s.limits[i].price)
  }

  lemma GoodPrices(s: State)
    requires Good(s)
    ensures forall k :: k in s.calls ==> s.calls[k].callPrice.Positive() && s.calls[k].debt > 0
    ensures forall i :: i in s.limits ==> s.limits[i].price.Positive()
    ensures forall a :: s.IsBitasset(a) && s.Bit(a).feed.Some? ==> s.Bit(a).feed.value.price.Positive()
    ensures forall k :: k in s.bids ==> s.bids[k].price.Positive()
  {
    forall a | s.IsBitasset(a) && s.Bit(a).feed.Some? ensures s.Bit(a).feed.value.price.Positive() {
      assert GoodAsset(s, a, s.assets[a]);
    }
  }

  /** The maximum of the feed and the first offer stands for the feed and all offers. */
  lemma HighestOffer(s: State, a: AssetId, i: nat, p: Price)
    requires Good(s) && s.IsBitasset(a) && s.Bit(a).feed.Some?
    requires var c := OffersOf(s.limits, a, s.Bit(a).backing);
             i in c && FirstLimit(s.limits, c, i)
    ensures var feed := s.Bit(a).feed.value.price;
            var c := OffersOf(s.limits, a, s.Bit(a).backing);
            var highest := if s.limits[i].price.Less(feed) then feed else s.limits[i].price;
            p.Less(highest) <==> p.Less(feed) || exists j :: j in c && p.Less(s.limits[j].price)
  {
    GoodPrices(s);
    var feed := s.Bit(a).feed.value.price;
    var c := OffersOf(s.limits, a, s.Bit(a).backing);
    var best := s.limits[i].price;
    var highest := if best.Less(feed) then feed else best;
    LessIsByValue(best, feed);
    LessIsByValue(feed, best);
    if !p.Less(highest) {
      NotLessBelow(p, highest, feed);
      NotLessBelow(p, highest, best);
      forall j | j in c ensures !p.Less(s.limits[j].price) {
        LessIsByValue(best, s.limits[j].price);
        LessIsByValue(s.limits[j].price, best);
        if j != i { assert LimitBefore(s.limits, i, j); }
        NotLessBelow(p, best, s.limits[j].price);
      }
    }
  }

  lemma SettlementStarts(s0: State, a: AssetId, price: Price)
    requires Laws(s0) && s0.IsBitasset(a) && s0.Bit(a).settlement.None?
    ensures s0.assets[a].supply >= 0 && s0.Bit(a).fund == 0
    ensures Closing(s0, s0, a, price, 0) && Freed(s0, s0, a, price)
    ensures ClosingTotals(s0, s0, a, s0.Bit(a).backing, 0)
  {
    assert LifeCycleOf(s0, a);
    DebtNonNegative(s0, a);
    hide SumBy, Held;
    assert s0.assets == s0.assets[a := s0.assets[a].(supply := s0.assets[a].supply)];
    assert Freed(s0, s0, a, price) by {
      assert forall who: AccountId, x: AssetId :: FreedTo(s0, s0.calls, a, price, who, x) == 0;
    }
  }

  lemma CloseStep(s0: State, s: State, a: AssetId, price: Price, gathered: nat, k: Position)
    requires Laws(s0) && s0.IsBitasset(a)
    requires Closing(s0, s, a, price, gathered) && Freed(s0, s, a, price)
    requires ClosingTotals(s0, s, a, s0.Bit(a).backing, gathered)
    requires k in CallsOf(s.calls, a)
    ensures k in s.calls && k.1 == a && a in s.assets
    ensures var pays := PaysAt(s.calls[k], price);
            var t := FillCall(s, k, pays, s.calls[k].debt);
            && Closing(s0, t, a, price, gathered + pays) && Freed(s0, t, a, price)
            && ClosingTotals(s0, t, a, s0.Bit(a).backing, gathered + pays)
            && t.calls == s.calls - {k}
  {
    assert k in s0.calls && GoodCall(s0, k, s0.calls[k]);
    hide Good, LifeCycle, ClosingTotals, Freed, SumBy, PaysAt;
    ClosePosition(s0, s, a, price, gathered, k);
    ClosePositionFrees(s0, s, a, price, gathered, k);
    ClosePositionTotals(s0, s, a, price, s0.Bit(a).backing, gathered, k);
  }

  lemma SettlementRecorded(s0: State, s: State, a: AssetId, price: Price, gathered: nat)
    requires Laws(s0) && s0.IsBitasset(a) && s0.Bit(a).settlement.None?
    requires s0.assets[a].supply >= 0 && s0.Bit(a).fund == 0
    requires Closing(s0, s, a, price, gathered)
    requires ClosingTotals(s0, s, a, s0.Bit(a).backing, gathered)
    requires var t := s.(assets := s.assets[a := SettledRecord(s.assets[a], a, s0.assets[a].supply, gathered)]);
             GloballySettled(s0, t, a, price)
    ensures var t := s.(assets := s.assets[a := SettledRecord(s.assets[a], a, s0.assets[a].supply, gathered)]);
            Kept(s0, t)
  {
    hide Good, LifeCycle, Held, Debt, SumBy, PaysAt, Freed, ClosingTotals;
    var t := s.(assets := s.assets[a := SettledRecord(s.assets[a], a, s0.assets[a].supply, gathered)]);
    forall x: AssetId
      ensures Held(t, x) == Held(s0, x) && t.Supply(x) == s0.Supply(x)
      ensures x != a ==> Debt(t, x) == Debt(s0, x)
    {
      RecordedTotals(s0, s, a, price, gathered, x);
    }
    FreedHarmless(s0, t, a, price);
    hide Harmless;
    SettledGood(s0, t, a, price);
    SettledLifeCycle(s0, t, a, price);
  }
}
