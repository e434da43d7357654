/** The operations that accounts perform on the market. Each either fails and changes nothing, or keeps the invariant
    of the market and conserves every asset. */
module MarketOperations {
  import opened Common
  import opened Arithmetic
  import opened Sums
  import opened MarketState
  import opened MarketFills
  import opened MarketIndex
  import opened MarketInvariant
  import opened MarketSwan
  import opened MarketCallPrice
  import opened Market

  // --------------------------------------------------------------------------------------------------------------
  // Limit orders.

  /** limit_order_create: the order fee is deferred into the order, and taken from the balance at the end. The order
      stands or is filled, in part or in full; a fill-or-kill order is filled in full. */
  method CreateLimitOrder(e: Engine, o: LimitOrder, fillOrKill: bool) returns (ok: bool)
    requires Inv(e.Snapshot())
    modifies e
    ensures !ok ==> e.Snapshot() == old(e.Snapshot())
    ensures ok ==> Inv(e.Snapshot()) && Conserved(old(e.Snapshot()), e.Snapshot())
    ensures ok ==> && o.forSale > 0 && o.price.base == o.forSale && o.price.quote > 0
                   && o.price.baseId != o.price.quoteId && {o.price.baseId, o.price.quoteId} <= old(e.assets).Keys
                   && old(e.Snapshot()).Balance(o.seller, o.price.baseId) >= o.forSale
    ensures ok ==> && e.nextId == old(e.nextId) + 1
                   && LimitsShrink(old(e.limits)[old(e.nextId) := o], e.limits)
                   && (fillOrKill ==> old(e.nextId) !in e.limits)
                   && (old(e.nextId) in e.limits ==>
                         var l := e.limits[old(e.nextId)]; l.price.base <= l.forSale * l.price.quote)
                   && Placed(old(e.Snapshot()), e.Snapshot(), o)
    ensures o.forSale > 0 && o.price.base == o.forSale && o.price.quote > 0
            && o.price.baseId != o.price.quoteId && {o.price.baseId, o.price.quoteId} <= old(e.assets).Keys
            && old(e.Snapshot()).Balance(o.seller, o.price.baseId) >= o.forSale && !fillOrKill
            && old(e.Snapshot()).Balance(o.seller, CORE) >=
               o.deferredFee + (if o.price.baseId == CORE then o.forSale else 0)
            ==> ok
    ensures ok ==> HarmlessBut(old(e.Snapshot()), e.Snapshot(), o.seller)
    // the seller loses what it sells and the fee, and no more
    ensures ok ==> forall a: AssetId {:trigger e.Snapshot().Balance(o.seller, a)} ::
              e.Snapshot().Balance(o.seller, a) >= old(e.Snapshot()).Balance(o.seller, a)
                                                   - (if a == o.price.baseId then o.forSale else 0)
                                                   - (if a == CORE then o.deferredFee else 0)
  {
    hide Good, LifeCycle, Conserved, SameKinds, Uncrossed, UncrossedBut, Harmless, JustMatched, LimitsShrink,
         HarmlessBut;
    var saved := e.Snapshot();
    if !MayCreate(saved, o) {
      return false;
    }
    OrderCreated(saved, o);
    var _ := e.AdjustBalance(o.seller, o.price.baseId, -(o.forSale as int));
    var id := e.nextId;
    e.limits, e.nextId := e.limits[id := o], e.nextId + 1;
    ghost var s1 := e.Snapshot();
    var filled := e.ApplyOrder(id);
    ghost var s2 := e.Snapshot();
    if fillOrKill && !filled {
      e.PutBack(saved);
      return false;
    }
    GrownBalance(s1, s2, o.seller, CORE);
    ok := e.AdjustBalance(o.seller, CORE, -(o.deferredFee as int));
    if !ok {
      e.PutBack(saved);
      return;
    }
    FeePaid(saved, s1, s2, o.seller, o.deferredFee);
    PlacedHarmless(saved, s1, s2, e.Snapshot(), o);
    assert Placed(saved, e.Snapshot(), o);
  }

  /** The order is entered, matched, and its fee taken. */
  ghost predicate Placed(s: State, t: State, o: LimitOrder) {
    && s.Balance(o.seller, o.price.baseId) >= o.forSale
    && exists u :: && JustMatched(AfterCreate(s, o), u, s.nextId) && Kept(AfterCreate(s, o), u)
                   && u.Balance(o.seller, CORE) >= o.deferredFee
                   && t == AddBalance(u, o.seller, CORE, -(o.deferredFee as int))
  }

  lemma PlacedHarmless(s: State, s1: State, s2: State, t: State, o: LimitOrder)
    requires s.Balance(o.seller, o.price.baseId) >= o.forSale && s1 == AfterCreate(s, o)
    requires Harmless(s1, s2) && s2.Balance(o.seller, CORE) >= o.deferredFee
    requires t == AddBalance(s2, o.seller, CORE, -(o.deferredFee as int))
    ensures HarmlessBut(s, t, o.seller)
    ensures forall a: AssetId {:trigger t.Balance(o.seller, a)} ::
              t.Balance(o.seller, a) >= s.Balance(o.seller, a) - (if a == o.price.baseId then o.forSale else 0)
                                        - (if a == CORE then o.deferredFee else 0)
  {
    ActsAlone(s, s1, o.seller);
    ActsAlone(s2, t, o.seller);
    hide OnlyActor, Involved;
    assert HarmlessBut(s1, s2, o.seller);
    hide HarmlessBut;
    HarmlessButTrans(s, s1, s2, o.seller);
    HarmlessButTrans(s, s2, t, o.seller);
    forall a: AssetId
      ensures t.Balance(o.seller, a) >= s.Balance(o.seller, a) - (if a == o.price.baseId then o.forSale else 0)
                                        - (if a == CORE then o.deferredFee else 0)
    {
      GrownBalance(s1, s2, o.seller, a);
    }
  }

  /** limit_order_cancel, by its seller; the margin calls it may have held up are executed. */
  method CancelOrder(e: Engine, who: AccountId, id: nat) returns (ok: bool)
    requires Inv(e.Snapshot())
    modifies e
    ensures ok <==> id in old(e.limits) && old(e.limits)[id].seller == who
    ensures !ok ==> e.Snapshot() == old(e.Snapshot())
    ensures ok ==> Inv(e.Snapshot()) && Conserved(old(e.Snapshot()), e.Snapshot())
    ensures ok ==> id !in e.limits && LimitsShrink(old(e.limits), e.limits)
    ensures ok ==> Harmless(old(e.Snapshot()), e.Snapshot())
    // the seller gets back what was left and the fee
    ensures ok ==> var o := old(e.limits)[id];
                   forall a: AssetId {:trigger e.Snapshot().Balance(who, a)} ::
                     e.Snapshot().Balance(who, a) >= old(e.Snapshot()).Balance(who, a)
                                                     + (if a == o.price.baseId then o.forSale else 0)
                                                     + (if a == CORE then o.deferredFee else 0)
    ensures ok ==> var t, p := CancelLimit(old(e.Snapshot()), id), old(e.limits)[id].price;
                   Kept(t, e.Snapshot()) && (Idle(t, p.baseId) && Idle(t, p.quoteId) ==> e.Snapshot() == t)
  {
    hide Good, LifeCycle, Conserved, SameKinds, Uncrossed, CancelLimit, Idle, Harmless;
    if id !in e.limits || e.limits[id].seller != who {
      return false;
    }
    var price := e.limits[id].price;
    ghost var s0 := e.Snapshot();
    CancelLimitKept(s0, id);
    e.CancelLimitOrder(id);
    ghost var s1 := e.Snapshot();
    var _ := e.CheckBoth(price);
    KeptTrans(s0, s1, e.Snapshot());
    UncrossedShrinks(s0.limits, e.limits);
    CancelLimitPays(s0, id);
    forall a: AssetId ensures s1.Balance(who, a) <= e.Snapshot().Balance(who, a) {
      GrownBalance(s1, e.Snapshot(), who, a);
    }
    return true;
  }


  /** A new order offers something for something else, and its seller has what it offers. */
  predicate MayCreate(s: State, o: LimitOrder) {
    && o.price.base == o.forSale && GoodLimit(s, o)
    && s.Balance(o.seller, o.price.baseId) >= o.forSale
  }

  lemma GrownBalance(s: State, t: State, who: AccountId, a: AssetId)
    requires Harmless(s, t)
    ensures s.Balance(who, a) <= t.Balance(who, a)
  {
    assert Spared(s, t, who);
    assert t.Balance(who, a) >= 0;
  }

  ghost function AfterCreate(s: State, o: LimitOrder): State
    requires s.Balance(o.seller, o.price.baseId) >= o.forSale
  {
    SetLimit(AddBalance(s, o.seller, o.price.baseId, -(o.forSale as int)), s.nextId, o).(nextId := s.nextId + 1)
  }

  /** A new order takes what it sells from the balance; its deferred fee is still to be paid. */
  lemma OrderCreated(s: State, o: LimitOrder)
    requires Inv(s)
    requires s.Balance(o.seller, o.price.baseId) >= o.forSale && GoodLimit(s, o)
    ensures var t := AfterCreate(s, o);
            && Laws(t) && UncrossedBut(t.limits, s.nextId) && Collateralized(t)
            && forall a: AssetId {:trigger Held(t, a)} ::
                 Held(t, a) == Held(s, a) + if a == CORE then o.deferredFee else 0
  {
    hide LifeCycle, Held;
    var t := AfterCreate(s, o);
    var s1 := AddBalance(s, o.seller, o.price.baseId, -(o.forSale as int));
    assert s.nextId !in s.limits;
    forall a: AssetId ensures Held(t, a) == Held(s, a) + if a == CORE then o.deferredFee else 0 {
      AddBalanceTotals(s, o.seller, o.price.baseId, -(o.forSale as int), a);
      SetLimitTotals(s1, s.nextId, o, a);
      SameTables(SetLimit(s1, s.nextId, o), t, a);
    }
    assert Good(t) by { GoodWithNewLimit(s, t, o); }
    assert !s.IsBitasset(CORE);
    hide Good;
    LifeCyclePlain(s, t);
  }

  lemma GoodWithNewLimit(s: State, t: State, o: LimitOrder)
    requires Good(s) && GoodLimit(s, o)
    requires t == s.(balances := t.balances, limits := s.limits[s.nextId := o], nextId := s.nextId + 1)
    ensures Good(t)
  {
    hide DistinctIds;
  }

  /** Taking the deferred fee from the balance squares the totals again. */
  lemma FeePaid(s0: State, s1: State, s2: State, who: AccountId, fee: nat)
    requires forall a: AssetId {:trigger Held(s1, a)} :: Held(s1, a) == Held(s0, a) + if a == CORE then fee else 0
    requires s1.assets == s0.assets
    requires Kept(s1, s2) && Collateralized(s2) && Uncrossed(s2.limits)
    requires s2.Balance(who, CORE) >= fee
    ensures var t := AddBalance(s2, who, CORE, -(fee as int));
            Inv(t) && Conserved(s0, t)
  {
    hide Good, LifeCycle, SameKinds, Held, Uncrossed;
    var t := AddBalance(s2, who, CORE, -(fee as int));
    forall a: AssetId
      ensures Held(t, a) == Held(s2, a) - if a == CORE then fee else 0
      ensures Held(t, a) - t.Supply(a) == Held(s0, a) - s0.Supply(a)
    {
      AddBalanceTotals(s2, who, CORE, -(fee as int), a);
      assert Held(s2, a) - s2.Supply(a) == Held(s1, a) - s1.Supply(a);
    }
    GoodBalances(s2, t);
    assert !s2.IsBitasset(CORE) by { CoreIsNoBitasset(s2); }
    LifeCyclePlain(s2, t);
  }

  // --------------------------------------------------------------------------------------------------------------
  // Margin positions.

  function CollateralOf(s: State, k: Position): nat { if k in s.calls then s.calls[k].collateral else 0 }

  function DebtOf(s: State, k: Position): nat { if k in s.calls then s.calls[k].debt else 0 }

  /** The asset can be borrowed, the account has what it pays, and the position ends up with both debt and collateral
      or is closed with neither. */
  predicate MayUpdate(s: State, k: Position, collateral: int, debt: int) {
    && (collateral != 0 || debt != 0)
    && s.IsBitasset(k.1) && s.Bit(k.1).settlement.None?
    && (if s.Bit(k.1).prediction then collateral == debt else s.Bit(k.1).feed.Some?)
    && s.Balance(k.0, k.1) + debt >= 0 && s.Balance(k.0, s.Bit(k.1).backing) - collateral >= 0
    && var c, d := CollateralOf(s, k) + collateral, DebtOf(s, k) + debt;
       (c > 0 && d > 0) || (k in s.calls && c == 0 && d == 0)
  }

  function RequiredRatio(b: Bitasset): nat { if b.feed.Some? then b.feed.value.mcr else DEFAULT_MCR }

  /** The position with its new amounts and the call price that goes with them. */
  function NewPosition(s: State, k: Position, collateral: int, debt: int): Option<CallOrder>
    requires MayUpdate(s, k, collateral, debt) && RequiredRatio(s.Bit(k.1)) > 0
  {
    var c: nat, d: nat := CollateralOf(s, k) + collateral, DebtOf(s, k) + debt;
    if d == 0 then None
    else Some(CallOrder(if k in s.calls then s.calls[k].id else s.nextId, c, d,
                        CallPrice(d, k.1, c, s.Bit(k.1).backing, RequiredRatio(s.Bit(k.1)))))
  }

  /** What is borrowed is issued, what is repaid is burned; collateral comes from the account's balance. */
  function Funded(s: State, k: Position, collateral: int, debt: int): State
    requires MayUpdate(s, k, collateral, debt) && s.Bit(k.1).backing != k.1
  {
    var s1 := SetSupply(AddBalance(s, k.0, k.1, debt), k.1, s.assets[k.1].supply + debt);
    AddBalance(s1, k.0, s.Bit(k.1).backing, -collateral)
  }

  /** The tables after the update, before any margin calls. */
  function Updated(s: State, k: Position, collateral: int, debt: int): State
    requires MayUpdate(s, k, collateral, debt) && RequiredRatio(s.Bit(k.1)) > 0 && s.Bit(k.1).backing != k.1
  {
    var c := NewPosition(s, k, collateral, debt);
    var s1 := Funded(s, k, collateral, debt);
    if c.None? then DropCall(s1, k)
    else SetCall(s1, k, c.value).(nextId := if k in s.calls then s.nextId else s.nextId + 1)
  }

  lemma FundedTotals(s: State, k: Position, collateral: int, debt: int, a: AssetId)
    requires MayUpdate(s, k, collateral, debt) && s.Bit(k.1).backing != k.1
    ensures var t := Funded(s, k, collateral, debt);
            && t == s.(balances := t.balances, assets := t.assets)
            && Held(t, a) == Held(s, a) + (if a == k.1 then debt else 0)
                             - (if a == s.Bit(k.1).backing then collateral else 0)
            && t.Supply(a) == s.Supply(a) + (if a == k.1 then debt else 0)
  {
    hide Held;
    var s0 := AddBalance(s, k.0, k.1, debt);
    var s1 := SetSupply(s0, k.1, s.assets[k.1].supply + debt);
    AddBalanceTotals(s, k.0, k.1, debt, a);
    SetSupplyTotals(s0, k.1, s.assets[k.1].supply + debt, a);
    AddBalanceTotals(s1, k.0, s.Bit(k.1).backing, -collateral, a);
  }

  lemma UpdatedTotals(s: State, k: Position, collateral: int, debt: int, a: AssetId)
    requires MayUpdate(s, k, collateral, debt) && RequiredRatio(s.Bit(k.1)) > 0 && s.Bit(k.1).backing != k.1
    requires k in s.calls ==> s.calls[k].callPrice.baseId == s.Bit(k.1).backing
    ensures var t := Updated(s, k, collateral, debt);
            && Held(t, a) - t.Supply(a) == Held(s, a) - s.Supply(a)
            && Debt(t, a) - t.Supply(a) == Debt(s, a) - s.Supply(a)
  {
    hide Held, Debt, CallPrice, Funded;
    var c := NewPosition(s, k, collateral, debt);
    var s1 := Funded(s, k, collateral, debt);
    FundedTotals(s, k, collateral, debt, a);
    SameCallsSameDebt(s, s1, a);
    if c.None? {
      DropCallTotals(s1, k, a);
    } else {
      SetCallTotals(s1, k, c.value, a);
      SameTables(SetCall(s1, k, c.value), Updated(s, k, collateral, debt), a);
    }
  }

  lemma GoodPosition(s: State, k: Position, collateral: int, debt: int)
    requires Good(s) && MayUpdate(s, k, collateral, debt)
    ensures RequiredRatio(s.Bit(k.1)) > 0 && s.Bit(k.1).backing != k.1
    ensures k in s.calls ==> s.calls[k].callPrice.baseId == s.Bit(k.1).backing
  {
    GoodAssetOf(s, k.1);
    if k in s.calls { GoodCallOf(s, k); }
  }

  lemma UpdatedGood(s: State, k: Position, collateral: int, debt: int)
    requires Good(s) && MayUpdate(s, k, collateral, debt)
    requires RequiredRatio(s.Bit(k.1)) > 0 && s.Bit(k.1).backing != k.1
    ensures var t := Updated(s, k, collateral, debt);
            Good(t) && SameAssets(s, t)
  {
    hide Good, CallPrice;
    var t := Updated(s, k, collateral, debt);
    var c := NewPosition(s, k, collateral, debt);
    SameAssetsUpdate(s, t, k.1);
    hide SameAssets;
    if c.None? {
      GoodOrders(s);
      GoodAgainCalls(s, t);
    } else {
      GoodWithPosition(s, t, k, c.value);
    }
  }

  lemma GoodWithPosition(s: State, t: State, k: Position, c: CallOrder)
    requires Good(s) && GoodCall(s, k, c) && SameAssets(s, t)
    requires t == s.(balances := t.balances, assets := t.assets, calls := s.calls[k := c], nextId := t.nextId)
    requires if k in s.calls then c.id == s.calls[k].id && t.nextId == s.nextId
             else c.id == s.nextId && t.nextId == s.nextId + 1
    ensures Good(t)
  {
    var u := s.(balances := t.balances, assets := t.assets);
    assert Good(u) by {
      hide Good, SameAssets;
      GoodOrders(s);
      SameAssetsBy(s, t, u);
      GoodAgain(s, u);
    }
    assert GoodCall(u, k, c) by { assert SameTerms(s.assets[k.1], t.assets[k.1]); }
    hide SameAssets;
    OnePositionMore(u, t, k, c);
  }

  lemma OnePositionMore(s: State, t: State, k: Position, c: CallOrder)
    requires Good(s) && GoodCall(s, k, c)
    requires t == s.(calls := s.calls[k := c], nextId := t.nextId)
    requires if k in s.calls then c.id == s.calls[k].id && t.nextId == s.nextId
             else c.id == s.nextId && t.nextId == s.nextId + 1
    ensures Good(t)
  {
    assert SameKinds(s, t);
    GoodOrders(s);
    OneCallMore(s, t, k, c);
    assert GoodAssets(t) by { hide GoodLimits, GoodCalls, GoodSettles, GoodBids; }
    GoodBidsStay(s, t);
    hide GoodAssets, GoodLimits, GoodCalls, GoodSettles, GoodBids, SameKinds;
    GoodLimitsAgain(s, t);
    GoodSettlesAgain(s, t);
  }

  lemma GoodBidsStay(s: State, t: State)
    requires GoodBids(s) && t.assets == s.assets && t.bids == s.bids
    ensures GoodBids(t)
  {
  }

  lemma OneCallMore(s: State, t: State, k: Position, c: CallOrder)
    requires GoodCalls(s) && GoodCall(s, k, c)
    requires t == s.(calls := s.calls[k := c], nextId := t.nextId)
    requires if k in s.calls then c.id == s.calls[k].id && t.nextId == s.nextId
             else c.id == s.nextId && t.nextId == s.nextId + 1
    ensures GoodCalls(t)
  {
  }

  lemma UpdatedLaws(s: State, k: Position, collateral: int, debt: int)
    requires Laws(s) && Collateralized(s) && MayUpdate(s, k, collateral, debt)
    ensures RequiredRatio(s.Bit(k.1)) > 0 && s.Bit(k.1).backing != k.1
    ensures var t := Updated(s, k, collateral, debt);
            Laws(t) && Collateralized(t) && Conserved(s, t)
  {
    hide Good, LifeCycle, Held, Debt, SameAssets;
    GoodPosition(s, k, collateral, debt);
    UpdatedGood(s, k, collateral, debt);
    hide CallPrice;
    var t := Updated(s, k, collateral, debt);
    assert Collateralized(t) && forall j :: j in t.calls && j !in s.calls ==> j == k;
    hide Updated, Collateralized, Steady;
    assert Steady(s, t) by { UpdatedSteady(s, k, collateral, debt); }
    SteadyConserved(s, t);
    LifeCycleSteady(s, t);
  }

  lemma UpdatedFrame(s: State, k: Position, collateral: int, debt: int)
    requires MayUpdate(s, k, collateral, debt) && RequiredRatio(s.Bit(k.1)) > 0 && s.Bit(k.1).backing != k.1
    ensures var t := Updated(s, k, collateral, debt);
            t.limits == s.limits && t.IsBitasset(k.1) && t.Bit(k.1) == s.Bit(k.1)
  {
    hide CallPrice, NewPosition, CollateralOf, DebtOf;
    var u := Funded(s, k, collateral, debt);
    assert u.IsBitasset(k.1) && u.Bit(k.1) == s.Bit(k.1) && u.limits == s.limits;
    hide Funded;
  }

  lemma UpdatedSteady(s: State, k: Position, collateral: int, debt: int)
    requires MayUpdate(s, k, collateral, debt) && RequiredRatio(s.Bit(k.1)) > 0 && s.Bit(k.1).backing != k.1
    requires k in s.calls ==> s.calls[k].callPrice.baseId == s.Bit(k.1).backing
    ensures Steady(s, Updated(s, k, collateral, debt))
  {
    hide Held, Debt, Updated;
    var t := Updated(s, k, collateral, debt);
    forall a: AssetId
      ensures Held(t, a) - t.Supply(a) == Held(s, a) - s.Supply(a)
      ensures Debt(t, a) - t.Supply(a) == Debt(s, a) - s.Supply(a)
    {
      UpdatedTotals(s, k, collateral, debt, a);
    }
  }

  /** The position would not be called at the current feed. */
  predicate Covered(s: State, k: Position)
    requires k in s.calls && s.IsBitasset(k.1)
  {
    s.Bit(k.1).prediction || (s.Bit(k.1).feed.Some? && s.calls[k].callPrice.Inverse().Less(s.Bit(k.1).feed.value.price))
  }

  /** What an update with permission comes to. */
  ghost predicate UpdateOutcome(s: State, k: Position, collateral: int, debt: int, ok: bool, t: State) {
    MayUpdate(s, k, collateral, debt) && RequiredRatio(s.Bit(k.1)) > 0 && s.Bit(k.1).backing != k.1 ==>
      var u := Updated(s, k, collateral, debt);
      && (ok ==> Kept(u, t) && (k in t.calls ==> Covered(t, k)))
      && (ok && (k in t.calls || k !in u.calls) ==> t == u)
      && (var checked := k in u.calls && !s.Bit(k.1).prediction;
          && (ok ==> if checked then exists passed :: CallsMade(u, t, k.1, passed) else t == u)
          && (checked && BlackSwan(u, k.1) ==> !ok))
      && (!BlackSwan(u, k.1) && !Callable(u, k.1) ==> (ok <==> k in u.calls ==> Covered(u, k)))
  }

  /** The part of call_order_update that moves the amounts. */
  method Reposition(e: Engine, k: Position, collateral: int, debt: int)
    requires MayUpdate(e.Snapshot(), k, collateral, debt)
    requires RequiredRatio(e.Snapshot().Bit(k.1)) > 0 && e.Snapshot().Bit(k.1).backing != k.1
    modifies e
    ensures e.Snapshot() == Updated(old(e.Snapshot()), k, collateral, debt)
  {
    hide CallPrice;
    var backing := e.assets[k.1].bit.value.backing;
    var position := NewPosition(e.Snapshot(), k, collateral, debt);
    var _ := e.AdjustBalance(k.0, k.1, debt);
    e.assets := e.assets[k.1 := e.assets[k.1].(supply := e.assets[k.1].supply + debt)];
    var _ := e.AdjustBalance(k.0, backing, -collateral);
    if position.None? {
      e.calls := e.calls - {k};
    } else {
      e.nextId := if k in e.calls then e.nextId else e.nextId + 1;
      e.calls := e.calls[k := position.value];
    }
  }

  /** call_order_update: borrows, repays, or moves collateral. It never sets off a global settlement; and the position
      it leaves behind, if any, has the amounts asked for and is not up for a margin call. */
  method UpdateCallOrder(e: Engine, k: Position, collateral: int, debt: int) returns (ok: bool)
    requires Inv(e.Snapshot())
    modifies e
    ensures !ok ==> e.Snapshot() == old(e.Snapshot())
    ensures ok ==> Inv(e.Snapshot()) && Conserved(old(e.Snapshot()), e.Snapshot())
    ensures ok ==> MayUpdate(old(e.Snapshot()), k, collateral, debt) && Unsettled(e.Snapshot(), k.1)
    ensures var s := old(e.Snapshot());
            var c, d := collateral + (if k in s.calls then s.calls[k].collateral else 0),
                        debt + (if k in s.calls then s.calls[k].debt else 0);
            MayUpdate(s, k, collateral, debt) <==>
            && (collateral != 0 || debt != 0) && Unsettled(s, k.1)
            && (if s.Bit(k.1).prediction then collateral == debt else s.Bit(k.1).feed.Some?)
            && -debt <= s.Balance(k.0, k.1) && collateral <= s.Balance(k.0, s.Bit(k.1).backing)
            && ((c > 0 && d > 0) || (c == d == 0 && k in s.calls))
    ensures UpdateOutcome(old(e.Snapshot()), k, collateral, debt, ok, e.Snapshot())
    ensures ok ==> HarmlessBut(old(e.Snapshot()), e.Snapshot(), k.0)
  {
    hide Good, LifeCycle, Conserved, SameKinds, Uncrossed, Harmless, CallPrice, BlackSwan, Callable, CallsMade,
         HarmlessBut;
    var saved := e.Snapshot();
    if !MayUpdate(saved, k, collateral, debt) {
      return false;
    }
    UpdatedLaws(saved, k, collateral, debt);
    UpdatedFrame(saved, k, collateral, debt);
    UpdatedPays(saved, k, collateral, debt);
    hide Collateralized, LimitsShrink, Updated;
    Reposition(e, k, collateral, debt);
    if k !in e.calls || saved.Bit(k.1).prediction {
      KeptRefl(e.Snapshot());
      return true;
    }
    ghost var s1 := e.Snapshot();
    var called;
    ghost var passed;
    ok, called, passed := e.CheckCallOrders(k.1, false);
    if !ok || (if called then k in e.calls else !Covered(e.Snapshot(), k)) {
      e.PutBack(saved);
      return false;
    }
    ConservedTrans(saved, s1, e.Snapshot());
    UncrossedShrinks(saved.limits, e.limits);
    assert HarmlessBut(s1, e.Snapshot(), k.0) by { HarmlessToOthers(s1, e.Snapshot(), k.0); }
    HarmlessButTrans(saved, s1, e.Snapshot(), k.0);
  }

  lemma HarmlessToOthers(s: State, t: State, actor: AccountId)
    requires Harmless(s, t)
    ensures HarmlessBut(s, t, actor)
  {
  }

  /** What is borrowed is issued to the owner of the position, who gives the collateral for it; what is repaid is
      burned, and collateral that is taken out comes back. */
  lemma UpdatedPays(s: State, k: Position, collateral: int, debt: int)
    requires MayUpdate(s, k, collateral, debt) && RequiredRatio(s.Bit(k.1)) > 0 && s.Bit(k.1).backing != k.1
    ensures var t := Updated(s, k, collateral, debt);
            && t.Balance(k.0, k.1) == s.Balance(k.0, k.1) + debt && t.Supply(k.1) == s.Supply(k.1) + debt
            && t.Balance(k.0, s.Bit(k.1).backing) == s.Balance(k.0, s.Bit(k.1).backing) - collateral
            && (forall w: AccountId, a: AssetId {:trigger t.Balance(w, a)} ::
                  w != k.0 || (a != k.1 && a != s.Bit(k.1).backing) ==> t.Balance(w, a) == s.Balance(w, a))
            && CollateralOf(t, k) == CollateralOf(s, k) + collateral && DebtOf(t, k) == DebtOf(s, k) + debt
            && (forall j :: j != k ==> (j in t.calls <==> j in s.calls))
            && (forall j :: j != k && j in t.calls ==> t.calls[j] == s.calls[j])
            && HarmlessBut(s, t, k.0)
  {
    hide CallPrice, HarmlessBut, OnlyActor, Funded;
    var u, t := Funded(s, k, collateral, debt), Updated(s, k, collateral, debt);
    FundedPays(s, k, collateral, debt);
    assert t == u.(calls := t.calls, nextId := t.nextId);
    assert forall j :: j != k ==> (j in t.calls <==> j in s.calls) && (j in t.calls ==> t.calls[j] == s.calls[j]);
    assert CollateralOf(t, k) == CollateralOf(s, k) + collateral && DebtOf(t, k) == DebtOf(s, k) + debt;
    hide Updated;
    assert forall w: AccountId, a: AssetId {:trigger t.Balance(w, a)} :: t.Balance(w, a) == u.Balance(w, a);
    assert OnlyActor(s, t, k.0) by { OnlyPosition(s, u, t, k); }
    ActsAlone(s, t, k.0);
  }

  lemma FundedPays(s: State, k: Position, collateral: int, debt: int)
    requires MayUpdate(s, k, collateral, debt) && s.Bit(k.1).backing != k.1
    ensures var t := Funded(s, k, collateral, debt);
            && t == s.(balances := t.balances, assets := t.assets) && t.Supply(k.1) == s.Supply(k.1) + debt
            && SameIssuers(s, t)
            && t.Balance(k.0, k.1) == s.Balance(k.0, k.1) + debt
            && t.Balance(k.0, s.Bit(k.1).backing) == s.Balance(k.0, s.Bit(k.1).backing) - collateral
            && (forall w: AccountId, a: AssetId {:trigger t.Balance(w, a)} ::
                  w != k.0 || (a != k.1 && a != s.Bit(k.1).backing) ==> t.Balance(w, a) == s.Balance(w, a))
  {
  }

  lemma OnlyPosition(s: State, u: State, t: State, k: Position)
    requires u == s.(balances := u.balances, assets := u.assets) && SameIssuers(s, u)
    requires t == u.(calls := t.calls, nextId := t.nextId)
    requires forall w: AccountId, a: AssetId {:trigger u.Balance(w, a)} ::
               w != k.0 ==> u.Balance(w, a) == s.Balance(w, a)
    requires forall j :: j in t.calls && j != k ==> j in s.calls
    ensures OnlyActor(s, t, k.0)
  {
    forall w: AccountId, a: AssetId | w != k.0 ensures t.Balance(w, a) == s.Balance(w, a) {
      assert u.Balance(w, a) == s.Balance(w, a);
    }
  }

  /** So a position is let stand if its collateral at the feed is worth more than the required ratio of its debt. */
  lemma CoveredMeans(s: State, k: Position, collateral: int, debt: int)
    requires Good(s) && MayUpdate(s, k, collateral, debt)
    requires RequiredRatio(s.Bit(k.1)) > 0 && s.Bit(k.1).backing != k.1
    ensures var t := Updated(s, k, collateral, debt);
            k in t.calls && !s.Bit(k.1).prediction ==>
              && t.IsBitasset(k.1) && t.Bit(k.1) == s.Bit(k.1) && s.Bit(k.1).feed.Some?
              && t.calls[k].debt > 0 && t.calls[k].collateral > 0 && s.Bit(k.1).feed.value.mcr > 0
              && CallTest(t.calls[k].debt, t.calls[k].collateral, s.Bit(k.1).feed.value, Covered(t, k))
  {
    var t := Updated(s, k, collateral, debt);
    if k in t.calls && !s.Bit(k.1).prediction {
      GoodAssetOf(s, k.1);
      UpdatedFrame(s, k, collateral, debt);
      CallPriceTests(t.calls[k].debt, t.calls[k].collateral, s.Bit(k.1).feed.value);
      hide CallPrice, CallTest, Good;
    }
  }

  // --------------------------------------------------------------------------------------------------------------
  // Settlement.

  /** The fund pays whoever redeems at the settlement price, rounded down; whoever redeems the last of the supply gets
      the rest of it. */
  function Payout(s: State, a: AssetId, amount: nat): nat
    requires s.IsBitasset(a) && s.Bit(a).settlement.Some? && s.Bit(a).settlement.value.base > 0
  {
    if amount == s.assets[a].supply then s.Bit(a).fund else s.Bit(a).settlement.value.ToQuote(amount)
  }

  /** A solvent fund can always pay, and stays solvent. */
  lemma FundSuffices(fund: nat, supply: int, p: Price, amount: nat)
    requires Solvent(fund, supply, p) && amount <= supply && p.base > 0
    ensures var paid := if amount == supply then fund else p.ToQuote(amount);
            paid <= fund && Solvent(fund - paid, supply - amount, p)
  {
    if amount != supply {
      var paid := p.ToQuote(amount);
      FloorBelow(amount, p.quote, p.base);
      assert amount * p.quote <= supply * p.quote;
      FloorWithin(amount, p.quote, p.base, fund);
      assert (fund - paid) * p.base == fund * p.base - paid * p.base;
      assert (supply - amount) * p.quote == supply * p.quote - amount * p.quote;
    }
  }

  /** What the fund pays is the settlement price's worth, rounded down, and all of it for all of the supply. */
  predicate FairShare(s: State, a: AssetId, amount: nat, paid: nat)
    requires s.IsBitasset(a) && s.Bit(a).settlement.Some?
  {
    var p := s.Bit(a).settlement.value;
    if amount == s.assets[a].supply then paid == s.Bit(a).fund
    else paid * p.base <= amount * p.quote < (paid + 1) * p.base
  }

  lemma PayoutIsFair(s: State, a: AssetId, amount: nat)
    requires s.IsBitasset(a) && s.Bit(a).settlement.Some? && s.Bit(a).settlement.value.base > 0
    ensures FairShare(s, a, amount, Payout(s, a, amount))
  {
    s.Bit(a).settlement.value.ToQuoteIsFloor(amount);
  }

  /** Whoever redeems gives the amount, which is burned, and gets a fair share of the fund; nobody else does. */
  ghost predicate PaidFromFund(s: State, t: State, who: AccountId, a: AssetId, amount: nat)
    requires s.IsBitasset(a) && s.Bit(a).settlement.Some?
  {
    exists paid: nat {:trigger FairShare(s, a, amount, paid)} ::
      && FairShare(s, a, amount, paid) && paid <= s.Bit(a).fund
      && t.IsBitasset(a) && t.Bit(a) == s.Bit(a).(fund := s.Bit(a).fund - paid)
      && t.Supply(a) == s.Supply(a) - amount
      && forall w: AccountId, x: AssetId {:trigger t.Balance(w, x)} ::
           t.Balance(w, x) == s.Balance(w, x) - (if w == who && x == a then amount else 0)
                              + (if w == who && x == s.Bit(a).backing then paid else 0)
  }

  lemma RedeemedPays(s: State, who: AccountId, a: AssetId, amount: nat)
    requires s.IsBitasset(a) && s.Bit(a).settlement.Some? && s.Bit(a).settlement.value.base > 0
    requires s.Balance(who, a) >= amount && Payout(s, a, amount) <= s.Bit(a).fund
    ensures PaidFromFund(s, Redeemed(s, who, a, amount), who, a, amount)
    ensures HarmlessBut(s, Redeemed(s, who, a, amount), who)
  {
    PayoutIsFair(s, a, amount);
    hide FairShare, Payout;
    ActsAlone(s, Redeemed(s, who, a, amount), who);
    hide HarmlessBut;
  }

  predicate MaySettle(s: State, who: AccountId, a: AssetId, amount: nat, forceable: bool) {
    && s.IsBitasset(a) && s.Balance(who, a) >= amount
    && match s.Bit(a).settlement
       case Some(p) => p.base > 0
       case None => forceable && !s.Bit(a).prediction && s.Bit(a).feed.Some?
  }

  /** What is redeemed is burned and paid for from the fund. */
  function Redeemed(s: State, who: AccountId, a: AssetId, amount: nat): State
    requires s.IsBitasset(a) && s.Bit(a).settlement.Some? && s.Bit(a).settlement.value.base > 0
    requires s.Balance(who, a) >= amount && Payout(s, a, amount) <= s.Bit(a).fund
  {
    var paid := Payout(s, a, amount);
    var s1 := AddBalance(s, who, a, -(amount as int));
    var s2 := SetBit(s1, a, s.Bit(a).(fund := s.Bit(a).fund - paid));
    var s3 := AddBalance(s2, who, s.Bit(a).backing, paid);
    SetSupply(s3, a, s.assets[a].supply - amount)
  }

  lemma RedeemedTotals(s: State, who: AccountId, a: AssetId, amount: nat, x: AssetId)
    requires s.IsBitasset(a) && s.Bit(a).settlement.Some? && s.Bit(a).settlement.value.base > 0
    requires s.Balance(who, a) >= amount && Payout(s, a, amount) <= s.Bit(a).fund
    ensures var t := Redeemed(s, who, a, amount);
            && Held(t, x) == Held(s, x) - (if x == a then amount else 0)
            && t.Supply(x) == s.Supply(x) - (if x == a then amount else 0)
  {
    hide Held, Payout;
    var paid := Payout(s, a, amount);
    var s1 := AddBalance(s, who, a, -(amount as int));
    var s2 := SetBit(s1, a, s.Bit(a).(fund := s.Bit(a).fund - paid));
    var s3 := AddBalance(s2, who, s.Bit(a).backing, paid);
    AddBalanceTotals(s, who, a, -(amount as int), x);
    SetBitTotals(s1, a, s.Bit(a).(fund := s.Bit(a).fund - paid), x);
    AddBalanceTotals(s2, who, s.Bit(a).backing, paid, x);
    SetSupplyTotals(s3, a, s.assets[a].supply - amount, x);
  }

  /** Redeeming always succeeds for whoever has the asset: the check that the fund suffices never fails. */
  lemma RedeemedWithin(s: State, who: AccountId, a: AssetId, amount: nat)
    requires Inv(s) && MaySettle(s, who, a, amount, true) && s.Bit(a).settlement.Some?
    ensures Payout(s, a, amount) <= s.Bit(a).fund
    ensures Solvent(s.Bit(a).fund - Payout(s, a, amount), s.assets[a].supply - amount, s.Bit(a).settlement.value)
    ensures LifeCycleOf(s, a)
  {
    hide Good, Uncrossed, Held;
    assert s.IsBitasset(a) && LifeCycleOf(s, a);
    assert amount <= s.assets[a].supply by { HeldCovers(s, a); }
    FundSuffices(s.Bit(a).fund, s.assets[a].supply, s.Bit(a).settlement.value, amount);
  }

  lemma RedeemedKeeps(s: State, who: AccountId, a: AssetId, amount: nat)
    requires Inv(s) && MaySettle(s, who, a, amount, true) && s.Bit(a).settlement.Some?
    ensures Payout(s, a, amount) <= s.Bit(a).fund
    ensures Inv(Redeemed(s, who, a, amount)) && Conserved(s, Redeemed(s, who, a, amount))
  {
    hide Good, Uncrossed, Held, Debt, Solvent, LifeCycle, Payout, Redeemed;
    RedeemedWithin(s, who, a, amount);
    var t := Redeemed(s, who, a, amount);
    RedeemedFrame(s, who, a, amount);
    forall x: AssetId
      ensures Held(t, x) == Held(s, x) - (if x == a then amount else 0)
      ensures t.Supply(x) == s.Supply(x) - (if x == a then amount else 0)
      ensures Debt(t, x) == Debt(s, x)
    {
      RedeemedTotals(s, who, a, amount, x);
      SameCallsSameDebt(s, t, x);
    }
    assert LifeCycleOf(t, a) by { assert Held(t, a) == Held(s, a) - amount; }
    LifeCycleBut(s, t, a);
    RedeemedGood(s, t, a);
  }

  lemma RedeemedGood(s: State, t: State, a: AssetId)
    requires Good(s) && s.IsBitasset(a) && t.IsBitasset(a)
    requires t == s.(balances := t.balances, assets := s.assets[a := t.assets[a]])
    requires t.Bit(a) == s.Bit(a).(fund := t.Bit(a).fund)
    requires t.assets[a] == s.assets[a].(supply := t.assets[a].supply, bit := t.assets[a].bit)
    ensures Good(t)
  {
    hide Good;
    GoodAssetOf(s, a);
    GoodBidsOf(s, a);
    GoodNewRecord(s, t, a);
  }

  lemma RedeemedFrame(s: State, who: AccountId, a: AssetId, amount: nat)
    requires s.IsBitasset(a) && s.Bit(a).settlement.Some? && s.Bit(a).settlement.value.base > 0
    requires s.Balance(who, a) >= amount && Payout(s, a, amount) <= s.Bit(a).fund
    ensures var t := Redeemed(s, who, a, amount);
            && t == s.(balances := t.balances, assets := t.assets)
            && t.IsBitasset(a) && t.Bit(a) == s.Bit(a).(fund := s.Bit(a).fund - Payout(s, a, amount))
            && t.assets[a] == s.assets[a].(supply := s.assets[a].supply - amount, bit := t.assets[a].bit)
            && t.assets == s.assets[a := t.assets[a]]
  {
    hide Payout;
  }

  function SettleRequested(s: State, who: AccountId, a: AssetId, amount: nat, date: nat): State
    requires s.Balance(who, a) >= amount
  {
    SetSettle(AddBalance(s, who, a, -(amount as int)), s.nextId, SettleOrder(who, amount, a, date))
      .(nextId := s.nextId + 1)
  }

  lemma SettleRequestedKeeps(s: State, who: AccountId, a: AssetId, amount: nat, date: nat)
    requires Inv(s) && s.IsBitasset(a) && s.Balance(who, a) >= amount
    ensures var t := SettleRequested(s, who, a, amount, date);
            Inv(t) && Conserved(s, t)
  {
    hide Held, LifeCycle;
    var o := SettleOrder(who, amount, a, date);
    var t := SettleRequested(s, who, a, amount, date);
    var s1 := AddBalance(s, who, a, -(amount as int));
    assert s.nextId !in s.settles;
    forall x: AssetId ensures Held(t, x) == Held(s, x) {
      AddBalanceTotals(s, who, a, -(amount as int), x);
      SetSettleTotals(s1, s.nextId, o, x);
      SameTables(SetSettle(s1, s.nextId, o), t, x);
    }
    assert Good(t) by { hide Held, LifeCycle, DistinctIds, Uncrossed; }
    hide Good;
    LifeCyclePlain(s, t);
  }

  lemma SettleRequestedPays(s: State, who: AccountId, a: AssetId, amount: nat, date: nat)
    requires s.Balance(who, a) >= amount
    ensures var t := SettleRequested(s, who, a, amount, date);
            Credited(s, t, who, a, -(amount as int)) && HarmlessBut(s, t, who)
  {
    ActsAlone(s, SettleRequested(s, who, a, amount, date), who);
    hide HarmlessBut;
  }

  /** asset_settle: redeems from the fund of a settled asset at once, or places a settlement order. */
  method SettleAsset(e: Engine, who: AccountId, a: AssetId, amount: nat, date: nat, forceable: bool) returns (ok: bool)
    requires Inv(e.Snapshot())
    modifies e
    ensures var s := old(e.Snapshot());
            ok <==> && s.IsBitasset(a) && amount <= s.Balance(who, a)
                    && if s.Bit(a).settlement.Some? then s.Bit(a).settlement.value.base > 0
                       else forceable && !s.Bit(a).prediction && s.Bit(a).feed.Some?
    ensures !ok ==> e.Snapshot() == old(e.Snapshot())
    ensures ok ==> Inv(e.Snapshot()) && Conserved(old(e.Snapshot()), e.Snapshot())
    ensures ok && old(e.Snapshot()).Bit(a).settlement.Some? ==>
              && Payout(old(e.Snapshot()), a, amount) <= old(e.Snapshot()).Bit(a).fund
              && e.Snapshot() == Redeemed(old(e.Snapshot()), who, a, amount)
    ensures ok && old(e.Snapshot()).Bit(a).settlement.None? ==>
              e.Snapshot() == SettleRequested(old(e.Snapshot()), who, a, amount, date)
    ensures ok && old(e.Snapshot()).Bit(a).settlement.Some? ==>
              PaidFromFund(old(e.Snapshot()), e.Snapshot(), who, a, amount)
    ensures ok && old(e.Snapshot()).Bit(a).settlement.None? ==>
              && Credited(old(e.Snapshot()), e.Snapshot(), who, a, -(amount as int))
              && e.settles == old(e.settles)[old(e.nextId) := SettleOrder(who, amount, a, date)]
    ensures ok ==> HarmlessBut(old(e.Snapshot()), e.Snapshot(), who)
  {
    hide Good, LifeCycle, Held, Uncrossed, Conserved, PaidFromFund, HarmlessBut, Credited;
    var s := e.Snapshot();
    if !MaySettle(s, who, a, amount, forceable) {
      return false;
    }
    var bit := e.assets[a].bit.value;
    var _ := e.AdjustBalance(who, a, -(amount as int));
    if bit.settlement.Some? {
      RedeemedKeeps(s, who, a, amount);
      var paid := Payout(s, a, amount);
      e.assets := e.assets[a := e.assets[a].(bit := Some(bit.(fund := bit.fund - paid)))];
      var _ := e.AdjustBalance(who, bit.backing, paid);
      e.assets := e.assets[a := e.assets[a].(supply := e.assets[a].supply - amount)];
      RedeemedPays(s, who, a, amount);
    } else {
      SettleRequestedKeeps(s, who, a, amount, date);
      SettleRequestedPays(s, who, a, amount, date);
      e.settles, e.nextId := e.settles[e.nextId := SettleOrder(who, amount, a, date)], e.nextId + 1;
    }
    return true;
  }

  /** The issuer may settle an asset with a supply at a price at which the least covered position can pay. */
  predicate MaySettleGlobally(s: State, issuer: AccountId, a: AssetId, price: Price, allowed: bool) {
    && s.IsBitasset(a) && allowed && s.assets[a].issuer == issuer && s.assets[a].supply > 0
    && price.baseId == a && price.base > 0 && price.quoteId == s.Bit(a).backing
    && exists k :: && k in s.calls && LeastCovered(s.calls, a, k)
                   && price.ToQuote(s.calls[k].debt) <= s.calls[k].collateral
  }

  /** asset_global_settle. */
  method SettleGlobally(e: Engine, issuer: AccountId, a: AssetId, price: Price, allowed: bool) returns (ok: bool)
    requires Inv(e.Snapshot())
    modifies e
    ensures var s := old(e.Snapshot());
            ok <==> && s.IsBitasset(a) && allowed && issuer == s.assets[a].issuer && s.assets[a].supply > 0
                    && price.baseId == a && price.quoteId == s.Bit(a).backing && price.base > 0
                    && exists k :: && k in s.calls && LeastCovered(s.calls, a, k)
                                   && CanPay(s.calls[k].collateral, s.calls[k].debt, price)
    ensures !ok ==> e.Snapshot() == old(e.Snapshot())
    ensures ok ==> Inv(e.Snapshot()) && Conserved(old(e.Snapshot()), e.Snapshot())
    ensures ok ==> GloballySettled(old(e.Snapshot()), e.Snapshot(), a, price)
    ensures ok && LeastCoveredPays(old(e.Snapshot()).calls, a, price) ==>
              AllPayInFull(old(e.Snapshot()).calls, a, price)
    ensures ok ==> Harmless(old(e.Snapshot()), e.Snapshot())
  {
    EveryPositionPays(e.Snapshot(), a, price);
    hide Good, LifeCycle, Conserved, SameKinds, Uncrossed, Harmless, GloballySettled, LeastCovered;
    hide LeastCoveredPays, AllPayInFull;
    var s := e.Snapshot();
    if !MaySettleGlobally(s, issuer, a, price, allowed) {
      return false;
    }
    PositionMeansUnsettled(s, a);
    ok := e.GloballySettleAsset(a, price);
    SwanCollateralized(s, e.Snapshot(), a);
    UncrossedShrinks(s.limits, e.limits);
  }

  lemma PositionMeansUnsettled(s: State, a: AssetId)
    requires LifeCycle(s) && s.IsBitasset(a)
    requires exists k :: k in s.calls && LeastCovered(s.calls, a, k)
    ensures s.Bit(a).settlement.None?
  {
    assert LifeCycleOf(s, a);
    var k :| k in s.calls && LeastCovered(s.calls, a, k);
    assert k in CallsOf(s.calls, a);
  }

  /** Positions with at least the collateral ratio of a given one can pay at a price, whatever their size, if and
      only if the given one can pay without rounding. The check of the least covered position rounds its worth down,
      so on its own it does not make sure that every other position can pay in full. */
  lemma WhenEveryPositionCanPay(c: nat, d: nat, price: Price)
    requires d > 0 && price.base > 0
    ensures (forall c': nat, d': nat {:trigger CanPay(c', d', price)} :: d' > 0 && c' * d >= c * d' ==>
               CanPay(c', d', price))
            <==> d * price.quote <= c * price.base
  {
    if d * price.quote <= c * price.base {
      forall c': nat, d': nat | d' > 0 && c' * d >= c * d' ensures CanPay(c', d', price) {
        var q, b := price.quote, price.base;
        calc {
          (d' * q) * d;
          (d * q) * d';
        <= { MulMonotone(d * q, c * b, d'); }
          (c * b) * d';
          (c * d') * b;
        <= { MulMonotone(c * d', c' * d, b); }
          (c' * d) * b;
          (c' * b) * d;
        }
        CancelFactor(d' * q, c' * b, d);
        FloorWithin(d', q, b, c');
      }
    } else {
      // a position `price.base` times the size of the given one cannot pay
      var c', d' := c * price.base, d * price.base;
      assert d' > 0;
      assert c' * d == c * d';
      assert !CanPay(c', d', price) by {
        assert d' * price.quote == price.base * (d * price.quote);
        Divides(price.base, d * price.quote);
      }
    }
  }

  predicate CanPay(c: nat, d: nat, price: Price)
    requires price.base > 0
  {
    price.ToQuote(d) <= c
  }

  /** The least covered position can pay without rounding. */
  ghost predicate LeastCoveredPays(calls: map<Position, CallOrder>, a: AssetId, price: Price) {
    exists k :: && k in calls && LeastCovered(calls, a, k)
                && calls[k].debt * price.quote <= calls[k].collateral * price.base
  }

  ghost predicate AllPayInFull(calls: map<Position, CallOrder>, a: AssetId, price: Price)
    requires price.base > 0
  {
    forall k :: k in calls && k.1 == a ==> PaysAt(calls[k], price) == price.ToQuote(calls[k].debt)
  }

  /** If the least covered position can pay without rounding, every position of the asset pays in full. */
  lemma EveryPositionPays(s: State, a: AssetId, price: Price)
    requires Good(s)
    ensures price.base > 0 && LeastCoveredPays(s.calls, a, price) ==> AllPayInFull(s.calls, a, price)
  {
    if price.base > 0 && LeastCoveredPays(s.calls, a, price) {
      var k :| k in s.calls && LeastCovered(s.calls, a, k)
               && s.calls[k].debt * price.quote <= s.calls[k].collateral * price.base;
      var c := s.calls[k];
      forall j | j in s.calls && j.1 == a ensures PaysAt(s.calls[j], price) == price.ToQuote(s.calls[j].debt) {
        assert s.calls[j].collateral * c.debt >= c.collateral * s.calls[j].debt;
        WhenEveryPositionCanPay(c.collateral, c.debt, price);
        assert CanPay(s.calls[j].collateral, s.calls[j].debt, price);
      }
    }
  }

  /** Two positions with one unit of collateral for each unit of debt. */
  function TwoPositions(): State {
    var bit := Bitasset(CORE, None, None, 0, 0, 2000, 0, false);
    var callPrice := Price(1, CORE, 1, 1);
    var calls := map[(8, 1) := CallOrder(0, 1, 1, callPrice), (9, 1) := CallOrder(1, 2, 2, callPrice)];
    State(map[(7, 1) := 3], map[], calls, map[], map[],
          map[CORE := Asset(0, 3, 0, 0, 0, None), 1 := Asset(5, 3, 0, 0, 0, Some(bit))], map[], 2)
  }

  lemma TwoPositionsTotals()
    ensures Held(TwoPositions(), 1) == 3 && Debt(TwoPositions(), 1) == 3
  {
    var s := TwoPositions();
    var k, j: Position := (8, 1), (9, 1);
    var one: map<Position, CallOrder> := map[k := s.calls[k]];
    assert s.calls == one[j := s.calls[j]] && one == map[][k := s.calls[k]];
    SumPut(one, DebtIn(1), j, s.calls[j]);
    SumPut(map[], DebtIn(1), k, s.calls[k]);
    SumZero(s.calls, CollateralIn(1));
    SumZero(s.assets, RecordIn(1));
    var none: map<(AccountId, AssetId), nat> := map[];
    assert s.balances == none[(7, 1) := 3];
    SumPut<(AccountId, AssetId), nat>(none, BalanceIn(1), (7, 1), 3);
  }

  lemma TwoPositionsAreGood()
    ensures Inv(TwoPositions())
  {
    TwoPositionsTotals();
    hide Held, Debt;
    var s := TwoPositions();
    assert LifeCycleOf(s, 1);
    assert forall a :: s.IsBitasset(a) ==> a == 1;
  }

  /** The rounded check is not enough: at two for three, the least covered position passes it, and the other one pays
      two units of its three. */
  lemma RoundedCheckPasses()
    ensures var s, price := TwoPositions(), Price(2, 1, 3, CORE);
            && MaySettleGlobally(s, 5, 1, price, true) && !LeastCoveredPays(s.calls, 1, price)
            && PaysAt(s.calls[(9, 1)], price) == 2 < price.ToQuote(s.calls[(9, 1)].debt) == 3
  {
    var s := TwoPositions();
    var k: Position := (8, 1);
    assert LeastCovered(s.calls, 1, k);
  }

  // --------------------------------------------------------------------------------------------------------------
  // Bids.

  predicate MayBid(s: State, k: Position, collateral: nat, debt: nat) {
    && s.IsBitasset(k.1) && s.Bit(k.1).settlement.Some? && !s.Bit(k.1).prediction
    && s.Balance(k.0, s.Bit(k.1).backing) >= collateral
    && (debt == 0 || collateral > 0) && (k in s.bids || debt > 0)
  }

  function CancelBid(s: State, k: Position): State
    requires k in s.bids
  {
    DropBid(AddBalance(s, k.0, s.bids[k].price.baseId, s.bids[k].price.base), k)
  }

  lemma CancelBidTotals(s: State, k: Position, a: AssetId)
    requires k in s.bids
    ensures Held(CancelBid(s, k), a) == Held(s, a)
  {
    hide Held;
    AddBalanceTotals(s, k.0, s.bids[k].price.baseId, s.bids[k].price.base, a);
    DropBidTotals(AddBalance(s, k.0, s.bids[k].price.baseId, s.bids[k].price.base), k, a);
  }

  lemma CancelBidKeeps(s: State, k: Position)
    requires Inv(s) && k in s.bids
    ensures Inv(CancelBid(s, k)) && Conserved(s, CancelBid(s, k)) && Harmless(s, CancelBid(s, k))
  {
    hide LifeCycle, Uncrossed, Held, Harmless;
    var t := CancelBid(s, k);
    assert Harmless(s, t) by {
      hide Good;
      PaidToOwner(s, k.0, s.bids[k].price.baseId, s.bids[k].price.base, t);
    }
    forall a: AssetId ensures Held(t, a) == Held(s, a) {
      CancelBidTotals(s, k, a);
    }
    GoodWithBids(s, t);
    hide Good;
    LifeCyclePlain(s, t);
  }

  /** Old bids with some removed, and possibly a good new one. */
  lemma GoodWithBids(s: State, t: State)
    requires Good(s) && t == s.(balances := t.balances, bids := t.bids, nextId := t.nextId) && s.nextId <= t.nextId
    requires forall k :: k in t.bids ==> (k in s.bids && t.bids[k] == s.bids[k]) || GoodBid(s, k, t.bids[k])
    ensures Good(t)
  {
  }

  /** A bid with its collateral taken from the balance. */
  function PlaceBid(s: State, k: Position, collateral: nat, debt: nat): State
    requires s.IsBitasset(k.1) && s.Balance(k.0, s.Bit(k.1).backing) >= collateral
  {
    var backing := s.Bit(k.1).backing;
    SetBid(AddBalance(s, k.0, backing, -(collateral as int)), k, Bid(s.nextId, Price(collateral, backing, debt, k.1)))
      .(nextId := s.nextId + 1)
  }

  lemma PlaceBidKeeps(s: State, k: Position, collateral: nat, debt: nat)
    requires Inv(s) && k !in s.bids && MayBid(s, k, collateral, debt) && debt > 0
    ensures Inv(PlaceBid(s, k, collateral, debt)) && Conserved(s, PlaceBid(s, k, collateral, debt))
  {
    hide LifeCycle, Uncrossed, Held;
    var t := PlaceBid(s, k, collateral, debt);
    var backing := s.Bit(k.1).backing;
    var s1 := AddBalance(s, k.0, backing, -(collateral as int));
    forall a: AssetId ensures Held(t, a) == Held(s, a) {
      AddBalanceTotals(s, k.0, backing, -(collateral as int), a);
      SetBidTotals(s1, k, t.bids[k], a);
      SameTables(SetBid(s1, k, t.bids[k]), t, a);
    }
    GoodWithBids(s, t);
    hide Good;
    LifeCyclePlain(s, t);
  }

  /** The old bid, if any, is given back; the new one, if any, is placed. */
  ghost predicate BidPlaced(s: State, t: State, k: Position, collateral: nat, debt: nat) {
    var u := if k in s.bids then CancelBid(s, k) else s;
    && (debt == 0 ==> t == u)
    && (debt > 0 ==> u.IsBitasset(k.1) && u.Balance(k.0, u.Bit(k.1).backing) >= collateral
                     && t == PlaceBid(u, k, collateral, debt))
  }

  /** bid_collateral: replaces or cancels the account's bid on a settled asset. */
  method BidCollateral(e: Engine, k: Position, collateral: nat, debt: nat) returns (ok: bool)
    requires Inv(e.Snapshot())
    modifies e
    ensures var s := old(e.Snapshot());
            ok <==> && s.IsBitasset(k.1) && s.Bit(k.1).settlement.Some? && !s.Bit(k.1).prediction
                    && collateral <= s.Balance(k.0, s.Bit(k.1).backing)
                    && if debt == 0 then k in s.bids else collateral > 0
    ensures !ok ==> e.Snapshot() == old(e.Snapshot())
    ensures ok ==> Inv(e.Snapshot()) && Conserved(old(e.Snapshot()), e.Snapshot())
    ensures ok ==> BidPlaced(old(e.Snapshot()), e.Snapshot(), k, collateral, debt)
    ensures ok ==> BidHeld(old(e.Snapshot()), e.Snapshot(), k, collateral, debt)
    ensures ok ==> HarmlessBut(old(e.Snapshot()), e.Snapshot(), k.0)
  {
    hide Good, LifeCycle, Held, Uncrossed, Conserved, Harmless, HarmlessBut, BidHeld;
    var s := e.Snapshot();
    if !MayBid(s, k, collateral, debt) {
      return false;
    }
    var backing := e.assets[k.1].bit.value.backing;
    assert Conserved(s, s) by { ConservedRefl(s); }
    if k in e.bids {
      CancelBidKeeps(s, k);
      GrownBalance(s, CancelBid(s, k), k.0, backing);
      var _ := e.AdjustBalance(k.0, e.bids[k].price.baseId, e.bids[k].price.base);
      e.bids := e.bids - {k};
    }
    ghost var s1 := e.Snapshot();
    if debt == 0 {
      BidIsHeld(s, s1, s1, k, collateral, debt);
      return true;
    }
    PlaceBidKeeps(s1, k, collateral, debt);
    var _ := e.AdjustBalance(k.0, backing, -(collateral as int));
    e.bids, e.nextId := e.bids[k := Bid(e.nextId, Price(collateral, backing, debt, k.1))], e.nextId + 1;
    ConservedTrans(s, s1, e.Snapshot());
    BidIsHeld(s, s1, e.Snapshot(), k, collateral, debt);
    return true;
  }

  /** The bidder has given what the new bid holds and got back what the old one held; nobody else is concerned. */
  ghost predicate BidHeld(s: State, t: State, k: Position, collateral: nat, debt: nat)
    requires s.IsBitasset(k.1)
  {
    var before, after := if k in s.bids then s.bids[k].price.base else 0, if debt > 0 then collateral else 0;
    && Credited(s, t, k.0, s.Bit(k.1).backing, before - after)
    && (k in t.bids <==> debt > 0)
    && (k in t.bids ==> t.bids[k].price == Price(collateral, s.Bit(k.1).backing, debt, k.1))
    && (forall j :: j != k ==> (j in t.bids <==> j in s.bids))
    && (forall j :: j != k && j in t.bids ==> t.bids[j] == s.bids[j])
  }

  lemma BidIsHeld(s: State, s1: State, t: State, k: Position, collateral: nat, debt: nat)
    requires Good(s) && s.IsBitasset(k.1) && s1 == (if k in s.bids then CancelBid(s, k) else s)
    requires debt == 0 ==> t == s1
    requires debt > 0 ==> s1.Balance(k.0, s.Bit(k.1).backing) >= collateral && t == PlaceBid(s1, k, collateral, debt)
    ensures BidHeld(s, t, k, collateral, debt) && HarmlessBut(s, t, k.0)
  {
    hide Good, CancelBid, PlaceBid, Credited, OnlyActor, HarmlessBut;
    var backing := s.Bit(k.1).backing;
    var before, after := if k in s.bids then s.bids[k].price.base else 0, if debt > 0 then collateral else 0;
    OldBidBack(s, s1, k);
    NewBidHeld(s1, t, k, collateral, debt);
    CreditedTwice(s, s1, t, k.0, backing, before, -after);
    assert OnlyActor(s, t, k.0) by { OnlyBid(s, t, k, backing, before - after); }
    ActsAlone(s, t, k.0);
  }

  lemma OldBidBack(s: State, t: State, k: Position)
    requires Good(s) && s.IsBitasset(k.1) && t == (if k in s.bids then CancelBid(s, k) else s)
    ensures Credited(s, t, k.0, s.Bit(k.1).backing, if k in s.bids then s.bids[k].price.base else 0)
    ensures t == s.(balances := t.balances, bids := s.bids - {k})
  {
    if k in s.bids { assert GoodBid(s, k, s.bids[k]); } else { assert s.bids - {k} == s.bids; }
  }

  lemma NewBidHeld(s: State, t: State, k: Position, collateral: nat, debt: nat)
    requires s.IsBitasset(k.1) && k !in s.bids && (debt == 0 ==> t == s)
    requires debt > 0 ==> s.Balance(k.0, s.Bit(k.1).backing) >= collateral && t == PlaceBid(s, k, collateral, debt)
    ensures Credited(s, t, k.0, s.Bit(k.1).backing, -(if debt > 0 then collateral else 0))
    ensures t == s.(balances := t.balances, bids := t.bids, nextId := t.nextId) && (k in t.bids <==> debt > 0)
    ensures k in t.bids ==> t.bids[k].price == Price(collateral, s.Bit(k.1).backing, debt, k.1)
    ensures forall j :: j != k ==> (j in t.bids <==> j in s.bids)
    ensures forall j :: j != k && j in t.bids ==> t.bids[j] == s.bids[j]
  {
  }

  lemma CreditedTwice(s: State, t: State, u: State, who: AccountId, x: AssetId, m: int, n: int)
    requires Credited(s, t, who, x, m) && Credited(t, u, who, x, n)
    ensures Credited(s, u, who, x, m + n)
  {
    forall w: AccountId, a: AssetId ensures u.Balance(w, a) == s.Balance(w, a) + if w == who
    && a == x then m + n else 0 {
      assert t.Balance(w, a) == s.Balance(w, a) + if w == who && a == x then m else 0;
    }
  }

  lemma OnlyBid(s: State, t: State, k: Position, x: AssetId, amount: int)
    requires Credited(s, t, k.0, x, amount)
    requires t == s.(balances := t.balances, bids := t.bids, nextId := t.nextId)
    requires forall j :: j in t.bids && j != k ==> j in s.bids
    ensures OnlyActor(s, t, k.0)
  {
  }
}
