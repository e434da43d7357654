/** The forced-settlement pass: matured settlement orders are filled by the least covered margin positions, up to a
    share of the supply. */
module MarketForced {
  import opened Arithmetic
  import opened Common
  import opened Sums
  import opened MarketState
  import opened MarketFills
  import opened MarketIndex
  import opened MarketInvariant
  import opened Market

  // --------------------------------------------------------------------------------------------------------------
  // One match.

  /** max_force_settlement_volume: a share of the supply there was before any of it was settled by force. */
  function Cap(x: Asset): (cap: int)
    requires x.bit.Some?
    ensures x.bit.value.maxVolume <= HUNDRED_PERCENT && x.supply + x.bit.value.forceSettled >= 0 ==>
              cap <= x.supply + x.bit.value.forceSettled
  {
    var total, share := x.supply + x.bit.value.forceSettled, x.bit.value.maxVolume;
    if share == 0 then 0
    else if share == HUNDRED_PERCENT then total
    else if total < 0 then 0
    else FeeBelow(total, share); total * share / HUNDRED_PERCENT
  }

  /** It is the given percentage of that supply, rounded down, and none of it when there is no supply. */
  lemma CapIsShare(x: Asset)
    requires x.bit.Some?
    ensures var total, share := x.supply + x.bit.value.forceSettled, x.bit.value.maxVolume;
            if share == HUNDRED_PERCENT then Cap(x) == total
            else if total <= 0 then Cap(x) == 0
            else Cap(x) * HUNDRED_PERCENT <= total * share < (Cap(x) + 1) * HUNDRED_PERCENT
  {
    var total, share := x.supply + x.bit.value.forceSettled, x.bit.value.maxVolume;
    if 0 < total { RoundsDown(total * share, HUNDRED_PERCENT); }
  }

  /** A position of the order's asset gives `pays` of its collateral for `amount` of the asset, which is burned. */
  function ForcedFill(s: State, k: Position, id: nat, amount: nat, pays: nat): State
    requires k in s.calls && k.1 in s.assets && pays <= s.calls[k].collateral && amount <= s.calls[k].debt
    requires id in s.settles && amount <= s.settles[id].balance
    requires var q := s.calls[k].callPrice.baseId;
             q in s.assets && s.assets[q].feePercent <= HUNDRED_PERCENT
  {
    ForcedFillable(s, k, pays, amount);
    FillSettle(FillCall(s, k, pays, amount), id, amount, s.calls[k].callPrice.baseId, pays)
  }

  lemma ForcedFillable(s: State, k: Position, pays: nat, amount: nat)
    requires k in s.calls && k.1 in s.assets && pays <= s.calls[k].collateral && amount <= s.calls[k].debt
    requires var q := s.calls[k].callPrice.baseId;
             q in s.assets && s.assets[q].feePercent <= HUNDRED_PERCENT
    ensures var t, q := FillCall(s, k, pays, amount), s.calls[k].callPrice.baseId;
            t.settles == s.settles && q in t.assets && t.assets[q].feePercent <= HUNDRED_PERCENT
  {
    hide FillCall;
    FillCallFrame(s, k, pays, amount);
    assert SameTerms(s.assets[s.calls[k].callPrice.baseId],
                     FillCall(s, k, pays, amount).assets[s.calls[k].callPrice.baseId]);
  }

  /** Settlement orders are only ever reduced or removed. */
  ghost predicate SettlesShrink(l: map<nat, SettleOrder>, l': map<nat, SettleOrder>) {
    forall i :: i in l' ==> i in l && l'[i] == l[i].(balance := l'[i].balance) && l'[i].balance <= l[i].balance
  }

  /** What the matches of order `id` add up to: `settled` of its asset has been burned. */
  ghost predicate Filling(s: State, t: State, id: nat, settled: int)
    requires id in s.settles
  {
    && t == s.(balances := t.balances, calls := t.calls, settles := t.settles, assets := t.assets)
    && Good(t) && Steady(s, t) && SameAssets(s, t) && Collateralized(t) && Harmless(s, t)
    && t.calls.Keys <= s.calls.Keys
    && t.settles.Keys <= s.settles.Keys && t.settles.Keys + {id} == s.settles.Keys
    && (forall i :: i in t.settles && i != id ==> t.settles[i] == s.settles[i])
    && (id in t.settles ==> && t.settles[id] == s.settles[id].(balance := t.settles[id].balance)
                            && t.settles[id].balance == s.settles[id].balance - settled)
    && Burned(s, t, s.settles[id].asset, settled)
  }

  ghost predicate Burned(s: State, t: State, a: AssetId, settled: int) {
    forall x: AssetId {:trigger t.Supply(x)} :: t.Supply(x) == s.Supply(x) - if x == a then settled else 0
  }

  lemma ForcedFillSteady(s: State, k: Position, id: nat, amount: nat, pays: nat)
    requires Good(s) && k in s.calls && k.1 in s.assets && pays <= s.calls[k].collateral && amount <= s.calls[k].debt
    requires id in s.settles && amount <= s.settles[id].balance && s.settles[id].asset == k.1
    requires var q := s.calls[k].callPrice.baseId;
             q in s.assets && s.assets[q].feePercent <= HUNDRED_PERCENT
    ensures var t := ForcedFill(s, k, id, amount, pays);
            Good(t) && Steady(s, t) && SameAssets(s, t) && Burned(s, t, k.1, amount)
  {
    hide Good, Held, Debt, SameAssets, FillCall, FillSettle;
    ForcedFillable(s, k, pays, amount);
    FillCallGood(s, k, pays, amount);
    FillCallFrame(s, k, pays, amount);
    var u, q := FillCall(s, k, pays, amount), s.calls[k].callPrice.baseId;
    FillSettleGood(u, id, amount, q, pays);
    FillSettleFrame(u, id, amount, q, pays);
    var t := FillSettle(u, id, amount, q, pays);
    SameAssetsTrans(s, u, t);
    forall a: AssetId
      ensures Held(t, a) - t.Supply(a) == Held(s, a) - s.Supply(a)
      ensures Debt(t, a) - t.Supply(a) == Debt(s, a) - s.Supply(a)
      ensures t.Supply(a) == s.Supply(a) - if a == k.1 then amount else 0
    {
      FillCallTotals(s, k, pays, amount, a);
      FillSettleTotals(u, id, amount, q, pays, a);
    }
  }

  /** The owner of the order gets what the position pays, less the market fee; if that settles the debt of the position,
      its owner gets the rest of the collateral; nobody else gets anything. */
  lemma ForcedFillPays(s: State, k: Position, id: nat, amount: nat, pays: nat)
    requires k in s.calls && k.1 in s.assets && pays <= s.calls[k].collateral && amount <= s.calls[k].debt
    requires id in s.settles && amount <= s.settles[id].balance
    requires var q := s.calls[k].callPrice.baseId;
             q in s.assets && s.assets[q].feePercent <= HUNDRED_PERCENT
    ensures var t, c, o, q := ForcedFill(s, k, id, amount, pays), s.calls[k], s.settles[id],
              s.calls[k].callPrice.baseId;
            forall w: AccountId, x: AssetId {:trigger t.Balance(w, x)} ::
              t.Balance(w, x) == s.Balance(w, x)
                                 + (if w == o.owner && x == q then pays - MarketFee(s.assets[q], pays) else 0)
                                 + (if w == k.0 && x == q && amount == c.debt then c.collateral - pays else 0)
  {
    hide FillCall, FillSettle, SameAssets, MarketFee;
    ForcedFillable(s, k, pays, amount);
    var u, t, q := FillCall(s, k, pays, amount), ForcedFill(s, k, id, amount, pays), s.calls[k].callPrice.baseId;
    FillCallPays(s, k, pays, amount);
    FillSettlePays(u, id, amount, q, pays);
    assert MarketFee(u.assets[q], pays) == MarketFee(s.assets[q], pays) by {
      FillCallFrame(s, k, pays, amount);
      SameFee(s, u, q, pays);
    }
    hide ForcedFill;
    forall w: AccountId, x: AssetId
      ensures t.Balance(w, x) == s.Balance(w, x)
                                 + (if w == s.settles[id].owner
                                 && x == q then pays - MarketFee(s.assets[q], pays) else 0)
                                 + (if w == k.0 && x == q && amount == s.calls[k].debt
                                    then s.calls[k].collateral - pays else 0)
    {
      assert u.Balance(w, x) == s.Balance(w, x)
                                + if w == k.0 && x == q
                                  then if amount == s.calls[k].debt then s.calls[k].collateral - pays else 0 else 0;
    }
  }

  lemma ForcedFillHarmless(s: State, k: Position, id: nat, amount: nat, pays: nat)
    requires k in s.calls && k.1 in s.assets && pays <= s.calls[k].collateral && amount <= s.calls[k].debt
    requires id in s.settles && amount <= s.settles[id].balance
    requires var q := s.calls[k].callPrice.baseId;
             q in s.assets && s.assets[q].feePercent <= HUNDRED_PERCENT
    ensures Harmless(s, ForcedFill(s, k, id, amount, pays))
  {
    hide FillCall, FillSettle, Harmless;
    ForcedFillable(s, k, pays, amount);
    FillCallHarmless(s, k, pays, amount);
    var u := FillCall(s, k, pays, amount);
    FillSettleHarmless(u, id, amount, s.calls[k].callPrice.baseId, pays);
    HarmlessTrans(s, u, ForcedFill(s, k, id, amount, pays));
  }

  lemma ForcedFillFrame(s: State, k: Position, id: nat, amount: nat, pays: nat)
    requires k in s.calls && k.1 in s.assets && pays <= s.calls[k].collateral && amount <= s.calls[k].debt
    requires id in s.settles && amount <= s.settles[id].balance
    requires var q := s.calls[k].callPrice.baseId;
             q in s.assets && s.assets[q].feePercent <= HUNDRED_PERCENT
    ensures var t, c, o := ForcedFill(s, k, id, amount, pays), s.calls[k], s.settles[id];
            && t == s.(balances := t.balances, calls := t.calls, settles := t.settles, assets := t.assets)
            && t.calls == (if amount == c.debt then s.calls - {k}
                           else s.calls[k := c.(debt := c.debt - amount, collateral := c.collateral - pays)])
            && t.settles == (if amount == o.balance then s.settles - {id}
                             else s.settles[id := o.(balance := o.balance - amount)])
  {
    hide SameAssets, FillCall, FillSettle;
    ForcedFillable(s, k, pays, amount);
    FillCallFrame(s, k, pays, amount);
    FillSettleFrame(FillCall(s, k, pays, amount), id, amount, s.calls[k].callPrice.baseId, pays);
  }

  lemma FillingStep(s0: State, s: State, k: Position, id: nat, settled: int, amount: nat, pays: nat)
    requires id in s0.settles && Filling(s0, s, id, settled) && id in s.settles
    requires k in s.calls && k.1 == s.settles[id].asset
    requires pays < s.calls[k].collateral && amount <= s.calls[k].debt && amount <= s.settles[id].balance
    ensures k.1 in s.assets
    ensures var q := s.calls[k].callPrice.baseId;
            q in s.assets && s.assets[q].feePercent <= HUNDRED_PERCENT
    ensures Filling(s0, ForcedFill(s, k, id, amount, pays), id, settled + amount)
  {
    hide Good, Held, Debt, SameAssets, Steady, ForcedFill, Burned, Harmless;
    GoodCallOf(s, k);
    BackingOf(s, k.1);
    ForcedFillHarmless(s, k, id, amount, pays);
    HarmlessTrans(s0, s, ForcedFill(s, k, id, amount, pays));
    ForcedFillSteady(s, k, id, amount, pays);
    ForcedFillFrame(s, k, id, amount, pays);
    var t := ForcedFill(s, k, id, amount, pays);
    SteadyTrans(s0, s, t);
    SameAssetsTrans(s0, s, t);
    BurnedTrans(s0, s, t, k.1, settled, amount);
  }

  lemma BurnedTrans(s: State, t: State, u: State, a: AssetId, m: int, n: int)
    requires Burned(s, t, a, m) && Burned(t, u, a, n)
    ensures Burned(s, u, a, m + n)
  {
    forall x: AssetId ensures u.Supply(x) == s.Supply(x) - if x == a then m + n else 0 {
      assert t.Supply(x) == s.Supply(x) - if x == a then m else 0;
    }
  }

  lemma BackingOf(s: State, a: AssetId)
    requires Good(s) && s.IsBitasset(a)
    ensures s.Bit(a).backing in s.assets && s.assets[s.Bit(a).backing].feePercent <= HUNDRED_PERCENT
    ensures s.Bit(a).maxVolume <= HUNDRED_PERCENT && s.Bit(a).offset <= HUNDRED_PERCENT
    ensures s.Bit(a).feed.Some? ==> s.Bit(a).feed.value.price.Positive()
  {
    GoodAssetOf(s, a);
    GoodAssetOf(s, s.Bit(a).backing);
  }

  /** The position that settles next: the least covered one. */
  ghost function LeastPosition(s: State, a: AssetId): (k: Position)
    requires Good(s) && CallsOf(s.calls, a) != {}
    ensures k in s.calls && LeastCovered(s.calls, a, k)
  {
    SomeLeastCovered(s, a);
    var k :| k in s.calls && LeastCovered(s.calls, a, k);
    k
  }

  lemma SomeLeastCovered(s: State, a: AssetId)
    requires Good(s) && CallsOf(s.calls, a) != {}
    ensures exists k :: k in s.calls && LeastCovered(s.calls, a, k)
  {
    GoodOrders(s);
    var k := LeastCoveredExists(s.calls, a);
  }

  lemma LeastCoveredUnique(s: State, a: AssetId, k: Position, j: Position)
    requires Good(s) && LeastCovered(s.calls, a, k) && LeastCovered(s.calls, a, j)
    ensures k == j
  {
    GoodOrders(s);
    LessIsByValue(Collateralization(s.calls[k]), Collateralization(s.calls[j]));
    LessIsByValue(Collateralization(s.calls[j]), Collateralization(s.calls[k]));
  }

  /** What is settled in one match. */
  function MatchedAmount(balance: nat, limit: nat, debt: nat): (amount: nat)
    ensures amount <= balance && amount <= limit && amount <= debt && amount in {balance, limit, debt}
  {
    if balance <= limit && balance <= debt then balance else if limit <= debt then limit else debt
  }

  predicate Fillable(s: State, k: Position, id: nat) {
    && k in s.calls && k.1 in s.assets && id in s.settles && s.settles[id].asset == k.1
    && s.calls[k].callPrice.baseId in s.assets && s.assets[s.calls[k].callPrice.baseId].feePercent <= HUNDRED_PERCENT
  }

  lemma GoodFillable(s: State, k: Position, id: nat)
    requires Good(s) && k in s.calls && id in s.settles && s.settles[id].asset == k.1
    ensures Fillable(s, k, id) && s.calls[k].debt > 0
    ensures forall amount: nat, pays: nat {:trigger ForcedFill(s, k, id, amount, pays)} ::
              amount <= s.calls[k].debt && amount <= s.settles[id].balance && pays <= s.calls[k].collateral ==>
                Good(ForcedFill(s, k, id, amount, pays))
  {
    hide Good, Steady, SameAssets, Burned, ForcedFill;
    GoodCallOf(s, k);
    BackingOf(s, k.1);
    forall amount: nat, pays: nat
      | amount <= s.calls[k].debt && amount <= s.settles[id].balance && pays <= s.calls[k].collateral
      ensures Good(ForcedFill(s, k, id, amount, pays))
    {
      ForcedFillSteady(s, k, id, amount, pays);
    }
  }

  /** Order `id` is filled at `price` by the least covered positions in turn, until it is filled, the cap is reached,
      or a position's collateral would not be enough; an order that is empty or cannot be filled is cancelled. */
  ghost function Forced(s: State, id: nat, price: Price, settled: nat, cap: int): (State, nat)
    requires Good(s) && (id in s.settles && s.settles[id].balance > 0 ==> price.base > 0)
    decreases cap - settled
  {
    if settled >= cap || id !in s.settles || CallsOf(s.calls, s.settles[id].asset) == {} then (s, settled)
    else if s.settles[id].balance == 0 then (CancelSettle(s, id), settled)
    else
      var k := LeastPosition(s, s.settles[id].asset);
      var amount := MatchedAmount(s.settles[id].balance, cap - settled, s.calls[k].debt);
      var pays := price.ToQuote(amount);
      if pays >= s.calls[k].collateral then (CancelSettle(s, id), settled)
      else
        GoodFillable(s, k, id);
        Forced(ForcedFill(s, k, id, amount, pays), id, price, settled + amount, cap)
  }

  method CancelSettleOrder(e: Engine, id: nat)
    requires id in e.settles
    modifies e`balances, e`settles
    ensures e.Snapshot() == CancelSettle(old(e.Snapshot()), id) && id !in e.settles
  {
    var o := e.settles[id];
    var _ := e.AdjustBalance(o.owner, o.asset, o.balance);
    e.settles := e.settles - {id};
  }

  method FillSettleOrder(e: Engine, id: nat, pays: nat, q: AssetId, receives: nat)
    requires id in e.settles && pays <= e.settles[id].balance
    requires q in e.assets && e.assets[q].feePercent <= HUNDRED_PERCENT
    modifies e`balances, e`settles, e`assets
    ensures e.Snapshot() == FillSettle(old(e.Snapshot()), id, pays, q, receives)
  {
    var o := e.settles[id];
    var fee := e.PayMarketFees(q, receives);
    if pays < o.balance {
      e.settles := e.settles[id := o.(balance := o.balance - pays)];
    }
    var _ := e.AdjustBalance(o.owner, q, receives - fee);
    if pays >= o.balance {
      e.settles := e.settles - {id};
    }
  }

  /** match() of a position with a settlement order. It throws if the position could not pay. */
  method MatchSettle(e: Engine, k: Position, id: nat, price: Price, limit: nat) returns (swan: bool, amount: nat)
    requires Good(e.Snapshot()) && k in e.calls && id in e.settles && e.settles[id].asset == k.1 && price.base > 0
    modifies e`balances, e`settles, e`assets, e`calls
    ensures var s := old(e.Snapshot());
            && amount == MatchedAmount(s.settles[id].balance, limit, s.calls[k].debt)
            && (swan <==> price.ToQuote(amount) >= s.calls[k].collateral)
            && (swan ==> e.Snapshot() == s)
            && (!swan ==> Fillable(s, k, id) && e.Snapshot() == ForcedFill(s, k, id, amount, price.ToQuote(amount)))
  {
    hide Good, FillCall, FillSettle;
    ghost var s := e.Snapshot();
    GoodFillable(s, k, id);
    var c := e.calls[k];
    amount := MatchedAmount(e.settles[id].balance, limit, c.debt);
    var pays := price.ToQuote(amount);
    if pays >= c.collateral {
      return true, amount;
    }
    ForcedFillable(s, k, pays, amount);
    var _ := e.FillCallOrder(k, pays, amount);
    FillSettleOrder(e, id, amount, c.callPrice.baseId, pays);
    return false, amount;
  }

  lemma FillingRefl(s: State, id: nat)
    requires Good(s) && Collateralized(s) && id in s.settles
    ensures Filling(s, s, id, 0)
  {
    hide Good, Held, Debt, Harmless;
    HarmlessRefl(s);
  }

  lemma FillingCancel(s0: State, s: State, id: nat, settled: int)
    requires id in s0.settles && Filling(s0, s, id, settled) && id in s.settles
    ensures Filling(s0, CancelSettle(s, id), id, settled)
  {
    hide Good, Held, Debt, Burned, SameAssets, Harmless;
    var t := CancelSettle(s, id);
    assert Harmless(s0, t) by {
      CancelSettlePays(s, id);
      HarmlessTrans(s0, s, t);
    }
    assert SameAssets(s, t) by { SameAssetsRefl(s, t); }
    GoodAgainSettles(s, t);
    forall a: AssetId
      ensures Held(t, a) - t.Supply(a) == Held(s0, a) - s0.Supply(a)
      ensures Debt(t, a) - t.Supply(a) == Debt(s0, a) - s0.Supply(a)
    {
      CancelSettleTotals(s, id, a);
      assert Held(s, a) - s.Supply(a) == Held(s0, a) - s0.Supply(a);
    }
    assert Burned(s0, t, s0.settles[id].asset, settled) by { SameSupplies(s0, s, t, s0.settles[id].asset, settled); }
    SameAssetsTrans(s0, s, t);
  }

  lemma SameSupplies(s0: State, s: State, t: State, a: AssetId, settled: int)
    requires Burned(s0, s, a, settled) && t.assets == s.assets
    ensures Burned(s0, t, a, settled)
  {
    forall x: AssetId ensures t.Supply(x) == s0.Supply(x) - if x == a then settled else 0 {
      assert s.Supply(x) == s0.Supply(x) - if x == a then settled else 0;
    }
  }

  /** There is always a position to settle against: below the cap there is supply left, and supply is debt. */
  lemma PositionExists(s0: State, s: State, id: nat, settled: int)
    requires Laws(s0) && id in s0.settles && Filling(s0, s, id, settled)
    requires Unsettled(s0, s0.settles[id].asset)
    requires s0.assets[s0.settles[id].asset].supply - settled > 0
    ensures CallsOf(s.calls, s0.settles[id].asset) != {}
  {
    hide Held, Debt, Good, SameAssets, Collateralized;
    var a := s0.settles[id].asset;
    LifeCycleSteady(s0, s);
    assert s.IsBitasset(a) && s.Bit(a) == s0.Bit(a) by { SameBit(s0, s, a); }
    assert LifeCycleOf(s, a);
    assert s.Supply(a) == s0.Supply(a) - settled;
    GoodOrders(s);
    DebtOfPositions(s, a);
  }

  /** The order's price: its whole balance at the feed price less the offset, rounded down. */
  function SettlementPrice(s: State, id: nat): Price
    requires id in s.settles && s.IsBitasset(s.settles[id].asset)
    requires var bit := s.Bit(s.settles[id].asset);
             bit.feed.Some? && bit.feed.value.price.base > 0 && bit.offset <= HUNDRED_PERCENT
  {
    var o := s.settles[id];
    var bit := s.Bit(o.asset);
    var receives := bit.feed.value.price.ToQuote(o.balance) * (HUNDRED_PERCENT - bit.offset) / HUNDRED_PERCENT;
    Price(o.balance, o.asset, receives, bit.backing)
  }

  /** What an order is worth at the feed, rounded down, less the offset, rounded down. */
  lemma OffsetIsTaken(s: State, id: nat)
    requires id in s.settles && s.IsBitasset(s.settles[id].asset)
    requires var bit := s.Bit(s.settles[id].asset);
             bit.feed.Some? && bit.feed.value.price.base > 0 && bit.offset <= HUNDRED_PERCENT
    ensures var o, p := s.settles[id], SettlementPrice(s, id);
            var feed, keep := s.Bit(o.asset).feed.value.price, HUNDRED_PERCENT - s.Bit(o.asset).offset;
            && p.base == o.balance && p.baseId == o.asset && p.quoteId == s.Bit(o.asset).backing
            && exists worth: nat {:trigger worth * keep} ::
                 && worth * feed.base <= o.balance * feed.quote < (worth + 1) * feed.base
                 && p.quote * HUNDRED_PERCENT <= worth * keep < (p.quote + 1) * HUNDRED_PERCENT
  {
    var o := s.settles[id];
    var feed, keep := s.Bit(o.asset).feed.value.price, HUNDRED_PERCENT - s.Bit(o.asset).offset;
    var worth := feed.ToQuote(o.balance);
    feed.ToQuoteIsFloor(o.balance);
    RoundsDown(worth * keep, HUNDRED_PERCENT);
  }

  /** An order that one position can fill is filled at once, and its owner gets just that, less the market fee. */
  lemma FilledInOneMatch(s: State, id: nat, price: Price, settled: nat, cap: int, k: Position)
    requires Good(s) && id in s.settles && k in s.calls && LeastCovered(s.calls, s.settles[id].asset, k)
    requires price.base == s.settles[id].balance > 0 && price.quote < s.calls[k].collateral
    requires s.settles[id].balance <= s.calls[k].debt && s.settles[id].balance <= cap - settled
    ensures var (t, total) := Forced(s, id, price, settled, cap);
            var o, c, q := s.settles[id], s.calls[k], s.calls[k].callPrice.baseId;
            && id !in t.settles && total == settled + o.balance && q in s.assets
            && forall w: AccountId, x: AssetId {:trigger t.Balance(w, x)} ::
                 t.Balance(w, x) == s.Balance(w, x)
                                    + (if w == o.owner && x == q
                                       then price.quote - MarketFee(s.assets[q], price.quote) else 0)
                                    + (if w == k.0 && x == q && o.balance == c.debt
                                       then c.collateral - price.quote else 0)
  {
    hide Good, ForcedFill, Forced, LeastCovered, MarketFee;
    var o := s.settles[id];
    assert price.ToQuote(o.balance) == price.quote by { Divides(price.base, price.quote); }
    ForcedStep(s, id, price, settled, cap, k);
    ForcedFillPays(s, k, id, o.balance, price.quote);
    ForcedFillFrame(s, k, id, o.balance, price.quote);
    ForcedDone(ForcedFill(s, k, id, o.balance, price.quote), id, price, settled + o.balance, cap);
  }

  lemma FillingGood(s: State, t: State, id: nat, settled: int)
    requires id in s.settles && Filling(s, t, id, settled)
    ensures Good(t)
    ensures id in t.settles ==>
              t.settles[id].asset == s.settles[id].asset && t.settles[id].balance <= s.settles[id].balance - settled
  {
    hide Good;
  }

  /** One step of Forced, whichever way it goes. */
  lemma ForcedStep(s: State, id: nat, price: Price, settled: nat, cap: int, k: Position)
    requires Good(s) && settled < cap && id in s.settles && (s.settles[id].balance > 0 ==> price.base > 0)
    requires k in s.calls && LeastCovered(s.calls, s.settles[id].asset, k)
    ensures k.1 == s.settles[id].asset
    ensures var o, c := s.settles[id], s.calls[k];
            if o.balance == 0 then Forced(s, id, price, settled, cap) == (CancelSettle(s, id), settled)
            else
              var amount := MatchedAmount(o.balance, cap - settled, c.debt);
              if price.ToQuote(amount) >= c.collateral then
                Forced(s, id, price, settled, cap) == (CancelSettle(s, id), settled)
              else
                && Fillable(s, k, id) && Good(ForcedFill(s, k, id, amount, price.ToQuote(amount)))
                && Forced(s, id, price, settled, cap)
                   == Forced(ForcedFill(s, k, id, amount, price.ToQuote(amount)), id, price, settled + amount, cap)
  {
    hide Good, ForcedFill, CancelSettle, Collateralization;
    assert k.1 == s.settles[id].asset && k in CallsOf(s.calls, s.settles[id].asset);
    LeastCoveredUnique(s, s.settles[id].asset, k, LeastPosition(s, s.settles[id].asset));
    hide LeastCovered;
    GoodFillable(s, k, id);
  }

  lemma ForcedDone(s: State, id: nat, price: Price, settled: nat, cap: int)
    requires Good(s) && (id in s.settles && s.settles[id].balance > 0 ==> price.base > 0)
    requires settled >= cap || id !in s.settles
    ensures Forced(s, id, price, settled, cap) == (s, settled)
  {
  }

  /** The inner loop of the pass: one matured order. */
  method FillMatured(e: Engine, id: nat, cap: int) returns (settled: nat)
    requires Laws(e.Snapshot()) && Collateralized(e.Snapshot()) && id in e.settles
    requires var a := e.settles[id].asset;
             && Unsettled(e.Snapshot(), a) && e.Snapshot().Bit(a).feed.Some?
             && e.Snapshot().Bit(a).forceSettled < cap <= e.assets[a].supply + e.Snapshot().Bit(a).forceSettled
    modifies e`balances, e`settles, e`assets, e`calls
    ensures var s := old(e.Snapshot());
            var bit := s.Bit(s.settles[id].asset);
            && Filling(s, e.Snapshot(), id, settled - bit.forceSettled)
            && bit.forceSettled <= settled <= cap && (id in e.settles ==> settled == cap)
            && (s.settles[id].balance > 0 ==> SettlementPrice(s, id).base > 0)
            && (e.Snapshot(), settled) == Forced(s, id, SettlementPrice(s, id), bit.forceSettled, cap)
  {
    hide Good, LifeCycle, Filling, Collateralized, Forced, ForcedFill, LeastCovered, CancelSettle;
    ghost var s := e.Snapshot();
    var a := e.settles[id].asset;
    FillingRefl(s, id);
    BackingOf(s, a);
    var price := SettlementPrice(e.Snapshot(), id);
    settled := e.assets[a].bit.value.forceSettled;
    ghost var fs := settled;
    ghost var run := Forced(s, id, price, settled, cap);
    while settled < cap && id in e.settles
      invariant Filling(s, e.Snapshot(), id, settled - fs) && fs <= settled <= cap
      invariant id in e.settles ==> e.settles[id].asset == a && (e.settles[id].balance > 0 ==> price.base > 0)
      invariant Good(e.Snapshot()) && Forced(e.Snapshot(), id, price, settled, cap) == run
      decreases cap - settled, if id in e.settles then 1 else 0
    {
      ghost var t := e.Snapshot();
      PositionExists(s, t, id, settled - fs);
      SomeLeastCovered(t, a);
      var k :| k in e.calls && LeastCovered(e.calls, a, k);
      ForcedStep(t, id, price, settled, cap, k);
      if e.settles[id].balance == 0 {
        FillingCancel(s, t, id, settled - fs);
        CancelSettleOrder(e, id);
        FillingGood(s, e.Snapshot(), id, settled - fs);
        break;
      }
      GoodFillable(t, k, id);
      var swan, amount := MatchSettle(e, k, id, price, cap - settled);
      if swan {
        FillingCancel(s, t, id, settled - fs);
        CancelSettleOrder(e, id);
        FillingGood(s, e.Snapshot(), id, settled - fs);
        break;
      }
      FillingStep(s, t, k, id, settled - fs, amount, price.ToQuote(amount));
      settled := settled + amount;
      FillingGood(s, e.Snapshot(), id, settled - fs);
    }
    ForcedDone(e.Snapshot(), id, price, settled, cap);
  }

  // --------------------------------------------------------------------------------------------------------------
  // The pass over all orders.

  /** Records differ in fees, and in supply and settled volume by opposite amounts. */
  ghost predicate SameForced(x: Asset, y: Asset) {
    && x.(supply := 0, fees := 0, bit := None) == y.(supply := 0, fees := 0, bit := None)
    && x.bit.Some? == y.bit.Some?
    && if x.bit.None? then x.supply == y.supply
       else && y.bit.value == x.bit.value.(forceSettled := y.bit.value.forceSettled)
            && x.supply + x.bit.value.forceSettled == y.supply + y.bit.value.forceSettled
  }

  /** No more than the cap is settled, unless it had been already. */
  ghost predicate WithinCap(x: Asset, y: Asset) {
    x.bit.Some? && y.bit.Some? ==>
      && x.bit.value.forceSettled <= y.bit.value.forceSettled
      && (y.bit.value.forceSettled <= Cap(x) || y.bit.value.forceSettled == x.bit.value.forceSettled)
  }

  ghost predicate AssetsPass(s: State, t: State) {
    && s.assets.Keys == t.assets.Keys
    && forall a :: a in s.assets ==> SameForced(s.assets[a], t.assets[a]) && WithinCap(s.assets[a], t.assets[a])
  }

  /** An order that is not due, of an asset that is not settled. */
  ghost predicate NotDue(s: State, i: nat, now: nat) {
    i in s.settles && Unsettled(s, s.settles[i].asset) && s.settles[i].date > now
  }

  /** Orders that are not due are left alone, the others are only reduced or removed. */
  ghost predicate OrdersPass(s: State, t: State, now: nat) {
    && SettlesShrink(s.settles, t.settles)
    && forall i :: NotDue(s, i, now) ==> i in t.settles && t.settles[i] == s.settles[i]
  }

  /** What the pass does, seen from the outside. */
  ghost predicate Passes(s: State, t: State, now: nat) {
    && t == s.(balances := t.balances, calls := t.calls, settles := t.settles, assets := t.assets)
    && Laws(t) && Collateralized(t) && Conserved(s, t) && Harmless(s, t)
    && AssetsPass(s, t) && OrdersPass(s, t, now)
  }

  lemma PassesRefl(s: State, now: nat)
    requires Laws(s) && Collateralized(s)
    ensures Passes(s, s, now)
  {
    hide Laws, Held, Harmless;
    HarmlessRefl(s);
  }

  lemma AssetsPassTrans(s: State, t: State, u: State)
    requires AssetsPass(s, t) && AssetsPass(t, u)
    ensures AssetsPass(s, u)
  {
    forall a | a in s.assets ensures SameForced(s.assets[a], u.assets[a]) && WithinCap(s.assets[a], u.assets[a]) {
      assert SameForced(s.assets[a], t.assets[a]) && SameForced(t.assets[a], u.assets[a]);
      assert WithinCap(s.assets[a], t.assets[a]) && WithinCap(t.assets[a], u.assets[a]);
    }
  }

  lemma OrdersPassTrans(s: State, t: State, u: State, now: nat)
    requires OrdersPass(s, t, now) && OrdersPass(t, u, now) && AssetsPass(s, t)
    ensures OrdersPass(s, u, now)
  {
    forall i | NotDue(s, i, now) ensures NotDue(t, i, now) {
      assert SameForced(s.assets[s.settles[i].asset], t.assets[s.settles[i].asset]);
    }
  }

  lemma PassesTrans(s: State, t: State, u: State, now: nat)
    requires Passes(s, t, now) && Passes(t, u, now)
    ensures Passes(s, u, now)
  {
    hide Laws, Conserved, AssetsPass, OrdersPass, Collateralized, Harmless;
    HarmlessTrans(s, t, u);
    ConservedTrans(s, t, u);
    AssetsPassTrans(s, t, u);
    OrdersPassTrans(s, t, u, now);
  }

  /** A turn of the pass for an order of `a` does not concern other orders or assets. */
  ghost predicate Turn(s: State, t: State, a: AssetId, now: nat) {
    && Passes(s, t, now)
    && (forall i :: i in s.settles && s.settles[i].asset != a ==> i in t.settles && t.settles[i] == s.settles[i])
    && (forall x: AssetId {:trigger t.IsBitasset(x)} :: s.IsBitasset(x) && x != a ==>
          t.IsBitasset(x) && t.Bit(x) == s.Bit(x))
  }

  lemma CancelTurn(s: State, id: nat, now: nat)
    requires Laws(s) && Collateralized(s) && id in s.settles && !NotDue(s, id, now)
    ensures Turn(s, CancelSettle(s, id), s.settles[id].asset, now)
    ensures CancelSettle(s, id).settles == s.settles - {id}
  {
    hide Good, Held, Debt, LifeCycle, Harmless;
    CancelSettlePays(s, id);
    var t := CancelSettle(s, id);
    forall a: AssetId ensures Held(t, a) == Held(s, a) {
      CancelSettleTotals(s, id, a);
    }
    assert Good(t) by {
      assert SameAssets(s, t) by { SameAssetsRefl(s, t); }
      hide SameAssets;
      GoodAgainSettles(s, t);
    }
    LifeCyclePlain(s, t);
  }

  lemma FilledRecords(s: State, u: State, t: State, a: AssetId, settled: nat)
    requires SameAssets(s, u) && s.IsBitasset(a) && u.IsBitasset(a) && u.Bit(a) == s.Bit(a)
    requires Burned(s, u, a, settled - s.Bit(a).forceSettled)
    requires t == SetBit(u, a, u.Bit(a).(forceSettled := settled))
    requires s.Bit(a).forceSettled <= settled <= Cap(s.assets[a])
    ensures AssetsPass(s, t)
    ensures forall x: AssetId {:trigger t.IsBitasset(x)} ::
              s.IsBitasset(x) && x != a ==> t.IsBitasset(x) && t.Bit(x) == s.Bit(x)
  {
    forall x | x in s.assets
      ensures SameForced(s.assets[x], t.assets[x]) && WithinCap(s.assets[x], t.assets[x])
      ensures x != a ==> t.assets[x].bit == s.assets[x].bit
    {
      assert SameTerms(s.assets[x], u.assets[x]);
      assert u.Supply(x) == s.Supply(x) - if x == a then settled - s.Bit(a).forceSettled else 0;
    }
  }

  lemma FillTurn(s: State, u: State, id: nat, settled: nat, now: nat)
    requires Laws(s) && id in s.settles && s.settles[id].date <= now
    requires var a := s.settles[id].asset;
             && Unsettled(s, a) && s.Bit(a).forceSettled <= settled <= Cap(s.assets[a])
             && Filling(s, u, id, settled - s.Bit(a).forceSettled)
    ensures var a := s.settles[id].asset;
            u.IsBitasset(a) && Turn(s, SetBit(u, a, u.Bit(a).(forceSettled := settled)), a, now)
  {
    hide Good, Held, Debt, SameAssets, Burned, Cap, Harmless;
    var a := s.settles[id].asset;
    SameBit(s, u, a);
    var t := SetBit(u, a, u.Bit(a).(forceSettled := settled));
    NobodyPaid(u, t);
    HarmlessTrans(s, u, t);
    FilledRecords(s, u, t, a, settled);
    LifeCycleSteady(s, u);
    hide LifeCycle, AssetsPass;
    forall x: AssetId
      ensures Held(t, x) == Held(u, x) && t.Supply(x) == u.Supply(x) && Debt(t, x) == Debt(u, x)
      ensures Held(t, x) - t.Supply(x) == Held(s, x) - s.Supply(x)
    {
      SetBitTotals(u, a, u.Bit(a).(forceSettled := settled), x);
      SameCallsSameDebt(u, t, x);
      assert Held(u, x) - u.Supply(x) == Held(s, x) - s.Supply(x);
    }
    assert Good(t) by {
      GoodAssetOf(u, a);
      GoodBidsOf(u, a);
      GoodNewRecord(u, t, a);
    }
    VolumeChanged(u, t, a);
  }

  lemma VolumeChanged(s: State, t: State, a: AssetId)
    requires LifeCycle(s) && s.IsBitasset(a) && t.IsBitasset(a)
    requires t == SetBit(s, a, s.Bit(a).(forceSettled := t.Bit(a).forceSettled))
    requires forall x: AssetId {:trigger Held(t, x)} :: Held(t, x) == Held(s, x)
    requires forall x: AssetId {:trigger Debt(t, x)} :: Debt(t, x) == Debt(s, x)
    ensures LifeCycle(t)
  {
    hide Held, Debt;
    assert LifeCycleOf(s, a);
    assert LifeCycleOf(t, a) by { assert Held(t, a) == Held(s, a) && Debt(t, a) == Debt(s, a); }
    LifeCycleBut(s, t, a);
  }

  /** Orders by asset, then by date, then by age. */
  predicate SettleBefore(l: map<nat, SettleOrder>, i: nat, j: nat)
    requires i in l && j in l
  {
    || l[i].asset < l[j].asset
    || (l[i].asset == l[j].asset && (l[i].date < l[j].date || (l[i].date == l[j].date && i <= j)))
  }

  function OrdersFrom(l: map<nat, SettleOrder>, a: AssetId): set<nat> {
    set i | i in l && l[i].asset >= a
  }

  predicate FirstSettle(l: map<nat, SettleOrder>, c: set<nat>, i: nat)
    requires c <= l.Keys
  {
    i in c && forall j :: j in c ==> SettleBefore(l, i, j)
  }

  lemma FirstSettleExists(l: map<nat, SettleOrder>, c: set<nat>)
    requires c <= l.Keys && c != {}
    ensures exists i :: i in c && FirstSettle(l, c, i)
  {
    var i := FirstExists(c, (i: nat, j: nat) => i in l && j in l && SettleBefore(l, i, j));
    assert FirstSettle(l, c, i);
  }

  /** An order that has to wait: it is not due, or the cap for its asset has been reached. */
  ghost predicate Waiting(s: State, i: nat, now: nat)
    requires i in s.settles
  {
    var a := s.settles[i].asset;
    Unsettled(s, a) && (s.settles[i].date > now || s.Bit(a).forceSettled >= Cap(s.assets[a]))
  }

  /** Nothing is left to do for the assets before `a`. */
  ghost predicate DoneBelow(s: State, a: AssetId, now: nat) {
    forall i :: i in s.settles && s.settles[i].asset < a ==> Waiting(s, i, now)
  }

  lemma TurnKeepsDone(s: State, t: State, a: AssetId, now: nat)
    requires Turn(s, t, a, now) && DoneBelow(s, a, now)
    ensures DoneBelow(t, a, now)
  {
    hide Laws, Conserved, Collateralized;
    forall i | i in t.settles && t.settles[i].asset < a ensures Waiting(t, i, now) {
      var x := t.settles[i].asset;
      assert Waiting(s, i, now);
      assert SameForced(s.assets[x], t.assets[x]);
      assert t.IsBitasset(x);
    }
  }

  /** The first order of an asset is not due, or the cap is reached: then all its orders wait. */
  lemma AssetDone(s: State, i: nat, c: AssetId, now: nat)
    requires i in s.settles && c <= s.settles[i].asset && FirstSettle(s.settles, OrdersFrom(s.settles, c), i)
    requires DoneBelow(s, c, now) && Waiting(s, i, now)
    ensures DoneBelow(s, s.settles[i].asset + 1, now)
  {
    hide Cap;
    forall j | j in s.settles && s.settles[j].asset <= s.settles[i].asset ensures Waiting(s, j, now) {
      if s.settles[j].asset < c {
        assert Waiting(s, j, now);
      } else {
        assert j in OrdersFrom(s.settles, c);
        assert SettleBefore(s.settles, i, j);
      }
    }
  }

  /** An asset that has no orders before its first one is done below it. */
  lemma DoneUpTo(s: State, i: nat, c: AssetId, now: nat)
    requires i in s.settles && c <= s.settles[i].asset && FirstSettle(s.settles, OrdersFrom(s.settles, c), i)
    requires DoneBelow(s, c, now)
    ensures DoneBelow(s, s.settles[i].asset, now)
  {
    hide Waiting;
    forall j | j in s.settles && s.settles[j].asset < s.settles[i].asset ensures Waiting(s, j, now) {
      assert s.settles[j].asset >= c ==> j in OrdersFrom(s.settles, c);
    }
  }

  /** What a turn of the loop does with an order: orders of settled assets, and due orders of assets without a feed, are
      cancelled; orders that are not due, or have no volume left, wait; the others are filled. */
  ghost function Turned(s: State, i: nat, now: nat): State
    requires Good(s) && i in s.settles
  {
    SettledAsset(s, i);
    BackingOf(s, s.settles[i].asset);
    var o := s.settles[i];
    var bit := s.Bit(o.asset);
    if bit.settlement.Some? || (o.date <= now && bit.feed.None?) then CancelSettle(s, i)
    else if o.date > now || bit.forceSettled >= Cap(s.assets[o.asset]) then s
    else
      var (u, settled) := Forced(s, i, SettlementPrice(s, i), bit.forceSettled, Cap(s.assets[o.asset]));
      if u.IsBitasset(o.asset) then SetBit(u, o.asset, u.Bit(o.asset).(forceSettled := settled)) else u
  }

  /** One turn of the loop, with order `i`. The cap is computed once for all orders of an asset. */
  method PassTurn(e: Engine, now: nat, i: nat, capOf: AssetId, cap: int)
    returns (waits: bool, capOf': AssetId, cap': int)
    requires Laws(e.Snapshot()) && Collateralized(e.Snapshot()) && i in e.settles
    requires capOf != CORE ==> e.Snapshot().IsBitasset(capOf) && cap == Cap(e.assets[capOf])
    modifies e`balances, e`settles, e`assets, e`calls
    ensures var s := old(e.Snapshot());
            var a := s.settles[i].asset;
            && Good(s) && e.Snapshot() == Turned(s, i, now)
            && Turn(s, e.Snapshot(), a, now)
            && (waits ==> e.Snapshot() == s && Waiting(s, i, now))
            && (!waits && i in e.settles ==>
                  && e.settles.Keys == s.settles.Keys && capOf' == a && e.Snapshot().IsBitasset(a)
                  && e.Snapshot().Bit(a).forceSettled >= cap'
                  && (capOf == a ==> s.IsBitasset(a) && s.Bit(a).forceSettled < cap))
            && (i !in e.settles ==> e.settles.Keys == s.settles.Keys - {i})
            && (capOf' != CORE ==> e.Snapshot().IsBitasset(capOf') && cap' == Cap(e.assets[capOf']))
  {
    hide Good, LifeCycle, Conserved, Collateralized, Filling, CancelSettle, Cap, Forced, SettlementPrice;
    ghost var s := e.Snapshot();
    capOf', cap' := capOf, cap;
    var a := e.settles[i].asset;
    assert s.IsBitasset(a) && a != CORE by { SettledAsset(s, i); }
    var bit := e.assets[a].bit.value;
    if bit.settlement.Some? || (e.settles[i].date <= now && bit.feed.None?) {
      CancelTurn(s, i, now);
      CancelSettleOrder(e, i);
      return false, capOf', cap';
    }
    TurnRefl(s, a, now);
    if e.settles[i].date > now {
      return true, capOf', cap';
    }
    if capOf' != a {
      capOf', cap' := a, Cap(e.assets[a]);
    }
    if bit.forceSettled >= cap' {
      return true, capOf', cap';
    }
    assert cap' <= e.assets[a].supply + bit.forceSettled by { CapBelow(s, a); }
    var settled := FillMatured(e, i, cap');
    ghost var u := e.Snapshot();
    FillTurn(s, u, i, settled, now);
    e.assets := e.assets[a := e.assets[a].(bit := Some(e.assets[a].bit.value.(forceSettled := settled)))];
    assert e.Snapshot() == SetBit(u, a, u.Bit(a).(forceSettled := settled));
    SameCap(s, e.Snapshot(), a, now);
    FillingKeys(s, u, i, settled - bit.forceSettled);
    return false, capOf', cap';
  }

  lemma SettledAsset(s: State, i: nat)
    requires Good(s) && i in s.settles
    ensures s.IsBitasset(s.settles[i].asset) && s.settles[i].asset != CORE
  {
    assert GoodSettle(s, s.settles[i]);
  }

  lemma TurnRefl(s: State, a: AssetId, now: nat)
    requires Laws(s) && Collateralized(s)
    ensures Turn(s, s, a, now)
  {
    hide Laws, Collateralized, Passes;
    PassesRefl(s, now);
  }

  lemma CapBelow(s: State, a: AssetId)
    requires Laws(s) && Unsettled(s, a)
    ensures Cap(s.assets[a]) <= s.assets[a].supply + s.Bit(a).forceSettled
  {
    assert s.IsBitasset(a) && LifeCycleOf(s, a);
    hide Debt, Held;
    DebtNonNegative(s, a);
    GoodAssetOf(s, a);
  }

  lemma SameCap(s: State, t: State, a: AssetId, now: nat)
    requires Turn(s, t, a, now)
    ensures forall x :: s.IsBitasset(x) ==> t.IsBitasset(x) && Cap(t.assets[x]) == Cap(s.assets[x])
  {
    hide Laws, Conserved, Collateralized;
    forall x | s.IsBitasset(x) ensures t.IsBitasset(x) && Cap(t.assets[x]) == Cap(s.assets[x]) {
      assert SameForced(s.assets[x], t.assets[x]);
    }
  }

  lemma FillingKeys(s: State, t: State, id: nat, settled: int)
    requires id in s.settles && Filling(s, t, id, settled)
    ensures t.settles.Keys == if id in t.settles then s.settles.Keys else s.settles.Keys - {id}
  {
    hide Good, Steady, SameAssets, Collateralized, Burned;
  }

  /** Some orders come after asset `a`; the next asset is the lowest of theirs. */
  method NextAsset(l: map<nat, SettleOrder>, a: AssetId) returns (more: bool, next: AssetId)
    ensures more <==> OrdersFrom(l, a + 1) != {}
    ensures if more then next > a && (exists i :: i in l && l[i].asset == next)
                         && forall i :: i in l ==> l[i].asset <= a || l[i].asset >= next
            else next == a && forall i :: i in l ==> l[i].asset <= a
  {
    var later := OrdersFrom(l, a + 1);
    if later == {} {
      assert forall i :: i in l && l[i].asset > a ==> i in later;
      return false, a;
    }
    FirstSettleExists(l, later);
    var i :| i in later && FirstSettle(l, later, i);
    forall j | j in l ensures l[j].asset <= a || l[j].asset >= l[i].asset {
      assert l[j].asset > a ==> j in later;
    }
    return true, l[i].asset;
  }

  /** The orders of later assets, which the loop has still to come to. */
  function Later(l: map<nat, SettleOrder>, a: AssetId): set<nat> {
    set i | i in l && l[i].asset > a
  }

  predicate CapReachedIn(s: State, a: AssetId, capOf: AssetId, cap: int) {
    capOf == a && s.IsBitasset(a) && s.Bit(a).forceSettled >= cap
  }

  predicate CapReached(e: Engine, a: AssetId, capOf: AssetId, cap: int)
    reads e
  {
    CapReachedIn(e.Snapshot(), a, capOf, cap)
  }

  /** Every order that is left has to wait. */
  ghost predicate AllWait(s: State, now: nat) {
    forall i :: i in s.settles ==> Waiting(s, i, now)
  }

  /** Where the loop stands. */
  ghost predicate Underway(s0: State, s: State, now: nat, current: AssetId, capOf: AssetId, cap: int) {
    && Passes(s0, s, now) && Laws(s) && Collateralized(s)
    && DoneBelow(s, current, now)
    && (capOf != CORE ==> s.IsBitasset(capOf) && cap == Cap(s.assets[capOf]))
  }

  /** An order has gone, or the loop has moved on to a later asset, or the cap of its asset has been reached. */
  ghost predicate Progress(s: State, a: AssetId, reached: bool, t: State, b: AssetId, reached': bool) {
    || |t.settles| < |s.settles|
    || (|t.settles| == |s.settles| && |Later(t.settles, b)| < |Later(s.settles, a)|)
    || (|t.settles| == |s.settles| && |Later(t.settles, b)| == |Later(s.settles, a)| && !reached && reached')
  }

  /** One turn of the loop, with its first order from asset `current` on. */
  method PassStep(e: Engine, now: nat, current: AssetId, capOf: AssetId, cap: int, ghost s0: State)
    returns (done: bool, current': AssetId, capOf': AssetId, cap': int, ghost i: nat)
    requires Underway(s0, e.Snapshot(), now, current, capOf, cap)
    requires OrdersFrom(e.settles, current) != {}
    modifies e`balances, e`settles, e`assets, e`calls
    ensures Underway(s0, e.Snapshot(), now, current', capOf', cap')
    ensures var s := old(e.Snapshot());
            && EarliestOfItsAsset(s.settles, i)
            && Good(s) && e.Snapshot() == Turned(s, i, now)
    ensures done ==> DoneBelow(e.Snapshot(), current' + 1, now) && Later(e.settles, current') == {}
    ensures done || Progress(old(e.Snapshot()), current, old(CapReached(e, current, capOf, cap)),
                             e.Snapshot(), current', CapReached(e, current', capOf', cap'))
  {
    hide Laws, Collateralized, Passes, Waiting, Cap, FirstSettle, Turn, DoneBelow, SettlesShrink, Turned, OrdersFrom,
         Good,
         Later, EarliestOfItsAsset;
    ghost var s := e.Snapshot();
    var order := FirstOrder(e.settles, current);
    i := order;
    DoneUpTo(s, i, current, now);
    var a := e.settles[order].asset;
    var waits;
    waits, capOf', cap' := PassTurn(e, now, order, capOf, cap);
    TurnPasses(s0, s, e.Snapshot(), a, now);
    if waits {
      AssetDone(s, i, current, now);
    }
    done, current' := Advance(e.settles, a, waits);
    Advanced(s, e.Snapshot(), current, i, now, waits, done, current', CapReachedIn(s, current, capOf, cap),
             CapReachedIn(e.Snapshot(), current', capOf', cap'));
  }

  /** When an order waits the loop goes on with the next asset that has orders, if there is one. */
  method Advance(l: map<nat, SettleOrder>, a: AssetId, waits: bool) returns (done: bool, next: AssetId)
    ensures !waits ==> !done && next == a
    ensures waits && done ==> next == a && Later(l, a) == {}
    ensures waits && !done ==> && next > a && (exists i :: i in l && l[i].asset == next)
                               && forall i :: i in l ==> l[i].asset <= a || l[i].asset >= next
  {
    if !waits {
      return false, a;
    }
    var more;
    more, next := NextAsset(l, a);
    if !more { NoneLater(l, a); }
    return !more, next;
  }

  lemma Advanced(s: State, t: State, current: AssetId, i: nat, now: nat, waits: bool, done: bool, next: AssetId,
                 reached: bool, reached': bool)
    requires i in s.settles && current <= s.settles[i].asset && DoneBelow(t, s.settles[i].asset, now)
    requires waits ==> t == s && DoneBelow(s, s.settles[i].asset + 1, now)
    requires !waits && i !in t.settles ==> t.settles.Keys == s.settles.Keys - {i}
    requires !waits && i in t.settles ==> t.settles.Keys == s.settles.Keys && SettlesShrink(s.settles, t.settles)
    requires !waits && i in t.settles ==> reached' && (current == s.settles[i].asset ==> !reached)
    requires !waits ==> !done && next == s.settles[i].asset
    requires waits && done ==> next == s.settles[i].asset && Later(t.settles, next) == {}
    requires waits && !done ==>
               && next > s.settles[i].asset && (exists j :: j in t.settles && t.settles[j].asset == next)
               && forall j :: j in t.settles ==> t.settles[j].asset <= s.settles[i].asset || t.settles[j].asset >= next
    ensures DoneBelow(t, next, now)
    ensures done ==> DoneBelow(t, next + 1, now) && Later(t.settles, next) == {}
    ensures done || Progress(s, current, reached, t, next, reached')
  {
    hide DoneBelow, Later, SettlesShrink;
    if !waits {
      TurnMakesProgress(s, t, current, i, reached, reached');
    } else if !done {
      MoveOn(s, s.settles[i].asset, next, now);
      LaterShrinks(s.settles, current, i);
    }
  }

  method FirstOrder(l: map<nat, SettleOrder>, a: AssetId) returns (i: nat)
    requires OrdersFrom(l, a) != {}
    ensures i in l && l[i].asset >= a && FirstSettle(l, OrdersFrom(l, a), i) && EarliestOfItsAsset(l, i)
  {
    var orders := OrdersFrom(l, a);
    FirstSettleExists(l, orders);
    i :| i in orders && FirstSettle(l, orders, i);
    forall j | j in l && l[j].asset == l[i].asset ensures SettleBefore(l, i, j) {
      assert j in orders;
    }
  }

  lemma NoneLater(l: map<nat, SettleOrder>, a: AssetId)
    requires forall i :: i in l ==> l[i].asset <= a
    ensures Later(l, a) == {}
  {
  }

  lemma TurnMakesProgress(s: State, t: State, current: AssetId, i: nat, reached: bool, reached': bool)
    requires i in s.settles && current <= s.settles[i].asset
    requires i !in t.settles ==> t.settles.Keys == s.settles.Keys - {i}
    requires i in t.settles ==> t.settles.Keys == s.settles.Keys && SettlesShrink(s.settles, t.settles)
    requires i in t.settles ==> reached' && (current == s.settles[i].asset ==> !reached)
    ensures Progress(s, current, reached, t, s.settles[i].asset, reached')
  {
    LaterShrinks(s.settles, current, i);
    if i in t.settles {
      SameLater(s.settles, t.settles, s.settles[i].asset);
    } else {
      assert |t.settles.Keys| < |s.settles.Keys|;
    }
  }

  /** The state after turns with these orders, one after the other. */
  ghost predicate Reached(s0: State, orders: seq<nat>, t: State, now: nat)
    decreases |orders|
  {
    if orders == [] then t == s0
    else
      var n := |orders| - 1;
      exists u :: && Reached(s0, orders[..n], u, now) && Good(u) && EarliestOfItsAsset(u.settles, orders[n])
                  && t == Turned(u, orders[n], now)
  }

  ghost predicate EarliestOfItsAsset(l: map<nat, SettleOrder>, i: nat) {
    i in l && forall j :: j in l && l[j].asset == l[i].asset ==> SettleBefore(l, i, j)
  }

  /** No order of the asset is due before it, and of those due with it it is the oldest. */
  lemma EarliestIsDueFirst(l: map<nat, SettleOrder>, i: nat)
    ensures EarliestOfItsAsset(l, i) <==>
            && i in l
            && forall j :: j in l && l[j].asset == l[i].asset ==>
                           l[i].date <= l[j].date && (l[i].date == l[j].date ==> i <= j)
  {
  }

  lemma ReachedOneMore(s0: State, orders: seq<nat>, u: State, i: nat, now: nat)
    requires Reached(s0, orders, u, now) && Good(u) && EarliestOfItsAsset(u.settles, i)
    ensures Reached(s0, orders + [i], Turned(u, i, now), now)
  {
    hide Good, Turned;
    assert (orders + [i])[..|orders|] == orders;
  }

  /** clear_expired_orders, forced settlements. When it ends, every order that is left is either not due, or of an asset
      whose cap for this period is used up; no order of a settled asset is left; and orders that are not due have not
      been touched. */
  method ClearSettlements(e: Engine, now: nat) returns (ghost orders: seq<nat>)
    requires Inv(e.Snapshot())
    modifies e`balances, e`settles, e`assets, e`calls
    ensures Passes(old(e.Snapshot()), e.Snapshot(), now) && AllWait(e.Snapshot(), now)
    ensures Reached(old(e.Snapshot()), orders, e.Snapshot(), now)
    ensures Inv(e.Snapshot()) && Conserved(old(e.Snapshot()), e.Snapshot())
    ensures Harmless(old(e.Snapshot()), e.Snapshot())
  {
    ghost var s0 := e.Snapshot();
    PassesRefl(s0, now);
    orders := [];
    hide Laws, Inv, Collateralized, Conserved, Passes, Waiting, Cap, Turned, EarliestOfItsAsset, Good, Progress,
         Reached, DoneBelow, Underway, Harmless;
    StartUnderway(s0, now);
    var current, capOf, cap, done := 0, CORE, 0, false;
    while !done && OrdersFrom(e.settles, current) != {}
      invariant Underway(s0, e.Snapshot(), now, current, capOf, cap) && Reached(s0, orders, e.Snapshot(), now)
      invariant done ==> DoneBelow(e.Snapshot(), current + 1, now) && Later(e.settles, current) == {}
      decreases !done, |e.settles|, |Later(e.settles, current)|, !CapReached(e, current, capOf, cap)
    {
      ghost var s, reached, before := e.Snapshot(), CapReached(e, current, capOf, cap), current;
      ghost var i;
      done, current, capOf, cap, i := PassStep(e, now, current, capOf, cap, s0);
      ReachedOneMore(s0, orders, s, i, now);
      orders := orders + [i];
      if !done { ProgressIsLess(s, before, reached, e.Snapshot(), current, CapReached(e, current, capOf, cap)); }
    }
    UnderwayFacts(s0, e.Snapshot(), now, current, capOf, cap);
    assert AllWait(e.Snapshot(), now) by { EveryOrderSeen(e.Snapshot(), current, done, now); }
    PassesInv(s0, e.Snapshot(), now);
  }

  lemma StartUnderway(s: State, now: nat)
    requires Inv(s) && Passes(s, s, now)
    ensures Underway(s, s, now, 0, CORE, 0) && Reached(s, [], s, now)
  {
  }

  lemma UnderwayFacts(s0: State, s: State, now: nat, current: AssetId, capOf: AssetId, cap: int)
    requires Underway(s0, s, now, current, capOf, cap)
    ensures Passes(s0, s, now) && DoneBelow(s, current, now)
  {
  }

  lemma ProgressIsLess(s: State, a: AssetId, reached: bool, t: State, b: AssetId, reached': bool)
    requires Progress(s, a, reached, t, b, reached')
    ensures || |t.settles| < |s.settles|
            || (|t.settles| == |s.settles| && |Later(t.settles, b)| < |Later(s.settles, a)|)
            || (|t.settles| == |s.settles| && |Later(t.settles, b)| == |Later(s.settles, a)| && !reached && reached')
  {
  }

  lemma LaterShrinks(l: map<nat, SettleOrder>, a: AssetId, i: nat)
    requires i in l && a <= l[i].asset
    ensures |Later(l, l[i].asset)| <= |Later(l, a)|
    ensures a < l[i].asset ==> |Later(l, l[i].asset)| < |Later(l, a)|
  {
    SubsetSize(Later(l, l[i].asset), Later(l, a));
    if a < l[i].asset {
      SubsetSize(Later(l, l[i].asset), Later(l, a) - {i});
    }
  }

  lemma SameLater(l: map<nat, SettleOrder>, l': map<nat, SettleOrder>, a: AssetId)
    requires l.Keys == l'.Keys && SettlesShrink(l, l')
    ensures Later(l', a) == Later(l, a) && |l'| == |l|
  {
    assert |l'.Keys| == |l.Keys|;
  }

  lemma TurnPasses(s0: State, s: State, t: State, a: AssetId, now: nat)
    requires Passes(s0, s, now) && Turn(s, t, a, now) && DoneBelow(s, a, now)
    ensures Passes(s0, t, now) && Laws(t) && Collateralized(t) && SettlesShrink(s.settles, t.settles)
    ensures DoneBelow(t, a, now)
  {
    hide Laws, Collateralized, Conserved, AssetsPass;
    PassesTrans(s0, s, t, now);
    TurnKeepsDone(s, t, a, now);
  }

  lemma MoveOn(s: State, a: AssetId, next: AssetId, now: nat)
    requires DoneBelow(s, a + 1, now) && next > a
    requires forall i :: i in s.settles ==> s.settles[i].asset <= a || s.settles[i].asset >= next
    requires exists i :: i in s.settles && s.settles[i].asset == next
    ensures DoneBelow(s, next, now)
    ensures |Later(s.settles, next)| < |Later(s.settles, a)|
  {
    hide Waiting;
    var i :| i in s.settles && s.settles[i].asset == next;
    LaterShrinks(s.settles, a, i);
  }

  lemma EveryOrderSeen(s: State, a: AssetId, done: bool, now: nat)
    requires DoneBelow(s, a, now)
    requires done ==> DoneBelow(s, a + 1, now) && Later(s.settles, a) == {}
    requires !done ==> OrdersFrom(s.settles, a) == {}
    ensures AllWait(s, now)
  {
    hide Waiting;
    forall i | i in s.settles ensures Waiting(s, i, now) {
      assert s.settles[i].asset >= a ==> i in OrdersFrom(s.settles, a);
      assert s.settles[i].asset > a ==> i in Later(s.settles, a);
    }
  }

  lemma PassesInv(s: State, t: State, now: nat)
    requires Inv(s) && Passes(s, t, now)
    ensures Inv(t) && Conserved(s, t) && Harmless(s, t)
  {
    hide Harmless, Good, LifeCycle, Uncrossed, Held, AssetsPass, OrdersPass;
  }
}
