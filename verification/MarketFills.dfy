/** Filling and cancelling orders: what each fill does to the tables, and what it leaves unchanged in total. */
module MarketFills {
  import opened Arithmetic
  import opened Common
  import opened MarketState
  import opened Sums

  // --------------------------------------------------------------------------------------------------------------
  // Well-formed tables.

  predicate GoodLimit(s: State, o: LimitOrder) {
    && o.forSale > 0 && o.price.Positive()
    && o.price.baseId != o.price.quoteId
    && o.price.baseId in s.assets && o.price.quoteId in s.assets
  }

  predicate GoodCall(s: State, k: Position, c: CallOrder) {
    && s.IsBitasset(k.1)
    && c.debt > 0
    && c.callPrice.Positive()
    && c.callPrice.quoteId == k.1 && c.callPrice.baseId == s.Bit(k.1).backing
  }

  predicate GoodSettle(s: State, o: SettleOrder) {
    s.IsBitasset(o.asset)
  }

  predicate GoodBid(s: State, k: Position, b: Bid) {
    && s.IsBitasset(k.1) && s.Bit(k.1).settlement.Some? && !s.Bit(k.1).prediction
    && b.price.Positive()
    && b.price.quoteId == k.1 && b.price.baseId == s.Bit(k.1).backing
  }

  predicate GoodFeed(a: AssetId, backing: AssetId, f: Feed) {
    && f.price.Positive() && f.price.baseId == a && f.price.quoteId == backing
    && f.mcr > 0 && f.mssr > 0
  }

  predicate GoodAsset(s: State, a: AssetId, x: Asset) {
    && x.feePercent <= HUNDRED_PERCENT
    && (x.bit.Some? ==>
          var b := x.bit.value;
          && b.backing in s.assets && b.backing != a
          && b.maxVolume <= HUNDRED_PERCENT && b.offset <= HUNDRED_PERCENT
          && (b.feed.Some? ==> GoodFeed(a, b.backing, b.feed.value))
          && (b.settlement.Some? ==> b.settlement.value.baseId == a && b.settlement.value.quoteId == b.backing))
  }

  ghost predicate DistinctIds(calls: map<Position, CallOrder>) {
    forall k, j :: k in calls && j in calls && calls[k].id == calls[j].id ==> k == j
  }

  ghost predicate GoodAssets(s: State) {
    CORE in s.assets && s.assets[CORE].bit.None? && forall a :: a in s.assets ==> GoodAsset(s, a, s.assets[a])
  }

  ghost predicate GoodLimits(s: State) {
    forall i :: i in s.limits ==> i < s.nextId && GoodLimit(s, s.limits[i])
  }

  ghost predicate GoodCalls(s: State) {
    DistinctIds(s.calls) && forall k :: k in s.calls ==> s.calls[k].id < s.nextId && GoodCall(s, k, s.calls[k])
  }

  ghost predicate GoodSettles(s: State) {
    forall i :: i in s.settles ==> i < s.nextId && GoodSettle(s, s.settles[i])
  }

  ghost predicate GoodBids(s: State) {
    forall k :: k in s.bids ==> GoodBid(s, k, s.bids[k])
  }

  ghost predicate Good(s: State) {
    GoodAssets(s) && GoodLimits(s) && GoodCalls(s) && GoodSettles(s) && GoodBids(s)
  }

  /** The parts of an asset's record that fills do not touch. */
  predicate SameTerms(x: Asset, y: Asset) {
    x.(supply := 0, fees := 0) == y.(supply := 0, fees := 0)
  }

  /** Asset records differ in supply and fees at most. */
  ghost predicate SameAssets(s: State, t: State) {
    s.assets.Keys == t.assets.Keys && forall a :: a in s.assets ==> SameTerms(s.assets[a], t.assets[a])
  }

  lemma SameAssetsUpdate(s: State, t: State, a: AssetId)
    requires a in s.assets && a in t.assets && SameTerms(s.assets[a], t.assets[a])
    requires t.assets == s.assets[a := t.assets[a]]
    ensures SameAssets(s, t)
  {
  }

  lemma SameAssetsBy(s: State, t: State, u: State)
    requires SameAssets(s, t) && u.assets == t.assets
    ensures SameAssets(s, u)
  {
  }

  lemma SameAssetsTrans(s: State, t: State, u: State)
    requires SameAssets(s, t) && SameAssets(t, u)
    ensures SameAssets(s, u)
  {
    forall a | a in s.assets ensures SameTerms(s.assets[a], u.assets[a]) {
      assert SameTerms(s.assets[a], t.assets[a]) && SameTerms(t.assets[a], u.assets[a]);
    }
  }

  /** Resting limit orders are only ever reduced or removed: their prices stand. */
  ghost predicate LimitsShrink(l: map<nat, LimitOrder>, l': map<nat, LimitOrder>) {
    forall i :: i in l' ==> i in l && l'[i].price == l[i].price && l'[i].seller == l[i].seller
                            && l'[i].forSale <= l[i].forSale
  }

  lemma DistinctIdsShrink(c: map<Position, CallOrder>, c': map<Position, CallOrder>)
    requires DistinctIds(c)
    requires forall k :: k in c' ==> k in c && c'[k].id == c[k].id
    ensures DistinctIds(c')
  {
  }

  /** The same assets, of the same kinds: what being well-formed depends on. */
  ghost predicate SameKinds(s: State, t: State) {
    && s.assets.Keys == t.assets.Keys
    && forall a :: a in s.assets ==> SameKind(s.assets[a], t.assets[a])
  }

  predicate SameKind(x: Asset, y: Asset) {
    x.bit.Some? == y.bit.Some? && (x.bit.Some? ==> x.bit.value.backing == y.bit.value.backing)
  }

  lemma SameAssetsSameKinds(s: State, t: State)
    requires SameAssets(s, t)
    ensures SameKinds(s, t)
  {
    forall a | a in s.assets ensures SameKind(s.assets[a], t.assets[a]) {
      assert SameTerms(s.assets[a], t.assets[a]);
    }
  }

  lemma GoodLimitsAgain(s: State, t: State)
    requires GoodLimits(s) && SameKinds(s, t) && s.nextId <= t.nextId
    requires LimitsShrink(s.limits, t.limits) && forall i :: i in t.limits ==> t.limits[i].forSale > 0
    ensures GoodLimits(t)
  {
    forall i | i in t.limits ensures i < t.nextId && GoodLimit(t, t.limits[i]) {
      assert GoodLimit(s, s.limits[i]);
    }
  }

  lemma GoodCallsAgain(s: State, t: State)
    requires GoodCalls(s) && SameKinds(s, t) && s.nextId <= t.nextId
    requires forall k :: k in t.calls ==> k in s.calls && t.calls[k].callPrice == s.calls[k].callPrice
                                          && t.calls[k].id == s.calls[k].id && t.calls[k].debt > 0
    ensures GoodCalls(t)
  {
    DistinctIdsShrink(s.calls, t.calls);
    hide DistinctIds;
    forall k | k in t.calls ensures t.calls[k].id < t.nextId && GoodCall(t, k, t.calls[k]) {
      assert GoodCall(s, k, s.calls[k]);
      assert SameKind(s.assets[k.1], t.assets[k.1]);
    }
  }

  lemma GoodSettlesAgain(s: State, t: State)
    requires GoodSettles(s) && SameKinds(s, t) && s.nextId <= t.nextId
    requires forall i :: i in t.settles ==> i in s.settles && t.settles[i].asset == s.settles[i].asset
    ensures GoodSettles(t)
  {
    forall i | i in t.settles ensures i < t.nextId && GoodSettle(t, t.settles[i]) {
      assert GoodSettle(s, s.settles[i]);
      assert SameKind(s.assets[s.settles[i].asset], t.assets[s.settles[i].asset]);
    }
  }

  lemma GoodBidsAgain(s: State, t: State)
    requires GoodBids(s) && SameKinds(s, t)
    requires forall k :: k in t.bids ==> k in s.bids && t.bids[k] == s.bids[k]
    requires forall k :: k in t.bids && t.IsBitasset(k.1) ==> t.Bit(k.1).settlement.Some? && !t.Bit(k.1).prediction
    ensures GoodBids(t)
  {
    forall k | k in t.bids ensures GoodBid(t, k, t.bids[k]) {
      assert GoodBid(s, k, s.bids[k]);
      assert SameKind(s.assets[k.1], t.assets[k.1]);
    }
  }

  /** Tables whose orders come from a good state, reduced or removed, are good again. */
  lemma GoodAgain(s: State, t: State)
    requires Good(s) && SameAssets(s, t) && t.nextId == s.nextId
    requires LimitsShrink(s.limits, t.limits) && forall i :: i in t.limits ==> t.limits[i].forSale > 0
    requires forall k :: k in t.calls ==> k in s.calls && t.calls[k].callPrice == s.calls[k].callPrice
                                          && t.calls[k].id == s.calls[k].id && t.calls[k].debt > 0
    requires forall i :: i in t.settles ==> i in s.settles && t.settles[i].asset == s.settles[i].asset
    requires forall k :: k in t.bids ==> k in s.bids && t.bids[k] == s.bids[k]
    ensures Good(t)
  {
    SameAssetsSameKinds(s, t);
    SameAssetsGood(s, t);
    hide GoodAssets, GoodLimits, GoodCalls, GoodSettles, SameKinds;
    GoodLimitsAgain(s, t);
    GoodCallsAgain(s, t);
    GoodSettlesAgain(s, t);
    forall k | k in t.bids && t.IsBitasset(k.1) ensures t.Bit(k.1).settlement.Some? && !t.Bit(k.1).prediction {
      assert GoodBid(s, k, s.bids[k]);
      assert SameTerms(s.assets[k.1], t.assets[k.1]);
    }
    GoodBidsAgain(s, t);
  }

  /** No limit order and no margin position in a good state is empty. */
  lemma GoodOrders(s: State)
    requires Good(s)
    ensures forall i :: i in s.limits ==> s.limits[i].forSale > 0
    ensures forall k :: k in s.calls ==> s.calls[k].debt > 0
  {
  }

  lemma GoodAgainCalls(s: State, t: State)
    requires Good(s) && SameAssets(s, t) && t.nextId == s.nextId
    requires t.limits == s.limits && t.settles == s.settles && t.bids == s.bids
    requires forall k :: k in t.calls ==> k in s.calls && t.calls[k].callPrice == s.calls[k].callPrice
                                          && t.calls[k].id == s.calls[k].id && t.calls[k].debt > 0
    ensures Good(t)
  {
    hide Good, SameAssets;
    GoodOrders(s);
    GoodAgain(s, t);
  }

  lemma GoodAgainSettles(s: State, t: State)
    requires Good(s) && SameAssets(s, t) && t.nextId == s.nextId
    requires t.limits == s.limits && t.calls == s.calls && t.bids == s.bids
    requires forall i :: i in t.settles ==> i in s.settles && t.settles[i].asset == s.settles[i].asset
    ensures Good(t)
  {
    hide Good, SameAssets;
    GoodOrders(s);
    GoodAgain(s, t);
  }

  lemma GoodCallOf(s: State, k: Position)
    requires Good(s) && k in s.calls
    ensures GoodCall(s, k, s.calls[k])
  {
  }

  lemma GoodAssetOf(s: State, a: AssetId)
    requires Good(s) && a in s.assets
    ensures GoodAsset(s, a, s.assets[a])
  {
  }

  lemma SameAssetsGood(s: State, t: State)
    requires Good(s) && SameAssets(s, t)
    ensures GoodAssets(t)
  {
    assert SameTerms(s.assets[CORE], t.assets[CORE]);
    forall a | a in t.assets ensures GoodAsset(t, a, t.assets[a]) {
      assert GoodAsset(s, a, s.assets[a]);
      assert SameTerms(s.assets[a], t.assets[a]);
    }
  }

  /** The account has an order, a position or a bid. */
  ghost predicate Involved(s: State, who: AccountId) {
    || (exists i :: i in s.limits && s.limits[i].seller == who)
    || (exists k :: k in s.calls && k.0 == who)
    || (exists i :: i in s.settles && s.settles[i].owner == who)
    || (exists k :: k in s.bids && k.0 == who)
  }

  /** Nothing is taken from the account's balances; if it is not involved, it does not become so, and none of its
      balances changes. */
  ghost predicate Spared(s: State, t: State, who: AccountId) {
    && (forall a: AssetId {:trigger t.Balance(who, a)} :: s.Balance(who, a) <= t.Balance(who, a))
    && (!Involved(s, who) ==>
          && !Involved(t, who)
          && forall a: AssetId {:trigger t.Balance(who, a)} :: s.Balance(who, a) == t.Balance(who, a))
  }

  ghost predicate SameIssuers(s: State, t: State) {
    s.assets.Keys == t.assets.Keys && forall a :: a in s.assets ==> t.assets[a].issuer == s.assets[a].issuer
  }

  /** Every account is spared, and issuers stay issuers. */
  ghost predicate Harmless(s: State, t: State) {
    SameIssuers(s, t) && forall who: AccountId {:trigger Spared(s, t, who)} :: Spared(s, t, who)
  }

  lemma SparedTrans(s: State, t: State, u: State, who: AccountId)
    requires Spared(s, t, who) && Spared(t, u, who)
    ensures Spared(s, u, who)
  {
    hide Involved;
    forall a: AssetId
      ensures s.Balance(who, a) <= u.Balance(who, a)
      ensures !Involved(s, who) ==> s.Balance(who, a) == u.Balance(who, a)
    {
      assert s.Balance(who, a) <= t.Balance(who, a) <= u.Balance(who, a);
    }
  }

  lemma HarmlessTrans(s: State, t: State, u: State)
    requires Harmless(s, t) && Harmless(t, u)
    ensures Harmless(s, u)
  {
    hide Spared;
    forall who: AccountId ensures Spared(s, u, who) {
      assert Spared(s, t, who) && Spared(t, u, who);
      SparedTrans(s, t, u, who);
    }
  }

  lemma HarmlessRefl(s: State)
    ensures Harmless(s, s)
  {
    forall who: AccountId ensures Spared(s, s, who) {}
  }

  /** The same for all accounts but the one that acts. */
  ghost predicate HarmlessBut(s: State, t: State, actor: AccountId) {
    SameIssuers(s, t) && forall who: AccountId {:trigger Spared(s, t, who)} :: who != actor ==> Spared(s, t, who)
  }

  lemma HarmlessButTrans(s: State, t: State, u: State, actor: AccountId)
    requires HarmlessBut(s, t, actor) && HarmlessBut(t, u, actor)
    ensures HarmlessBut(s, u, actor)
  {
    hide Spared;
    forall who: AccountId | who != actor ensures Spared(s, u, who) {
      assert Spared(s, t, who) && Spared(t, u, who);
      SparedTrans(s, t, u, who);
    }
  }

  /** The accounts but one have the same balances, orders, positions and bids. */
  ghost predicate OnlyActor(s: State, t: State, actor: AccountId) {
    && (forall w: AccountId, a: AssetId {:trigger t.Balance(w, a)} ::
          w != actor ==> t.Balance(w, a) == s.Balance(w, a))
    && (forall i :: i in t.limits && t.limits[i].seller != actor ==>
                    i in s.limits && t.limits[i].seller == s.limits[i].seller)
    && (forall k :: k in t.calls && k.0 != actor ==> k in s.calls)
    && (forall i :: i in t.settles && t.settles[i].owner != actor ==>
                    i in s.settles && t.settles[i].owner == s.settles[i].owner)
    && (forall k :: k in t.bids && k.0 != actor ==> k in s.bids)
    && SameIssuers(s, t)
  }

  lemma ActsAlone(s: State, t: State, actor: AccountId)
    requires OnlyActor(s, t, actor)
    ensures HarmlessBut(s, t, actor)
  {
    forall who: AccountId | who != actor ensures Spared(s, t, who) {
      assert Involved(t, who) ==> Involved(s, who);
    }
  }

  /** Whoever has an order, a position or a bid in `t` has one in `s`. */
  ghost predicate OldOwners(s: State, t: State) {
    && (forall i :: i in t.limits ==> i in s.limits && t.limits[i].seller == s.limits[i].seller)
    && t.calls.Keys <= s.calls.Keys && t.bids.Keys <= s.bids.Keys
    && (forall i :: i in t.settles ==> i in s.settles && t.settles[i].owner == s.settles[i].owner)
    && SameIssuers(s, t)
  }

  lemma OldOwnersInvolved(s: State, t: State, who: AccountId)
    requires OldOwners(s, t) && Involved(t, who)
    ensures Involved(s, who)
  {
  }

  lemma OldOwnersIssuers(s: State, t: State)
    requires OldOwners(s, t)
    ensures SameIssuers(s, t)
  {
  }

  lemma NobodyPaid(s: State, t: State)
    requires t.balances == s.balances && OldOwners(s, t)
    ensures Harmless(s, t)
  {
    hide Involved, OldOwners;
    forall w: AccountId ensures Spared(s, t, w) {
      if Involved(t, w) { OldOwnersInvolved(s, t, w); }
    }
    assert SameIssuers(s, t) by { OldOwnersIssuers(s, t); }
  }

  lemma PaidToOwner(s: State, who: AccountId, a: AssetId, delta: nat, t: State)
    requires t.balances == AddBalance(s, who, a, delta).balances && OldOwners(s, t) && Involved(s, who)
    ensures Harmless(s, t)
  {
    hide Involved, OldOwners;
    forall w: AccountId ensures Spared(s, t, w) {
      if Involved(t, w) { OldOwnersInvolved(s, t, w); }
    }
    assert SameIssuers(s, t) by { OldOwnersIssuers(s, t); }
  }

  /** An amount is paid to an account, and nothing to or from any other. */
  ghost predicate Credited(s: State, t: State, who: AccountId, x: AssetId, amount: int) {
    forall w: AccountId, a: AssetId {:trigger t.Balance(w, a)} ::
      t.Balance(w, a) == s.Balance(w, a) + if w == who && a == x then amount else 0
  }

  // --------------------------------------------------------------------------------------------------------------
  // Market fees.

  /** calculate_market_fee (an asset that does not charge has a percentage of zero). The fee never exceeds the amount
      it is taken from. */
  function MarketFee(x: Asset, amount: nat): (fee: nat)
    ensures x.feePercent <= HUNDRED_PERCENT ==> fee <= amount
    ensures fee <= x.maxFee && fee * HUNDRED_PERCENT <= amount * x.feePercent
    ensures fee < x.maxFee ==> amount * x.feePercent < (fee + 1) * HUNDRED_PERCENT
  {
    FeeBelow(amount, x.feePercent);
    var fee := amount * x.feePercent / HUNDRED_PERCENT;
    if fee > x.maxFee then x.maxFee else fee
  }

  lemma FeeBelow(amount: nat, percent: nat)
    ensures percent <= HUNDRED_PERCENT ==> amount * percent / HUNDRED_PERCENT <= amount
  {
    if percent <= HUNDRED_PERCENT {
      assert amount * percent <= amount * HUNDRED_PERCENT;
    }
  }

  // --------------------------------------------------------------------------------------------------------------
  // Limit orders.

  /** cancel_order: what is left for sale and the deferred fee go back to the seller. */
  function CancelLimit(s: State, id: nat): State
    requires id in s.limits
  {
    var o := s.limits[id];
    DropLimit(AddBalance(AddBalance(s, o.seller, o.price.baseId, o.forSale), o.seller, CORE, o.deferredFee), id)
  }

  lemma CancelLimitTotals(s: State, id: nat, a: AssetId)
    requires id in s.limits
    ensures var t := CancelLimit(s, id);
            Held(t, a) == Held(s, a) && Debt(t, a) == Debt(s, a) && t.Supply(a) == s.Supply(a)
  {
    hide Held, SumBy;
    var o := s.limits[id];
    var s1 := AddBalance(s, o.seller, o.price.baseId, o.forSale);
    var s2 := AddBalance(s1, o.seller, CORE, o.deferredFee);
    AddBalanceTotals(s, o.seller, o.price.baseId, o.forSale, a);
    AddBalanceTotals(s1, o.seller, CORE, o.deferredFee, a);
    DropLimitTotals(s2, id, a);
  }

  lemma CancelLimitHarmless(s: State, id: nat)
    requires id in s.limits
    ensures Harmless(s, CancelLimit(s, id))
  {
    hide Harmless;
    var o := s.limits[id];
    var s1 := AddBalance(s, o.seller, o.price.baseId, o.forSale);
    PaidToOwner(s, o.seller, o.price.baseId, o.forSale, s1);
    PaidToOwner(s1, o.seller, CORE, o.deferredFee, CancelLimit(s, id));
    HarmlessTrans(s, s1, CancelLimit(s, id));
  }

  /** The seller, and nobody else, gets back what is left of the order and its deferred fee. */
  lemma CancelLimitPays(s: State, id: nat)
    requires id in s.limits
    ensures var o, t := s.limits[id], CancelLimit(s, id);
            forall w: AccountId, a: AssetId {:trigger t.Balance(w, a)} ::
              t.Balance(w, a) == s.Balance(w, a) + (if w == o.seller && a == o.price.baseId then o.forSale else 0)
                                 + (if w == o.seller && a == CORE then o.deferredFee else 0)
    ensures var t := CancelLimit(s, id);
            t == s.(balances := t.balances, limits := s.limits - {id})
  {
  }

  /** An order so small that it asks for nothing in return. */
  predicate TooSmall(o: LimitOrder)
    requires o.price.base > 0
  {
    o.price.ToQuote(o.forSale) == 0
  }

  lemma TooSmallMeans(o: LimitOrder)
    requires o.price.base > 0
    ensures TooSmall(o) <==> o.forSale * o.price.quote < o.price.base
  {
    o.price.ToQuoteIsFloor(o.forSale);
    if !TooSmall(o) { MulMonotone(1, o.price.ToQuote(o.forSale), o.price.base); }
  }

  /** The part of fill_order that pays: the fee to the issuer, the rest to the seller, the deferred fee to the
      network. */
  function PaySeller(s: State, o: LimitOrder, receives: nat): State
    requires o.price.quoteId in s.assets && s.assets[o.price.quoteId].feePercent <= HUNDRED_PERCENT
  {
    var fee := MarketFee(s.assets[o.price.quoteId], receives);
    AddPending(AddBalance(AddFees(s, o.price.quoteId, fee), o.seller, o.price.quoteId, receives - fee),
               o.seller, o.deferredFee)
  }

  lemma PaySellerTotals(s: State, o: LimitOrder, receives: nat, a: AssetId)
    requires o.price.quoteId in s.assets && s.assets[o.price.quoteId].feePercent <= HUNDRED_PERCENT
    ensures var t := PaySeller(s, o, receives);
            && Held(t, a) == Held(s, a) + (if a == o.price.quoteId then receives else 0)
                             + (if a == CORE then o.deferredFee else 0)
            && Debt(t, a) == Debt(s, a) && t.Supply(a) == s.Supply(a)
  {
    hide Held, SumBy;
    var q := o.price.quoteId;
    var fee := MarketFee(s.assets[q], receives);
    var s1 := AddFees(s, q, fee);
    var s2 := AddBalance(s1, o.seller, q, receives - fee);
    AddFeesTotals(s, q, fee, a);
    AddBalanceTotals(s1, o.seller, q, receives - fee, a);
    AddPendingTotals(s2, o.seller, o.deferredFee, a);
  }

  /** What becomes of an order that has been paid for a part of what it sells. */
  function RestOf(s: State, id: nat, o: LimitOrder, pays: nat, cullIfSmall: bool): State
    requires pays <= o.forSale && o.price.base > 0
  {
    if pays == o.forSale then DropLimit(s, id)
    else
      var rest := o.(forSale := o.forSale - pays, deferredFee := 0);
      if cullIfSmall && TooSmall(rest) then CancelLimit(SetLimit(s, id, rest), id) else SetLimit(s, id, rest)
  }

  /** fill_order for a limit order that pays `pays` and receives `receives`. */
  function FillLimit(s: State, id: nat, pays: nat, receives: nat, cullIfSmall: bool): State
    requires id in s.limits && pays <= s.limits[id].forSale && s.limits[id].price.base > 0
    requires s.limits[id].price.quoteId in s.assets
    requires s.assets[s.limits[id].price.quoteId].feePercent <= HUNDRED_PERCENT
  {
    RestOf(PaySeller(s, s.limits[id], receives), id, s.limits[id], pays, cullIfSmall)
  }

  /** A fill moves exactly what it says: `receives` comes in, `pays` goes out, nothing else changes in total. */
  lemma FillLimitTotals(s: State, id: nat, pays: nat, receives: nat, cullIfSmall: bool, a: AssetId)
    requires id in s.limits && pays <= s.limits[id].forSale && s.limits[id].price.base > 0
    requires s.limits[id].price.quoteId in s.assets
    requires s.assets[s.limits[id].price.quoteId].feePercent <= HUNDRED_PERCENT
    ensures var t := FillLimit(s, id, pays, receives, cullIfSmall);
            var o := s.limits[id];
            && Held(t, a) == Held(s, a) + (if a == o.price.quoteId then receives else 0)
                             - (if a == o.price.baseId then pays else 0)
            && Debt(t, a) == Debt(s, a) && t.Supply(a) == s.Supply(a)
  {
    hide Held, SumBy;
    var o := s.limits[id];
    var s1 := PaySeller(s, o, receives);
    PaySellerTotals(s, o, receives, a);
    if pays == o.forSale {
      DropLimitTotals(s1, id, a);
    } else {
      var rest := o.(forSale := o.forSale - pays, deferredFee := 0);
      var s2 := SetLimit(s1, id, rest);
      SetLimitTotals(s1, id, rest, a);
      if cullIfSmall && TooSmall(rest) {
        CancelLimitTotals(s2, id, a);
      }
    }
  }

  /** The seller, and nobody else, gets what the order earns, less the fee for the issuer of what it earns; and what is
      left of the order, if that is too small to stay. */
  lemma FillLimitPays(s: State, id: nat, pays: nat, receives: nat, cullIfSmall: bool)
    requires id in s.limits && pays <= s.limits[id].forSale && s.limits[id].price.base > 0
    requires s.limits[id].price.quoteId in s.assets
    requires s.assets[s.limits[id].price.quoteId].feePercent <= HUNDRED_PERCENT
    ensures var o, t := s.limits[id], FillLimit(s, id, pays, receives, cullIfSmall);
            var fee := MarketFee(s.assets[o.price.quoteId], receives);
            && (forall w: AccountId, a: AssetId {:trigger t.Balance(w, a)} ::
                  t.Balance(w, a) == s.Balance(w, a) + Earned(o, receives - fee, w, a)
                                     + (if w == o.seller && a == o.price.baseId && id !in t.limits
                                        then o.forSale - pays else 0))
            && (forall x :: x in s.assets ==>
                  x in t.assets && t.assets[x].fees == s.assets[x].fees + if x == o.price.quoteId then fee else 0)
            && (forall w: AccountId {:trigger t.Pending(w)} ::
                  t.Pending(w) == s.Pending(w) + if w == o.seller then o.deferredFee else 0)
  {
    var o, t := s.limits[id], FillLimit(s, id, pays, receives, cullIfSmall);
    var s1 := PaySeller(s, o, receives);
    hide FillLimit;
    PaySellerPays(s, o, receives);
    hide PaySeller, MarketFee;
    RestPays(s1, id, o, pays, cullIfSmall);
    hide RestOf;
    forall w: AccountId, a: AssetId
      ensures t.Balance(w, a) ==
                s.Balance(w, a) + Earned(o, receives - MarketFee(s.assets[o.price.quoteId], receives), w, a)
                                 + (if w == o.seller && a == o.price.baseId
                                 && id !in t.limits then o.forSale - pays else 0)
    {
      assert t.Balance(w, a) == s1.Balance(w, a) + if w == o.seller && a == o.price.baseId && id !in t.limits
                                                   then o.forSale - pays else 0;
    }
  }

  lemma RestPays(s: State, id: nat, o: LimitOrder, pays: nat, cullIfSmall: bool)
    requires pays <= o.forSale && o.price.base > 0
    ensures var t := RestOf(s, id, o, pays, cullIfSmall);
            && t == s.(balances := t.balances, limits := t.limits)
            && (forall w: AccountId, a: AssetId {:trigger t.Balance(w, a)} ::
                  t.Balance(w, a) == s.Balance(w, a) + if w == o.seller && a == o.price.baseId && id !in t.limits
                                                       then o.forSale - pays else 0)
  {
    hide TooSmall, CancelLimit;
    if pays < o.forSale {
      var s2 := SetLimit(s, id, o.(forSale := o.forSale - pays, deferredFee := 0));
      CancelLimitPays(s2, id);
      assert forall w: AccountId, a: AssetId {:trigger s2.Balance(w, a)} :: s2.Balance(w, a) == s.Balance(w, a);
    }
  }

  lemma PaySellerPays(s: State, o: LimitOrder, receives: nat)
    requires o.price.quoteId in s.assets && s.assets[o.price.quoteId].feePercent <= HUNDRED_PERCENT
    ensures var t, fee := PaySeller(s, o, receives), MarketFee(s.assets[o.price.quoteId], receives);
            && Credited(s, t, o.seller, o.price.quoteId, receives - fee)
            && (forall x :: x in s.assets ==>
                  x in t.assets && t.assets[x].fees == s.assets[x].fees + if x == o.price.quoteId then fee else 0)
            && (forall w: AccountId {:trigger t.Pending(w)} ::
                  t.Pending(w) == s.Pending(w) + if w == o.seller then o.deferredFee else 0)
  {
    hide MarketFee;
  }

  /** What the seller of an order gets of the asset it asks for. */
  function Earned(o: LimitOrder, amount: int, who: AccountId, a: AssetId): int {
    if who == o.seller && a == o.price.quoteId then amount else 0
  }

  lemma SellerInvolved(s: State, id: nat)
    requires id in s.limits
    ensures Involved(s, s.limits[id].seller)
  {
  }

  lemma SameAssetsIssuers(s: State, t: State)
    requires SameAssets(s, t)
    ensures SameIssuers(s, t)
  {
    forall a | a in s.assets ensures t.assets[a].issuer == s.assets[a].issuer {
      assert SameTerms(s.assets[a], t.assets[a]);
    }
  }

  lemma FillLimitHarmless(s: State, id: nat, pays: nat, receives: nat, cullIfSmall: bool)
    requires id in s.limits && pays <= s.limits[id].forSale && s.limits[id].price.base > 0
    requires s.limits[id].price.quoteId in s.assets
    requires s.assets[s.limits[id].price.quoteId].feePercent <= HUNDRED_PERCENT
    ensures Harmless(s, FillLimit(s, id, pays, receives, cullIfSmall))
  {
    hide Harmless, MarketFee;
    var o := s.limits[id];
    var s1 := PaySeller(s, o, receives);
    var earned := receives - MarketFee(s.assets[o.price.quoteId], receives);
    assert s1.balances == AddBalance(s, o.seller, o.price.quoteId, earned).balances;
    assert s1 == s.(balances := s1.balances, assets := s1.assets, pending := s1.pending) && SameIssuers(s, s1) by {
      PaySellerFrame(s, o, receives);
      SameAssetsIssuers(s, s1);
    }
    RestHarmless(s, s1, id, pays, earned, cullIfSmall);
  }

  lemma RestHarmless(s: State, s1: State, id: nat, pays: nat, earned: nat, cullIfSmall: bool)
    requires id in s.limits && pays <= s.limits[id].forSale && s.limits[id].price.base > 0
    requires s1.balances == AddBalance(s, s.limits[id].seller, s.limits[id].price.quoteId, earned).balances
    requires s1 == s.(balances := s1.balances, assets := s1.assets, pending := s1.pending) && SameIssuers(s, s1)
    ensures Harmless(s, RestOf(s1, id, s.limits[id], pays, cullIfSmall))
  {
    hide Harmless, SameIssuers, Involved, CancelLimit, OldOwners;
    var o := s.limits[id];
    assert Involved(s, o.seller) by { SellerInvolved(s, id); }
    if pays == o.forSale {
      StillOldOwners(s, s1, DropLimit(s1, id));
      PaidToOwner(s, o.seller, o.price.quoteId, earned, DropLimit(s1, id));
    } else {
      var s2 := SetLimit(s1, id, o.(forSale := o.forSale - pays, deferredFee := 0));
      StillOldOwners(s, s1, s2);
      PaidToOwner(s, o.seller, o.price.quoteId, earned, s2);
      CancelLimitHarmless(s2, id);
      HarmlessTrans(s, s2, CancelLimit(s2, id));
    }
  }

  lemma StillOldOwners(s: State, s1: State, t: State)
    requires t.calls == s.calls && t.settles == s.settles && t.bids == s.bids
    requires SameIssuers(s, s1) && t.assets == s1.assets
    requires forall i :: i in t.limits ==> i in s.limits && t.limits[i].seller == s.limits[i].seller
    ensures OldOwners(s, t)
  {
  }

  lemma PaySellerFrame(s: State, o: LimitOrder, receives: nat)
    requires o.price.quoteId in s.assets && s.assets[o.price.quoteId].feePercent <= HUNDRED_PERCENT
    ensures var t := PaySeller(s, o, receives);
            t == s.(balances := t.balances, assets := t.assets, pending := t.pending) && SameAssets(s, t)
  {
  }

  /** What a fill does to the order, and what it leaves alone. */
  lemma FillLimitFrame(s: State, id: nat, pays: nat, receives: nat, cullIfSmall: bool)
    requires Good(s)
    requires id in s.limits && pays <= s.limits[id].forSale
    ensures var t := FillLimit(s, id, pays, receives, cullIfSmall);
            var rest := s.limits[id].(forSale := s.limits[id].forSale - pays, deferredFee := 0);
            && t == s.(balances := t.balances, assets := t.assets, pending := t.pending, limits := t.limits)
            && SameAssets(s, t)
            && t.limits == (if pays == s.limits[id].forSale || (cullIfSmall && TooSmall(rest)) then s.limits - {id}
                            else s.limits[id := rest])
  {
    hide Good, MarketFee;
    assert GoodLimit(s, s.limits[id]) && GoodAsset(s, s.limits[id].price.quoteId, s.assets[s.limits[id].price.quoteId])
    by { FillableLimit(s, id); }
    PaySellerFrame(s, s.limits[id], receives);
    var t := FillLimit(s, id, pays, receives, cullIfSmall);
    assert t.assets == PaySeller(s, s.limits[id], receives).assets;
    assert s.limits[id := s.limits[id].(forSale := s.limits[id].forSale - pays, deferredFee := 0)] - {id}
           == s.limits - {id};
  }

  /** A fill in a good state: what is left of the order, and who is paid what. */
  lemma FillLimitResult(s: State, id: nat, pays: nat, receives: nat, cullIfSmall: bool)
    requires Good(s) && id in s.limits && pays <= s.limits[id].forSale
    ensures s.limits[id].price.base > 0 && s.limits[id].price.quoteId in s.assets
    ensures s.assets[s.limits[id].price.quoteId].feePercent <= HUNDRED_PERCENT
    ensures Filled(s, FillLimit(s, id, pays, receives, cullIfSmall), id, pays, receives)
    ensures !cullIfSmall && id !in FillLimit(s, id, pays, receives, cullIfSmall).limits ==> pays == s.limits[id].forSale
  {
    hide Good, MarketFee, FillLimit, SameAssets, Earned, TooSmall;
    FillableLimit(s, id);
    var t := FillLimit(s, id, pays, receives, cullIfSmall);
    assert t.calls == s.calls && (t.limits == s.limits - {id}
                                  || t.limits == s.limits[id := s.limits[id].(forSale := s.limits[id].forSale - pays,
                                                                             deferredFee := 0)])
    by { FillLimitFrame(s, id, pays, receives, cullIfSmall); }
    assert !cullIfSmall && id !in t.limits ==> pays == s.limits[id].forSale
    by { FillLimitFrame(s, id, pays, receives, cullIfSmall); }
    FillLimitPays(s, id, pays, receives, cullIfSmall);
  }

  ghost predicate Filled(s: State, t: State, id: nat, pays: nat, receives: nat)
    requires id in s.limits && s.limits[id].price.quoteId in s.assets
  {
    var o := s.limits[id];
    && (id in t.limits ==> t.limits[id].forSale == o.forSale - pays)
    && (forall j :: j != id ==> (j in t.limits <==> j in s.limits))
    && (forall j :: j != id && j in t.limits ==> t.limits[j] == s.limits[j])
    && t.calls == s.calls
    && forall w: AccountId, a: AssetId {:trigger t.Balance(w, a)} ::
         t.Balance(w, a) == s.Balance(w, a)
                            + Earned(o, receives - MarketFee(s.assets[o.price.quoteId], receives), w, a)
                            + (if w == o.seller && a == o.price.baseId && id !in t.limits then o.forSale - pays else 0)
  }

  lemma FillableLimit(s: State, id: nat)
    requires Good(s) && id in s.limits
    ensures GoodLimit(s, s.limits[id])
    ensures GoodAsset(s, s.limits[id].price.quoteId, s.assets[s.limits[id].price.quoteId])
  {
  }

  lemma FillLimitGood(s: State, id: nat, pays: nat, receives: nat, cullIfSmall: bool)
    requires Good(s)
    requires id in s.limits && pays <= s.limits[id].forSale
    ensures var t := FillLimit(s, id, pays, receives, cullIfSmall);
            Good(t) && LimitsShrink(s.limits, t.limits)
  {
    hide Good, SameAssets, FillLimit;
    FillableLimit(s, id);
    FillLimitFrame(s, id, pays, receives, cullIfSmall);
    GoodOrders(s);
    GoodAgain(s, FillLimit(s, id, pays, receives, cullIfSmall));
  }

  // --------------------------------------------------------------------------------------------------------------
  // Call orders.

  /** fill_order for a margin position that pays `pays` of its collateral and receives `receives` of its debt. The debt
      received is burned from the supply; a position without debt gives its remaining collateral back. */
  function FillCall(s: State, k: Position, pays: nat, receives: nat): State
    requires k in s.calls && k.1 in s.assets
    requires pays <= s.calls[k].collateral && receives <= s.calls[k].debt
  {
    var c := s.calls[k];
    var s1 := SetSupply(s, k.1, s.assets[k.1].supply - receives);
    if receives == c.debt then
      DropCall(AddBalance(s1, k.0, c.callPrice.baseId, c.collateral - pays), k)
    else
      SetCall(s1, k, c.(debt := c.debt - receives, collateral := c.collateral - pays))
  }

  lemma FillCallTotals(s: State, k: Position, pays: nat, receives: nat, a: AssetId)
    requires k in s.calls && k.1 in s.assets
    requires pays <= s.calls[k].collateral && receives <= s.calls[k].debt
    ensures var t := FillCall(s, k, pays, receives);
            && Held(t, a) == Held(s, a) - (if a == s.calls[k].callPrice.baseId then pays else 0)
            && Debt(t, a) == Debt(s, a) - (if a == k.1 then receives else 0)
            && t.Supply(a) == s.Supply(a) - (if a == k.1 then receives else 0)
  {
    hide Held, SumBy;
    var c := s.calls[k];
    var s1 := SetSupply(s, k.1, s.assets[k.1].supply - receives);
    SetSupplyTotals(s, k.1, s.assets[k.1].supply - receives, a);
    if receives == c.debt {
      var s2 := AddBalance(s1, k.0, c.callPrice.baseId, c.collateral - pays);
      AddBalanceTotals(s1, k.0, c.callPrice.baseId, c.collateral - pays, a);
      DropCallTotals(s2, k, a);
    } else {
      SetCallTotals(s1, k, c.(debt := c.debt - receives, collateral := c.collateral - pays), a);
    }
  }

  /** The owner of the position, and nobody else, gets back the collateral that is left when the debt is paid. */
  lemma FillCallPays(s: State, k: Position, pays: nat, receives: nat)
    requires k in s.calls && k.1 in s.assets
    requires pays <= s.calls[k].collateral && receives <= s.calls[k].debt
    ensures Credited(s, FillCall(s, k, pays, receives), k.0, s.calls[k].callPrice.baseId,
                     if receives == s.calls[k].debt then s.calls[k].collateral - pays else 0)
  {
  }

  lemma FillCallHarmless(s: State, k: Position, pays: nat, receives: nat)
    requires k in s.calls && k.1 in s.assets
    requires pays <= s.calls[k].collateral && receives <= s.calls[k].debt
    ensures Harmless(s, FillCall(s, k, pays, receives))
  {
    hide Harmless;
    var t := FillCall(s, k, pays, receives);
    if receives == s.calls[k].debt {
      PaidToOwner(s, k.0, s.calls[k].callPrice.baseId, s.calls[k].collateral - pays, t);
    } else {
      NobodyPaid(s, t);
    }
  }

  lemma FillCallFrame(s: State, k: Position, pays: nat, receives: nat)
    requires k in s.calls && k.1 in s.assets
    requires pays <= s.calls[k].collateral && receives <= s.calls[k].debt
    ensures var t := FillCall(s, k, pays, receives);
            var c := s.calls[k];
            && t == s.(balances := t.balances, assets := t.assets, calls := t.calls)
            && SameAssets(s, t)
            && t.calls == if receives == c.debt then s.calls - {k}
                          else s.calls[k := c.(debt := c.debt - receives, collateral := c.collateral - pays)]
  {
    hide SameAssets;
    var s1 := SetSupply(s, k.1, s.assets[k.1].supply - receives);
    SameAssetsUpdate(s, s1, k.1);
    SameAssetsBy(s, s1, FillCall(s, k, pays, receives));
  }

  lemma FillCallGood(s: State, k: Position, pays: nat, receives: nat)
    requires Good(s)
    requires k in s.calls && pays <= s.calls[k].collateral && receives <= s.calls[k].debt
    ensures k.1 in s.assets
    ensures Good(FillCall(s, k, pays, receives))
  {
    hide Good, SameAssets, FillCall;
    GoodCallOf(s, k);
    GoodOrders(s);
    FillCallFrame(s, k, pays, receives);
    GoodAgainCalls(s, FillCall(s, k, pays, receives));
  }

  // --------------------------------------------------------------------------------------------------------------
  // Forced settlement orders.

  function CancelSettle(s: State, id: nat): State
    requires id in s.settles
  {
    var o := s.settles[id];
    DropSettle(AddBalance(s, o.owner, o.asset, o.balance), id)
  }

  lemma CancelSettleTotals(s: State, id: nat, a: AssetId)
    requires id in s.settles
    ensures var t := CancelSettle(s, id);
            Held(t, a) == Held(s, a) && Debt(t, a) == Debt(s, a) && t.Supply(a) == s.Supply(a)
  {
    hide Held, SumBy;
    var o := s.settles[id];
    AddBalanceTotals(s, o.owner, o.asset, o.balance, a);
    DropSettleTotals(AddBalance(s, o.owner, o.asset, o.balance), id, a);
  }

  /** The owner of the order, and nobody else, gets it back. */
  lemma CancelSettlePays(s: State, id: nat)
    requires id in s.settles
    ensures Credited(s, CancelSettle(s, id), s.settles[id].owner, s.settles[id].asset, s.settles[id].balance)
    ensures Harmless(s, CancelSettle(s, id))
  {
    hide Harmless;
    PaidToOwner(s, s.settles[id].owner, s.settles[id].asset, s.settles[id].balance, CancelSettle(s, id));
  }

  /** fill_order for a settlement order that pays `pays` and receives `receives` of asset `q`. */
  function FillSettle(s: State, id: nat, pays: nat, q: AssetId, receives: nat): State
    requires id in s.settles && pays <= s.settles[id].balance
    requires q in s.assets && s.assets[q].feePercent <= HUNDRED_PERCENT
  {
    var o := s.settles[id];
    var fee := MarketFee(s.assets[q], receives);
    var s1 := AddFees(s, q, fee);
    if pays < o.balance then
      AddBalance(SetSettle(s1, id, o.(balance := o.balance - pays)), o.owner, q, receives - fee)
    else
      DropSettle(AddBalance(s1, o.owner, q, receives - fee), id)
  }

  lemma FillSettleTotals(s: State, id: nat, pays: nat, q: AssetId, receives: nat, a: AssetId)
    requires id in s.settles && pays <= s.settles[id].balance
    requires q in s.assets && s.assets[q].feePercent <= HUNDRED_PERCENT
    ensures var t := FillSettle(s, id, pays, q, receives);
            && Held(t, a) == Held(s, a) + (if a == q then receives else 0)
                             - (if a == s.settles[id].asset then pays else 0)
            && Debt(t, a) == Debt(s, a) && t.Supply(a) == s.Supply(a)
  {
    hide Held, SumBy;
    var o := s.settles[id];
    var fee := MarketFee(s.assets[q], receives);
    var s1 := AddFees(s, q, fee);
    AddFeesTotals(s, q, fee, a);
    if pays < o.balance {
      var s2 := SetSettle(s1, id, o.(balance := o.balance - pays));
      SetSettleTotals(s1, id, o.(balance := o.balance - pays), a);
      AddBalanceTotals(s2, o.owner, q, receives - fee, a);
    } else {
      var s2 := AddBalance(s1, o.owner, q, receives - fee);
      AddBalanceTotals(s1, o.owner, q, receives - fee, a);
      DropSettleTotals(s2, id, a);
    }
  }

  /** The owner of the order, and nobody else, gets what it earns, less the fee for the issuer of what it earns. */
  lemma FillSettlePays(s: State, id: nat, pays: nat, q: AssetId, receives: nat)
    requires id in s.settles && pays <= s.settles[id].balance
    requires q in s.assets && s.assets[q].feePercent <= HUNDRED_PERCENT
    ensures var t, fee := FillSettle(s, id, pays, q, receives), MarketFee(s.assets[q], receives);
            && Credited(s, t, s.settles[id].owner, q, receives - fee)
            && (forall x :: x in s.assets ==>
                  x in t.assets && t.assets[x].fees == s.assets[x].fees + if x == q then fee else 0)
            && Harmless(s, t)
  {
    hide MarketFee, Harmless;
    FillSettleHarmless(s, id, pays, q, receives);
  }

  lemma FillSettleHarmless(s: State, id: nat, pays: nat, q: AssetId, receives: nat)
    requires id in s.settles && pays <= s.settles[id].balance
    requires q in s.assets && s.assets[q].feePercent <= HUNDRED_PERCENT
    ensures Harmless(s, FillSettle(s, id, pays, q, receives))
  {
    hide MarketFee, Harmless, SameAssets;
    var o, t, earned := s.settles[id], FillSettle(s, id, pays, q, receives), receives - MarketFee(s.assets[q],
      receives);
    FillSettleFrame(s, id, pays, q, receives);
    assert t.balances == AddBalance(s, o.owner, q, earned).balances;
    hide FillSettle;
    PaidToOwner(s, o.owner, q, earned, t);
  }

  lemma FillSettleFrame(s: State, id: nat, pays: nat, q: AssetId, receives: nat)
    requires id in s.settles && pays <= s.settles[id].balance
    requires q in s.assets && s.assets[q].feePercent <= HUNDRED_PERCENT
    ensures var t := FillSettle(s, id, pays, q, receives);
            var o := s.settles[id];
            && t == s.(balances := t.balances, assets := t.assets, settles := t.settles)
            && SameAssets(s, t)
            && t.settles == if pays == o.balance then s.settles - {id}
                            else s.settles[id := o.(balance := o.balance - pays)]
  {
    hide MarketFee, SameAssets;
    SameAssetsUpdate(s, AddFees(s, q, MarketFee(s.assets[q], receives)), q);
    SameAssetsBy(s, AddFees(s, q, MarketFee(s.assets[q], receives)), FillSettle(s, id, pays, q, receives));
  }

  lemma FillSettleGood(s: State, id: nat, pays: nat, q: AssetId, receives: nat)
    requires Good(s)
    requires id in s.settles && pays <= s.settles[id].balance
    requires q in s.assets
    ensures s.assets[q].feePercent <= HUNDRED_PERCENT
    ensures Good(FillSettle(s, id, pays, q, receives))
  {
    hide Good, SameAssets, FillSettle;
    GoodAssetOf(s, q);
    GoodOrders(s);
    FillSettleFrame(s, id, pays, q, receives);
    GoodAgainSettles(s, FillSettle(s, id, pays, q, receives));
  }
}
