/** Bids on a settled asset, and its revival: the supply becomes the debt of new margin positions, and the settlement
    fund their collateral. */
module MarketBids {
  import opened Common
  import opened Arithmetic
  import opened Sums
  import opened MarketState
  import opened MarketFills
  import opened MarketIndex
  import opened MarketInvariant
  import opened MarketCallPrice
  import opened Market
  import opened MarketOperations

  // --------------------------------------------------------------------------------------------------------------
  // Turning bids into positions.

  /** execute_bid: a margin position for the bidder, with the collateral of the bid and a share of the fund. */
  function ExecuteBid(s: State, k: Position, base: nat, debt: nat, share: nat): State
    requires s.IsBitasset(k.1) && s.Bit(k.1).feed.Some? && s.Bit(k.1).feed.value.mcr > 0
    requires debt > 0 && base + share > 0
  {
    var bit := s.Bit(k.1);
    var price := CallPrice(debt, k.1, base + share, bit.backing, bit.feed.value.mcr);
    DropBid(SetCall(s, k, CallOrder(s.nextId, base + share, debt, price)), k).(nextId := s.nextId + 1)
  }

  /** The positions in `done` have been taken since `s0`: they cover `covered` of the supply and hold `paid` that is
      still in the fund's books. */
  ghost predicate Executing(s0: State, s: State, a: AssetId, done: set<Position>, covered: int, paid: int) {
    && s0.IsBitasset(a)
    && s == s0.(calls := s.calls, bids := s0.bids - done, nextId := s.nextId)
    && Good(s) && Collateralized(s)
    && (forall k :: k in done ==> k.1 == a)
    && s.calls.Keys == s0.calls.Keys + done
    && (forall k :: k in s0.calls ==> s.calls[k] == s0.calls[k])
    && ExecutedTotals(s0, s, a, covered, paid)
  }

  ghost predicate ExecutedTotals(s0: State, s: State, a: AssetId, covered: int, paid: int)
    requires s0.IsBitasset(a)
  {
    && (forall x: AssetId {:trigger Held(s, x)} ::
          Held(s, x) == Held(s0, x) + if x == s0.Bit(a).backing then paid else 0)
    && (forall x: AssetId {:trigger Debt(s, x)} :: Debt(s, x) == Debt(s0, x) + if x == a then covered else 0)
  }

  lemma ExecuteBidTotals(s: State, k: Position, base: nat, debt: nat, share: nat, x: AssetId)
    requires s.IsBitasset(k.1) && s.Bit(k.1).feed.Some? && s.Bit(k.1).feed.value.mcr > 0
    requires debt > 0 && base + share > 0 && k !in s.calls
    requires if k in s.bids then s.bids[k].price.base == base && s.bids[k].price.baseId == s.Bit(k.1).backing
             else base == 0
    ensures var t := ExecuteBid(s, k, base, debt, share);
            && Held(t, x) == Held(s, x) + (if x == s.Bit(k.1).backing then share else 0)
            && Debt(t, x) == Debt(s, x) + (if x == k.1 then debt else 0)
  {
    hide Held, Debt, CallPrice;
    var t := ExecuteBid(s, k, base, debt, share);
    var s1 := SetCall(s, k, t.calls[k]);
    SetCallTotals(s, k, t.calls[k], x);
    var s2 := DropBid(s1, k);
    if k in s.bids {
      DropBidTotals(s1, k, x);
    } else {
      assert s2.bids == s.bids;
      assert s2 == s1;
    }
    SameCallsSameDebt(s1, s2, x);
    SameTables(s2, t, x);
  }

  lemma ExecuteBidGood(s: State, k: Position, base: nat, debt: nat, share: nat)
    requires Good(s) && k !in s.calls
    requires s.IsBitasset(k.1) && s.Bit(k.1).feed.Some? && s.Bit(k.1).feed.value.mcr > 0
    requires debt > 0 && base + share > 0
    ensures Good(ExecuteBid(s, k, base, debt, share))
  {
    hide CallPrice, Good;
    var t := ExecuteBid(s, k, base, debt, share);
    var u := s.(bids := s.bids - {k});
    GoodWithBids(s, u);
    OnePositionMore(u, t, k, t.calls[k]);
  }

  lemma ExecuteStep(s0: State, s: State, a: AssetId, done: set<Position>, covered: int, paid: int,
                    k: Position, base: nat, debt: nat, share: nat)
    requires Executing(s0, s, a, done, covered, paid) && CallsOf(s0.calls, a) == {}
    requires s0.Bit(a).feed.Some? && s0.Bit(a).feed.value.mcr > 0
    requires k.1 == a && k !in done && debt > 0 && base + share > 0
    requires if k in s.bids then s.bids[k].price.base == base && s.bids[k].price.baseId == s0.Bit(a).backing
             else base == 0
    ensures Executing(s0, ExecuteBid(s, k, base, debt, share), a, done + {k}, covered + debt, paid + share)
  {
    hide CallPrice, ExecutedTotals, Good;
    assert k !in s.calls by { assert k in s0.calls ==> k in CallsOf(s0.calls, a); }
    ExecuteBidGood(s, k, base, debt, share);
    var t := ExecuteBid(s, k, base, debt, share);
    ExecuteStepTotals(s0, s, a, covered, paid, k, base, debt, share);
    assert t.bids == s0.bids - (done + {k});
  }

  lemma ExecuteStepTotals(s0: State, s: State, a: AssetId, covered: int, paid: int,
                          k: Position, base: nat, debt: nat, share: nat)
    requires s0.IsBitasset(a) && s.assets == s0.assets && ExecutedTotals(s0, s, a, covered, paid)
    requires s0.Bit(a).feed.Some? && s0.Bit(a).feed.value.mcr > 0
    requires k.1 == a && k !in s.calls && debt > 0 && base + share > 0
    requires if k in s.bids then s.bids[k].price.base == base && s.bids[k].price.baseId == s0.Bit(a).backing
             else base == 0
    ensures ExecutedTotals(s0, ExecuteBid(s, k, base, debt, share), a, covered + debt, paid + share)
  {
    hide Held, Debt, ExecuteBid;
    var t := ExecuteBid(s, k, base, debt, share);
    forall x: AssetId
      ensures Held(t, x) == Held(s0, x) + if x == s0.Bit(a).backing then paid + share else 0
      ensures Debt(t, x) == Debt(s0, x) + if x == a then covered + debt else 0
    {
      ExecuteBidTotals(s, k, base, debt, share, x);
      assert Held(s, x) == Held(s0, x) + if x == s0.Bit(a).backing then paid else 0;
      assert Debt(s, x) == Debt(s0, x) + if x == a then covered else 0;
    }
  }

  method Execute(e: Engine, k: Position, base: nat, debt: nat, share: nat)
    requires e.Snapshot().IsBitasset(k.1) && e.Snapshot().Bit(k.1).feed.Some?
             && e.Snapshot().Bit(k.1).feed.value.mcr > 0
    requires debt > 0 && base + share > 0
    modifies e`calls, e`bids, e`nextId
    ensures e.Snapshot() == ExecuteBid(old(e.Snapshot()), k, base, debt, share)
  {
    hide CallPrice;
    var bit := e.assets[k.1].bit.value;
    var price := CallPrice(debt, k.1, base + share, bit.backing, bit.feed.value.mcr);
    e.calls := e.calls[k := CallOrder(e.nextId, base + share, debt, price)];
    e.bids := e.bids - {k};
    e.nextId := e.nextId + 1;
  }

  // --------------------------------------------------------------------------------------------------------------
  // Cancelling the other bids.

  function BidsOf(bids: map<Position, Bid>, a: AssetId): set<Position> {
    set k | k in bids && k.1 == a
  }

  /** What has been given back of the bids on `a`. */
  function RefundTo(s: State, bids: map<Position, Bid>, a: AssetId, who: AccountId, x: AssetId): nat {
    if (who, a) in s.bids && (who, a) !in bids && x == s.bids[(who, a)].price.baseId
    then s.bids[(who, a)].price.base
    else 0
  }

  ghost predicate Refunded(s: State, t: State, a: AssetId) {
    forall who: AccountId, x: AssetId {:trigger t.Balance(who, x)} ::
      t.Balance(who, x) == s.Balance(who, x) + RefundTo(s, t.bids, a, who, x)
  }

  /** Some bids on `a` have been cancelled since `s`. */
  ghost predicate Cancelling(s: State, t: State, a: AssetId) {
    && t == s.(balances := t.balances, bids := t.bids)
    && (forall k :: k in t.bids ==> k in s.bids && t.bids[k] == s.bids[k])
    && (forall k :: k in s.bids && k.1 != a ==> k in t.bids)
    && (forall x: AssetId {:trigger Held(t, x)} :: Held(t, x) == Held(s, x))
    && Refunded(s, t, a)
  }

  lemma CancelStep(s: State, t: State, a: AssetId, k: Position)
    requires Cancelling(s, t, a) && k in t.bids && k.1 == a
    ensures Cancelling(s, CancelBid(t, k), a)
  {
    hide Held;
    var u := CancelBid(t, k);
    forall x: AssetId ensures Held(u, x) == Held(s, x) {
      CancelBidTotals(t, k, x);
      assert Held(t, x) == Held(s, x);
    }
    forall who: AccountId, x: AssetId ensures u.Balance(who, x) == s.Balance(who, x) + RefundTo(s, u.bids, a, who, x) {
      assert t.Balance(who, x) == s.Balance(who, x) + RefundTo(s, t.bids, a, who, x);
    }
  }

  /** All bids on `a` are given back and the settlement is over. */
  ghost predicate Closed(s: State, t: State, a: AssetId) {
    && s.IsBitasset(a)
    && t == s.(balances := t.balances, bids := t.bids, assets := t.assets)
    && t.assets == s.assets[a := s.assets[a].(bit := Some(s.Bit(a).(settlement := None, fund := 0)))]
    && t.bids == (map k | k in s.bids && k.1 != a :: s.bids[k])
    && Refunded(s, t, a)
  }

  /** The fund is struck from the books; nothing else changes in total. */
  ghost predicate FundTaken(s: State, t: State, a: AssetId)
    requires s.IsBitasset(a)
  {
    forall x: AssetId {:trigger Held(t, x)} ::
      && Held(t, x) == Held(s, x) - (if x == s.Bit(a).backing then s.Bit(a).fund else 0)
      && t.Supply(x) == s.Supply(x)
  }

  /** _cancel_bids_and_revive_mpa */
  method CancelBidsAndRevive(e: Engine, a: AssetId)
    requires Good(e.Snapshot()) && e.Snapshot().IsBitasset(a)
    modifies e`balances, e`bids, e`assets
    ensures Closed(old(e.Snapshot()), e.Snapshot(), a)
    ensures Good(e.Snapshot())
    ensures FundTaken(old(e.Snapshot()), e.Snapshot(), a)
  {
    hide Good, Held, Cancelling;
    ghost var s := e.Snapshot();
    assert Cancelling(s, s, a) by { NothingCancelled(s, a); }
    while BidsOf(e.bids, a) != {}
      invariant Cancelling(s, e.Snapshot(), a) && e.assets == s.assets
      modifies e`balances, e`bids
      decreases e.bids.Keys
    {
      var k :| k in BidsOf(e.bids, a);
      CancelStep(s, e.Snapshot(), a, k);
      var _ := e.AdjustBalance(k.0, e.bids[k].price.baseId, e.bids[k].price.base);
      e.bids := e.bids - {k};
    }
    AllCancelled(s, e.Snapshot(), a);
    e.assets := e.assets[a := e.assets[a].(bit := Some(e.assets[a].bit.value.(settlement := None, fund := 0)))];
  }

  lemma NothingCancelled(s: State, a: AssetId)
    ensures Cancelling(s, s, a)
  {
    hide Held;
    assert forall who: AccountId, x: AssetId :: RefundTo(s, s.bids, a, who, x) == 0;
  }

  lemma AllCancelled(s: State, t: State, a: AssetId)
    requires Good(s) && s.IsBitasset(a) && Cancelling(s, t, a) && BidsOf(t.bids, a) == {}
    ensures var u := t.(assets := t.assets[a := t.assets[a].(bit := Some(t.Bit(a).(settlement := None, fund := 0)))]);
            Good(u) && Closed(s, u, a) && FundTaken(s, u, a)
  {
    hide Held, Good, Refunded;
    var bit := t.Bit(a).(settlement := None, fund := 0);
    var u := SetBit(t, a, bit);
    assert forall k :: k in t.bids ==> k.1 != a by {
      assert forall k :: k in t.bids && k.1 == a ==> k in BidsOf(t.bids, a);
    }
    assert FundTaken(s, u, a) by {
      forall x: AssetId
        ensures Held(u, x) == Held(s, x) - (if x == s.Bit(a).backing then s.Bit(a).fund else 0)
        ensures u.Supply(x) == s.Supply(x)
      {
        SetBitTotals(t, a, bit, x);
        assert Held(t, x) == Held(s, x);
      }
    }
    hide FundTaken;
    assert Refunded(s, u, a) by { RefundedStill(s, t, u, a); }
    GoodWithBids(s, t);
    GoodAssetOf(t, a);
    GoodNewRecord(t, u, a);
  }

  lemma RefundedStill(s: State, t: State, u: State, a: AssetId)
    requires Refunded(s, t, a) && u.bids == t.bids && u.balances == t.balances
    ensures Refunded(s, u, a)
  {
    forall who: AccountId, x: AssetId ensures u.Balance(who, x) == s.Balance(who, x) + RefundTo(s, u.bids, a, who, x) {
      assert t.Balance(who, x) == s.Balance(who, x) + RefundTo(s, t.bids, a, who, x);
    }
  }

  /** When the new positions cover the supply and hold the fund, closing the settlement starts a new life cycle. */
  lemma NewLife(s0: State, s: State, t: State, a: AssetId, done: set<Position>)
    requires Inv(s0) && s0.IsBitasset(a) && s0.Bit(a).settlement.Some?
    requires Executing(s0, s, a, done, s0.assets[a].supply, s0.Bit(a).fund)
    requires Closed(s, t, a) && Good(t)
    requires FundTaken(s, t, a)
    ensures Inv(t) && Conserved(s0, t)
  {
    assert s0.IsBitasset(a) && LifeCycleOf(s0, a);
    GoodOrders(s0);
    DebtOfPositions(s0, a);
    hide Held, Debt, Good, Uncrossed;
    forall x: AssetId
      ensures Held(t, x) == Held(s0, x) && t.Supply(x) == s0.Supply(x)
      ensures Debt(t, x) == Debt(s0, x) + if x == a then s0.assets[a].supply else 0
    {
      assert Held(s, x) == Held(s0, x) + if x == s0.Bit(a).backing then s0.Bit(a).fund else 0;
      SameCallsSameDebt(s, t, x);
    }
    assert LifeCycleOf(t, a) by { assert Held(t, a) == Held(s0, a); }
    LifeCycleBut(s0, t, a);
  }

  lemma NothingExecuted(s: State, a: AssetId)
    requires Inv(s) && s.IsBitasset(a) && s.Bit(a).settlement.Some?
    ensures Executing(s, s, a, {}, 0, 0) && CallsOf(s.calls, a) == {}
    ensures Solvent(s.Bit(a).fund, s.assets[a].supply, s.Bit(a).settlement.value)
    ensures s.Bit(a).feed.Some? ==> GoodFeed(a, s.Bit(a).backing, s.Bit(a).feed.value)
  {
    hide Held, Debt;
    assert LifeCycleOf(s, a);
    GoodAssetOf(s, a);
    hide Good, LifeCycle, Uncrossed;
    assert s.bids - {} == s.bids;
  }

  // --------------------------------------------------------------------------------------------------------------
  // Revival by a price feed.

  /** A settled asset with a feed can be revived unless its issuer has a bid on it, which is in the way of the bid made
      in the issuer's name, or there is nothing in the fund to cover its supply. */
  predicate MayRevive(s: State, a: AssetId) {
    && s.IsBitasset(a) && s.Bit(a).settlement.Some? && !s.Bit(a).prediction && s.Bit(a).feed.Some?
    && (s.assets[a].supply > 0 ==> (s.assets[a].issuer, a) !in s.bids && s.Bit(a).fund > 0)
  }

  /** The issuer takes over the supply as debt, with the fund as collateral; all bids are given back. */
  ghost predicate RevivedByIssuer(s: State, t: State, a: AssetId) {
    && s.IsBitasset(a)
    && t.IsBitasset(a) && t.Bit(a) == s.Bit(a).(settlement := None, fund := 0)
    && t.assets == s.assets[a := s.assets[a].(bit := t.assets[a].bit)]
    && t.bids == (map k | k in s.bids && k.1 != a :: s.bids[k])
    && Refunded(s, t, a)
    && t.limits == s.limits && t.settles == s.settles
    && if s.assets[a].supply <= 0 then t.calls == s.calls && s.assets[a].supply == 0 && s.Bit(a).fund == 0
       else
         var k := (s.assets[a].issuer, a);
         && k in t.calls && t.calls == s.calls[k := t.calls[k]]
         && t.calls[k].debt == s.assets[a].supply && t.calls[k].collateral == s.Bit(a).fund
  }

  /** revive_bitasset */
  method ReviveBitasset(e: Engine, a: AssetId) returns (ok: bool)
    requires Inv(e.Snapshot()) && e.Snapshot().IsBitasset(a)
    modifies e`balances, e`calls, e`bids, e`assets, e`nextId
    ensures var s := old(e.Snapshot());
            ok <==> && s.Bit(a).settlement.Some? && !s.Bit(a).prediction && s.Bit(a).feed.Some?
                    && (s.assets[a].supply > 0 ==> s.Bit(a).fund > 0 && (s.assets[a].issuer, a) !in s.bids)
    ensures !ok ==> e.Snapshot() == old(e.Snapshot())
    ensures ok ==> Inv(e.Snapshot()) && Conserved(old(e.Snapshot()), e.Snapshot())
    ensures ok ==> RevivedByIssuer(old(e.Snapshot()), e.Snapshot(), a)
    ensures ok ==> HarmlessBut(old(e.Snapshot()), e.Snapshot(), old(e.assets)[a].issuer)
  {
    hide Good, LifeCycle, Uncrossed, Collateralized, Conserved, ExecutedTotals, FundTaken, CallPrice, Refunded;
    ghost var s0 := e.Snapshot();
    var bit := e.assets[a].bit.value;
    if bit.settlement.None? || bit.prediction || bit.feed.None? {
      return false;
    }
    NothingExecuted(s0, a);
    var issuer, supply := e.assets[a].issuer, e.assets[a].supply;
    ghost var done: set<Position> := {};
    if supply > 0 {
      if (issuer, a) in e.bids || bit.fund == 0 {
        return false;
      }
      ExecuteStep(s0, s0, a, {}, 0, 0, (issuer, a), 0, supply, bit.fund);
      Execute(e, (issuer, a), 0, supply, bit.fund);
      done := {} + {(issuer, a)};
    }
    ghost var s := e.Snapshot();
    CancelBidsAndRevive(e, a);
    NewLife(s0, s, e.Snapshot(), a, done);
    assert Refunded(s0, e.Snapshot(), a) by { RefundedFrom(s0, s, e.Snapshot(), a); }
    hide HarmlessBut;
    RevivedByIssuerHarmless(s0, e.Snapshot(), a);
    return true;
  }

  lemma RefundedFrom(s0: State, s: State, t: State, a: AssetId)
    requires Refunded(s, t, a) && s.bids == s0.bids && s.balances == s0.balances
    ensures Refunded(s0, t, a)
  {
    forall who: AccountId, x: AssetId
      ensures t.Balance(who, x) == s0.Balance(who, x) + RefundTo(s0, t.bids, a, who, x)
    {
      assert t.Balance(who, x) == s.Balance(who, x) + RefundTo(s, t.bids, a, who, x);
    }
  }

  /** A revival by the issuer concerns the issuer and the bidders, who get their bids back. */
  lemma RevivedByIssuerHarmless(s: State, t: State, a: AssetId)
    requires RevivedByIssuer(s, t, a)
    ensures HarmlessBut(s, t, s.assets[a].issuer)
  {
    forall who: AccountId | who != s.assets[a].issuer ensures Spared(s, t, who) {
      assert Involved(t, who) ==> Involved(s, who);
      forall x: AssetId
        ensures s.Balance(who, x) <= t.Balance(who, x)
        ensures !Involved(s, who) ==> s.Balance(who, x) == t.Balance(who, x)
      {
        assert (who, a) in s.bids ==> Involved(s, who);
      }
    }
  }

  // --------------------------------------------------------------------------------------------------------------
  // Revival by bids.

  /** The debt that bids offer to cover. */
  function Offered(bids: map<Position, Bid>, chosen: seq<Position>): nat
    requires forall k :: k in chosen ==> k in bids
  {
    if chosen == [] then 0
    else Offered(bids, chosen[..|chosen| - 1]) + bids[chosen[|chosen| - 1]].price.quote
  }

  /** The fund's worth of that debt at the settlement price, rounded down bid by bid. */
  function Shares(bids: map<Position, Bid>, chosen: seq<Position>, p: Price): nat
    requires p.base > 0 && forall k :: k in chosen ==> k in bids
  {
    if chosen == [] then 0
    else Shares(bids, chosen[..|chosen| - 1], p) + p.ToQuote(bids[chosen[|chosen| - 1]].price.quote)
  }

  function Members(chosen: seq<Position>): set<Position> {
    set k | k in chosen
  }

  predicate CanBeRevived(s: State, a: AssetId) {
    && s.IsBitasset(a) && s.Bit(a).settlement.Some? && s.Bit(a).feed.Some?
    && s.Bit(a).feed.value.mcr > 0
    && (s.assets[a].supply > 0 ==> s.Bit(a).settlement.value.base > 0)
  }

  /** A bid that would not be called at once: its position, with its share of the fund, is above the call price. */
  predicate Acceptable(s: State, a: AssetId, k: Position)
    requires CanBeRevived(s, a) && s.Bit(a).settlement.value.base > 0
    requires k in s.bids && s.bids[k].price.Positive()
  {
    var bit, bid := s.Bit(a), s.bids[k].price;
    var total := bit.settlement.value.ToQuote(bid.quote) + bid.base;
    CallPrice(bid.quote, a, total, bit.backing, bit.feed.value.mcr).Inverse().Less(bit.feed.value.price)
  }

  /** The bids are the first ones by price, without repetition. */
  ghost predicate FirstBids(bids: map<Position, Bid>, a: AssetId, chosen: seq<Position>) {
    forall i {:trigger chosen[i]} :: 0 <= i < |chosen| ==>
      FirstBid(bids, BidsOf(bids, a) - Members(chosen[..i]), chosen[i])
  }

  /** The best bids, all acceptable, each taken because the ones before it do not cover the supply. */
  ghost predicate Wanted(s: State, a: AssetId, chosen: seq<Position>)
    requires CanBeRevived(s, a)
  {
    && FirstBids(s.bids, a, chosen)
    && (forall k :: k in chosen ==> k in s.bids && k.1 == a && s.bids[k].price.Positive())
    && (forall i {:trigger chosen[..i]} :: 0 <= i < |chosen| ==> Offered(s.bids, chosen[..i]) < s.assets[a].supply)
    && (forall k :: k in chosen ==> s.Bit(a).settlement.value.base > 0 && Acceptable(s, a, k))
  }

  /** There are no more of them because they cover the supply, or no bid is left, or the next one is not acceptable. */
  ghost predicate Selected(s: State, a: AssetId, chosen: seq<Position>)
    requires CanBeRevived(s, a)
  {
    && Wanted(s, a, chosen)
    && (|| Offered(s.bids, chosen) >= s.assets[a].supply
        || BidsOf(s.bids, a) - Members(chosen) == {}
        || exists k :: && k in s.bids && s.bids[k].price.Positive() && s.Bit(a).settlement.value.base > 0
                       && FirstBid(s.bids, BidsOf(s.bids, a) - Members(chosen), k) && !Acceptable(s, a, k))
  }

  /** The first loop of process_bids. */
  method SelectBids(s: State, a: AssetId) returns (chosen: seq<Position>)
    requires Good(s) && CanBeRevived(s, a)
    ensures Selected(s, a, chosen)
  {
    chosen := [];
    var covered, rest := 0, BidsOf(s.bids, a);
    assert forall k :: k in rest ==> s.bids[k].price.Positive() by {
      forall k | k in rest ensures s.bids[k].price.Positive() { assert GoodBid(s, k, s.bids[k]); }
    }
    assert Wanted(s, a, chosen);
    hide Good, FirstBid, Acceptable, Wanted, Offered;
    assert Offered(s.bids, []) == 0 by { NoOffers(s.bids); }
    while covered < s.assets[a].supply && rest != {}
      invariant rest == BidsOf(s.bids, a) - Members(chosen)
      invariant Wanted(s, a, chosen)
      invariant forall k :: k in chosen ==> k in s.bids
      invariant covered == Offered(s.bids, chosen)
      decreases rest
    {
      ghost var k' := FirstBidExists(s.bids, rest);
      var k :| k in rest && FirstBid(s.bids, rest, k);
      if !Acceptable(s, a, k) {
        return;
      }
      OneMoreBid(s, a, chosen, k);
      covered := covered + s.bids[k].price.quote;
      chosen := chosen + [k];
      rest := rest - {k};
    }
  }

  lemma NoOffers(bids: map<Position, Bid>)
    ensures Offered(bids, []) == 0
  {
  }

  lemma OneMoreBid(s: State, a: AssetId, chosen: seq<Position>, k: Position)
    requires CanBeRevived(s, a) && Wanted(s, a, chosen)
    requires k in s.bids && k.1 == a && s.bids[k].price.Positive()
    requires FirstBid(s.bids, BidsOf(s.bids, a) - Members(chosen), k)
    requires Offered(s.bids, chosen) < s.assets[a].supply
    requires s.Bit(a).settlement.value.base > 0 && Acceptable(s, a, k)
    ensures var more := chosen + [k];
            && Wanted(s, a, more)
            && (forall j :: j in more ==> j in s.bids)
            && Offered(s.bids, more) == Offered(s.bids, chosen) + s.bids[k].price.quote
            && BidsOf(s.bids, a) - Members(more) == BidsOf(s.bids, a) - Members(chosen) - {k}
  {
    hide FirstBid, Acceptable;
    var more := chosen + [k];
    assert more[..|chosen|] == chosen;
    assert Offered(s.bids, more) == Offered(s.bids, chosen) + s.bids[k].price.quote;
    assert forall i :: 0 <= i < |chosen| ==> more[..i] == chosen[..i];
    hide Offered;
    assert FirstBids(s.bids, a, more) by {
      forall i | 0 <= i < |more| ensures FirstBid(s.bids, BidsOf(s.bids, a) - Members(more[..i]), more[i]) {
        if i < |chosen| { assert more[i] == chosen[i]; }
      }
    }
    hide FirstBids;
  }

  /** What each chosen bid takes: the debt it offered to cover and the fund's worth of it, and the last one the rest. */
  ghost predicate Taken(s: State, a: AssetId, chosen: seq<Position>, i: nat, debt: int, share: int)
    requires CanBeRevived(s, a) && i < |chosen| && forall k :: k in chosen ==> k in s.bids
  {
    var p, bid := s.Bit(a).settlement.value, s.bids[chosen[i]].price;
    && p.base > 0
    && if i + 1 < |chosen| then debt == bid.quote && share == p.ToQuote(bid.quote)
       else && debt == s.assets[a].supply - Offered(s.bids, chosen[..i])
            && share == s.Bit(a).fund - Shares(s.bids, chosen[..i], p)
  }

  /** What is left of the supply and of the fund after the first `i` bids. */
  ghost predicate Left(s: State, a: AssetId, chosen: seq<Position>, i: nat, toCover: nat, remaining: nat)
    requires CanBeRevived(s, a) && i <= |chosen| && forall k :: k in chosen ==> k in s.bids
  {
    var p := s.Bit(a).settlement.value;
    && remaining * p.base >= toCover * p.quote
    && if i < |chosen|
       then p.base > 0 && toCover == s.assets[a].supply - Offered(s.bids, chosen[..i])
            && remaining == s.Bit(a).fund - Shares(s.bids, chosen[..i], p)
       else toCover == 0 && remaining == 0
  }

  lemma WantedBid(s: State, a: AssetId, chosen: seq<Position>, i: nat)
    requires CanBeRevived(s, a) && Wanted(s, a, chosen) && i < |chosen|
    ensures s.Bit(a).settlement.value.base > 0
    ensures chosen[i] in s.bids && chosen[i].1 == a && s.bids[chosen[i]].price.Positive()
    ensures chosen[i] !in Members(chosen[..i])
    ensures Members(chosen[..i + 1]) == Members(chosen[..i]) + {chosen[i]}
    ensures forall k :: k in chosen ==> k in s.bids
    ensures Offered(s.bids, chosen[..i]) < s.assets[a].supply
    ensures Offered(s.bids, chosen[..i + 1]) == Offered(s.bids, chosen[..i]) + s.bids[chosen[i]].price.quote
    ensures var p := s.Bit(a).settlement.value;
            Shares(s.bids, chosen[..i + 1], p) ==
              Shares(s.bids, chosen[..i], p) + p.ToQuote(s.bids[chosen[i]].price.quote)
  {
    hide Acceptable;
    assert chosen[i] in chosen;
    assert chosen[..i + 1] == chosen[..i] + [chosen[i]];
    assert chosen[..i + 1][..i] == chosen[..i];
  }

  lemma TakeStep(s: State, a: AssetId, chosen: seq<Position>, i: nat, toCover: nat, remaining: nat)
    requires CanBeRevived(s, a) && Wanted(s, a, chosen) && i < |chosen|
    requires forall k :: k in chosen ==> k in s.bids
    requires Offered(s.bids, chosen) >= s.assets[a].supply
    requires Left(s, a, chosen, i, toCover, remaining)
    ensures var p, bid := s.Bit(a).settlement.value, s.bids[chosen[i]].price;
            && p.base > 0
            && var debt := if bid.quote >= toCover then toCover else bid.quote;
               var share := if bid.quote >= toCover then remaining else p.ToQuote(bid.quote);
               && debt > 0 && debt <= toCover && share <= remaining
               && Taken(s, a, chosen, i, debt, share)
               && Left(s, a, chosen, i + 1, toCover - debt, remaining - share)
  {
    hide Wanted;
    WantedBid(s, a, chosen, i);
    var p, bid := s.Bit(a).settlement.value, s.bids[chosen[i]].price;
    if i + 1 < |chosen| {
      WantedBid(s, a, chosen, i + 1);
      assert bid.quote < toCover;
      RestStaysCovered(remaining, toCover, bid.quote, p);
    } else {
      assert chosen[..i + 1] == chosen;
    }
  }

  /** Paying the rounded share of a part leaves enough for the rest. */
  lemma RestStaysCovered(fund: nat, supply: nat, part: nat, p: Price)
    requires p.base > 0 && fund * p.base >= supply * p.quote && part <= supply
    ensures p.ToQuote(part) <= fund
    ensures (fund - p.ToQuote(part)) * p.base >= (supply - part) * p.quote
  {
    var share := p.ToQuote(part);
    FloorBelow(part, p.quote, p.base);
    assert part * p.quote <= supply * p.quote;
    FloorWithin(part, p.quote, p.base, fund);
    assert (fund - share) * p.base == fund * p.base - share * p.base;
    assert (supply - part) * p.quote == supply * p.quote - part * p.quote;
  }

  /** The last bid takes over a part of the debt it offered to cover, with all that is left of the fund: its position is
      covered at least as well as the one that was found acceptable. */
  lemma LastBidBetterCovered(remaining: nat, toCover: nat, bid: Price, p: Price)
    requires p.base > 0 && toCover <= bid.quote && remaining * p.base >= toCover * p.quote
    ensures (bid.base + remaining) * bid.quote >= (p.ToQuote(bid.quote) + bid.base) * toCover
  {
    FloorBelow(bid.quote, p.quote, p.base);
    CrossRatio(remaining, toCover, p.ToQuote(bid.quote), bid.quote, p.quote, p.base);
    MulMonotone(toCover, bid.quote, bid.base);
    var r, q, f, b, d := remaining, bid.quote, p.ToQuote(bid.quote), bid.base, toCover;
    Distribute(b, r, q);
    Distribute(f, b, d);
  }

  lemma Distribute(x: int, y: int, z: int)
    ensures (x + y) * z == x * z + y * z
  {
  }

  /** If r / d >= n / m and f / q <= n / m then r / d >= f / q. */
  lemma CrossRatio(r: nat, d: nat, f: nat, q: nat, n: nat, m: nat)
    requires m > 0 && r * m >= d * n && f * m <= q * n
    ensures r * q >= f * d
  {
    MulMonotone(d * n, r * m, q);
    MulMonotone(f * m, q * n, d);
    Rearrange(q, r, m, d, n);
    Rearrange(d, f, m, q, n);
    CancelFactor(f * d, r * q, m);
  }

  lemma Rearrange(q: int, r: int, m: int, d: int, n: int)
    ensures q * (r * m) == (r * q) * m && q * (d * n) == d * (q * n)
  {
  }

  /** By induction over the bids before it. */
  lemma {:induction false} LeftBefore(s: State, a: AssetId, chosen: seq<Position>, i: nat)
    returns (toCover: nat, remaining: nat)
    requires CanBeRevived(s, a) && Wanted(s, a, chosen) && i <= |chosen|
    requires forall k :: k in chosen ==> k in s.bids
    requires Offered(s.bids, chosen) >= s.assets[a].supply
    requires Solvent(s.Bit(a).fund, s.assets[a].supply, s.Bit(a).settlement.value)
    ensures Left(s, a, chosen, i, toCover, remaining)
  {
    hide Wanted, Left, Offered, Acceptable, Solvent;
    if i == 0 {
      AllLeft(s, a, chosen);
      SolventSupply(s, a);
      toCover, remaining := s.assets[a].supply, s.Bit(a).fund;
    } else {
      var c, r := LeftBefore(s, a, chosen, i - 1);
      TakeStep(s, a, chosen, i - 1, c, r);
      var p, bid := s.Bit(a).settlement.value, s.bids[chosen[i - 1]].price;
      toCover := c - if bid.quote >= c then c else bid.quote;
      remaining := r - if bid.quote >= c then r else p.ToQuote(bid.quote);
    }
  }

  lemma SolventSupply(s: State, a: AssetId)
    requires CanBeRevived(s, a) && Solvent(s.Bit(a).fund, s.assets[a].supply, s.Bit(a).settlement.value)
    ensures s.assets[a].supply >= 0
  {
  }

  /** No revived position is covered less well than its bid was found to be... */
  lemma RevivedPositionIsCovered(s: State, a: AssetId, chosen: seq<Position>, i: nat, debt: nat, share: nat)
    requires CanBeRevived(s, a) && Wanted(s, a, chosen) && i < |chosen|
    requires forall k :: k in chosen ==> k in s.bids
    requires Offered(s.bids, chosen) >= s.assets[a].supply
    requires Solvent(s.Bit(a).fund, s.assets[a].supply, s.Bit(a).settlement.value)
    requires Taken(s, a, chosen, i, debt, share)
    ensures var p, bid := s.Bit(a).settlement.value, s.bids[chosen[i]].price;
            (bid.base + share) * bid.quote >= (p.ToQuote(bid.quote) + bid.base) * debt
  {
    hide Wanted, Solvent, Offered, Shares;
    var p, bid := s.Bit(a).settlement.value, s.bids[chosen[i]].price;
    if i + 1 == |chosen| {
      var toCover, remaining := LeftBefore(s, a, chosen, i);
      assert debt == toCover && share == remaining && remaining * p.base >= toCover * p.quote;
      assert toCover <= bid.quote by { LastBidCovers(s, a, chosen, toCover, remaining); }
      hide Taken, Left;
      LastBidBetterCovered(remaining, toCover, bid, p);
    } else {
      assert debt == bid.quote && bid.base + share == p.ToQuote(bid.quote) + bid.base;
      hide Taken;
    }
  }

  lemma LastBidCovers(s: State, a: AssetId, chosen: seq<Position>, toCover: nat, remaining: nat)
    requires CanBeRevived(s, a) && Wanted(s, a, chosen) && chosen != []
    requires forall k :: k in chosen ==> k in s.bids
    requires Offered(s.bids, chosen) >= s.assets[a].supply
    requires Left(s, a, chosen, |chosen| - 1, toCover, remaining)
    ensures toCover <= s.bids[chosen[|chosen| - 1]].price.quote
  {
    hide Wanted;
    WantedBid(s, a, chosen, |chosen| - 1);
    assert chosen[..|chosen|] == chosen;
  }

  /** ...which, at exact call prices, means that it is worth more than the required ratio. */
  lemma RevivedPositionIsWorthMore(s: State, a: AssetId, k: Position, debt: nat, collateral: nat)
    requires CanBeRevived(s, a) && GoodFeed(a, s.Bit(a).backing, s.Bit(a).feed.value)
    requires s.Bit(a).settlement.value.base > 0
    requires k in s.bids && s.bids[k].price.Positive() && Acceptable(s, a, k) && collateral > 0
    requires var p, bid, mcr := s.Bit(a).settlement.value, s.bids[k].price, s.Bit(a).feed.value.mcr;
             && collateral * bid.quote >= (p.ToQuote(bid.quote) + bid.base) * debt
             && Fits(bid.quote, p.ToQuote(bid.quote) + bid.base, mcr)
    ensures var feed := s.Bit(a).feed.value;
            debt * feed.mcr * feed.price.quote < collateral * 1000 * feed.price.base
  {
    hide CallPrice, Fits;
    var p, bid, feed := s.Bit(a).settlement.value, s.bids[k].price, s.Bit(a).feed.value;
    var total := p.ToQuote(bid.quote) + bid.base;
    CallPriceMeaning(bid.quote, total, feed.mcr, feed.price);
    StillAbove(bid.quote, total, debt, collateral, feed.mcr, feed.price.quote, feed.price.base);
  }

  lemma StillAbove(quote: nat, total: nat, debt: nat, collateral: nat, mcr: nat, fq: nat, fb: nat)
    requires total > 0 && collateral > 0
    requires quote * mcr * fq < total * 1000 * fb && collateral * quote >= total * debt
    ensures debt * mcr * fq < collateral * 1000 * fb
  {
    var x, y := mcr * fq, 1000 * fb;
    Regroup(quote, mcr, fq);
    Regroup(debt, mcr, fq);
    Regroup(total, 1000, fb);
    Regroup(collateral, 1000, fb);
    calc {
      (debt * x) * total;
      { Regroup(total, debt, x); }
      x * (total * debt);
    <= { MulMonotone(total * debt, collateral * quote, x); }
      x * (collateral * quote);
      { Regroup(collateral, quote, x); }
      (quote * x) * collateral;
    <  { Scale(quote * x, total * y, collateral); }
      (total * y) * collateral;
      { Rearrange(total, collateral, y, 0, 0); }
      (collateral * y) * total;
    }
    Scale(debt * x, collateral * y, total);
  }

  lemma Regroup(x: int, y: int, z: int)
    ensures x * y * z == x * (y * z) && x * (y * z) == (y * z) * x
  {
  }

  ghost predicate Positioned(s: State, calls: map<Position, CallOrder>, a: AssetId, chosen: seq<Position>, n: nat)
    requires CanBeRevived(s, a) && n <= |chosen| && forall k :: k in chosen ==> k in s.bids
  {
    forall i {:trigger chosen[i]} :: 0 <= i < n ==>
      && chosen[i] in calls
      && Taken(s, a, chosen, i, calls[chosen[i]].debt, calls[chosen[i]].collateral - s.bids[chosen[i]].price.base)
      && Priced(s, a, calls[chosen[i]]) && calls[chosen[i]].collateral >= s.bids[chosen[i]].price.base
  }

  /** A new position with the call price for its amounts. */
  ghost predicate Priced(s: State, a: AssetId, c: CallOrder)
    requires CanBeRevived(s, a)
  {
    && c.debt > 0 && c.collateral > 0
    && c.callPrice == CallPrice(c.debt, a, c.collateral, s.Bit(a).backing, s.Bit(a).feed.value.mcr)
  }

  lemma PositionedStep(s: State, calls: map<Position, CallOrder>, a: AssetId, chosen: seq<Position>, n: nat,
                       c: CallOrder)
    requires CanBeRevived(s, a) && n < |chosen| && forall k :: k in chosen ==> k in s.bids
    requires Positioned(s, calls, a, chosen, n) && chosen[n] !in Members(chosen[..n])
    requires Taken(s, a, chosen, n, c.debt, c.collateral - s.bids[chosen[n]].price.base)
    requires Priced(s, a, c) && c.collateral >= s.bids[chosen[n]].price.base
    ensures Positioned(s, calls[chosen[n] := c], a, chosen, n + 1)
  {
    hide Taken, Priced;
    forall i | 0 <= i < n ensures chosen[i] != chosen[n] {
      assert chosen[..n][i] == chosen[i];
    }
  }

  /** The second loop of process_bids: the chosen bids take over the supply and the fund, to the last unit of both. */
  method ExecuteBids(e: Engine, a: AssetId, chosen: seq<Position>)
    requires Inv(e.Snapshot()) && CanBeRevived(e.Snapshot(), a) && Wanted(e.Snapshot(), a, chosen)
    requires forall k :: k in chosen ==> k in e.bids
    requires Offered(e.bids, chosen) >= e.assets[a].supply
    modifies e`calls, e`bids, e`nextId
    ensures var s := old(e.Snapshot());
            && Executing(s, e.Snapshot(), a, Members(chosen), s.assets[a].supply, s.Bit(a).fund)
            && Positioned(s, e.calls, a, chosen, |chosen|)
  {
    hide Good, LifeCycle, Uncrossed, Collateralized, Executing, Wanted, CallPrice, Offered, Shares, Taken, Left;
    ghost var s := e.Snapshot();
    NothingExecuted(s, a);
    var bit := e.assets[a].bit.value;
    var toCover: int, remaining: int := e.assets[a].supply, bit.fund;
    assert Left(s, a, chosen, 0, toCover, remaining) by { AllLeft(s, a, chosen); }
    var i := 0;
    assert Members(chosen[..0]) == {};
    while i < |chosen|
      invariant 0 <= i <= |chosen| && toCover >= 0 && remaining >= 0 && e.assets == s.assets
      invariant Left(s, a, chosen, i, toCover, remaining)
      invariant Executing(s, e.Snapshot(), a, Members(chosen[..i]), s.assets[a].supply - toCover, bit.fund - remaining)
      invariant Positioned(s, e.calls, a, chosen, i)
      modifies e`calls, e`bids, e`nextId
    {
      var k := chosen[i];
      WantedBid(s, a, chosen, i);
      TakeStep(s, a, chosen, i, toCover, remaining);
      BidStillThere(s, e.Snapshot(), a, Members(chosen[..i]), s.assets[a].supply - toCover, bit.fund - remaining, k);
      var bid := e.bids[k].price;
      var debt, share := bid.quote, bit.settlement.value.ToQuote(bid.quote);
      if bid.quote >= toCover {
        debt, share := toCover, remaining;
      }
      toCover, remaining := toCover - debt, remaining - share;
      ExecuteStep(s, e.Snapshot(), a, Members(chosen[..i]), s.assets[a].supply - toCover - debt,
                  bit.fund - remaining - share, k, bid.base, debt, share);
      ghost var calls := e.calls;
      Execute(e, k, bid.base, debt, share);
      PositionedStep(s, calls, a, chosen, i, e.calls[k]);
      i := i + 1;
    }
    assert chosen[..i] == chosen;
    assert toCover == 0 && remaining == 0 by { NothingLeft(s, a, chosen, toCover, remaining); }
  }

  lemma AllLeft(s: State, a: AssetId, chosen: seq<Position>)
    requires CanBeRevived(s, a) && Wanted(s, a, chosen) && forall k :: k in chosen ==> k in s.bids
    requires Offered(s.bids, chosen) >= s.assets[a].supply
    requires Solvent(s.Bit(a).fund, s.assets[a].supply, s.Bit(a).settlement.value)
    ensures Left(s, a, chosen, 0, s.assets[a].supply, s.Bit(a).fund)
  {
    if chosen != [] {
      assert chosen[0] in chosen;
      assert chosen[..0] == [];
    }
  }

  lemma NothingLeft(s: State, a: AssetId, chosen: seq<Position>, toCover: nat, remaining: nat)
    requires CanBeRevived(s, a) && forall k :: k in chosen ==> k in s.bids
    requires Left(s, a, chosen, |chosen|, toCover, remaining)
    ensures toCover == 0 && remaining == 0
  {
  }

  lemma BidStillThere(s0: State, s: State, a: AssetId, done: set<Position>, covered: int, paid: int, k: Position)
    requires Executing(s0, s, a, done, covered, paid) && k in s0.bids && k !in done && k.1 == a && Good(s0)
    ensures k in s.bids && s.bids[k] == s0.bids[k] && s.bids[k].price.baseId == s0.Bit(a).backing
  {
    assert GoodBid(s0, k, s0.bids[k]);
  }

  /** The outcome of a revival by bids. */
  ghost predicate RevivedByBids(s: State, t: State, a: AssetId, chosen: seq<Position>)
    requires CanBeRevived(s, a) && forall k :: k in chosen ==> k in s.bids
  {
    && t.IsBitasset(a) && t.Bit(a) == s.Bit(a).(settlement := None, fund := 0)
    && t.assets == s.assets[a := s.assets[a].(bit := t.assets[a].bit)]
    && t.limits == s.limits && t.settles == s.settles
    && t.bids == (map k | k in s.bids && k.1 != a :: s.bids[k])
    && t.calls.Keys == s.calls.Keys + Members(chosen)
    && (forall k :: k in s.calls ==> t.calls[k] == s.calls[k])
    && Positioned(s, t.calls, a, chosen, |chosen|)
    && forall who: AccountId, x: AssetId {:trigger t.Balance(who, x)} ::
         t.Balance(who, x) == s.Balance(who, x) + if (who, a) in chosen then 0 else RefundTo(s, t.bids, a, who, x)
  }

  /** A revived position is not up for a margin call: its call price is below the feed. The last one may have taken less
      than it bid for; that one has to be safe on its own. */
  lemma RevivedPositionIsNotCalled(s: State, t: State, a: AssetId, chosen: seq<Position>, i: nat)
    requires CanBeRevived(s, a) && GoodFeed(a, s.Bit(a).backing, s.Bit(a).feed.value) && Wanted(s, a, chosen)
             && i < |chosen|
    requires forall k :: k in chosen ==> k in s.bids
    requires Offered(s.bids, chosen) >= s.assets[a].supply
    requires Solvent(s.Bit(a).fund, s.assets[a].supply, s.Bit(a).settlement.value)
    requires RevivedByBids(s, t, a, chosen)
    requires i + 1 == |chosen| ==> LastIsSafe(s, a, chosen[i], t.calls[chosen[i]])
    ensures t.calls[chosen[i]].callPrice.Inverse().Less(s.Bit(a).feed.value.price)
  {
    hide RevivedByBids, Positioned, Wanted, Solvent, Offered, Shares, CallPrice, Fits, Taken, Priced, Acceptable;
    RevivedFacts(s, t, a, chosen, i);
    var k, c := chosen[i], t.calls[chosen[i]];
    if i + 1 == |chosen| {
      if ExactCallPrices(s, a, k, c) {
        RevivedPositionIsCovered(s, a, chosen, i, c.debt, c.collateral - s.bids[k].price.base);
        LastIsNotCalled(s, a, k, c);
      } else {
        PricedTest(s, a, c);
      }
    } else {
      OthersAreNotCalled(s, a, chosen, i, c);
    }
  }

  lemma RevivedFacts(s: State, t: State, a: AssetId, chosen: seq<Position>, i: nat)
    requires CanBeRevived(s, a) && Wanted(s, a, chosen) && i < |chosen|
    requires (forall k :: k in chosen ==> k in s.bids) && RevivedByBids(s, t, a, chosen)
    ensures chosen[i] in t.calls && s.bids[chosen[i]].price.Positive() && s.Bit(a).settlement.value.base > 0
    ensures var c, bid := t.calls[chosen[i]], s.bids[chosen[i]].price;
            && c.collateral >= bid.base && Taken(s, a, chosen, i, c.debt, c.collateral - bid.base) && Priced(s, a, c)
    ensures Acceptable(s, a, chosen[i])
  {
    hide Taken, Priced, Acceptable, Offered;
  }

  lemma OthersAreNotCalled(s: State, a: AssetId, chosen: seq<Position>, i: nat, c: CallOrder)
    requires CanBeRevived(s, a) && i + 1 < |chosen| && (forall k :: k in chosen ==> k in s.bids) && Priced(s, a, c)
    requires s.bids[chosen[i]].price.Positive() && s.Bit(a).settlement.value.base > 0 && Acceptable(s, a, chosen[i])
    requires Taken(s, a, chosen, i, c.debt, c.collateral - s.bids[chosen[i]].price.base)
    ensures c.callPrice.Inverse().Less(s.Bit(a).feed.value.price)
  {
    hide CallPrice;
  }

  lemma LastIsNotCalled(s: State, a: AssetId, k: Position, c: CallOrder)
    requires CanBeRevived(s, a) && GoodFeed(a, s.Bit(a).backing, s.Bit(a).feed.value) && k in s.bids
    requires s.bids[k].price.Positive() && s.Bit(a).settlement.value.base > 0 && Acceptable(s, a, k)
    requires Priced(s, a, c) && ExactCallPrices(s, a, k, c)
    requires var p, bid := s.Bit(a).settlement.value, s.bids[k].price;
             c.collateral * bid.quote >= (p.ToQuote(bid.quote) + bid.base) * c.debt
    ensures c.callPrice.Inverse().Less(s.Bit(a).feed.value.price)
  {
    hide CallPrice, Fits, Acceptable;
    var feed := s.Bit(a).feed.value;
    RevivedPositionIsWorthMore(s, a, k, c.debt, c.collateral);
    CallPriceMeaning(c.debt, c.collateral, feed.mcr, feed.price);
  }

  /** The call price found for the bid, and the one of the position it became, need no halving. */
  predicate ExactCallPrices(s: State, a: AssetId, k: Position, c: CallOrder)
    requires CanBeRevived(s, a) && k in s.bids
  {
    var p, bid, mcr := s.Bit(a).settlement.value, s.bids[k].price, s.Bit(a).feed.value.mcr;
    && p.base > 0 && bid.Positive() && c.debt > 0 && c.collateral > 0
    && Fits(bid.quote, p.ToQuote(bid.quote) + bid.base, mcr) && Fits(c.debt, c.collateral, mcr)
  }

  /** When a position is up for a margin call or not: if its call price needs no halving, it is not exactly when its
      collateral is worth more than the required ratio of its debt; with halving, if there is a clear difference. */
  lemma WhenLastIsNotCalled(s: State, t: State, a: AssetId, chosen: seq<Position>)
    requires CanBeRevived(s, a) && GoodFeed(a, s.Bit(a).backing, s.Bit(a).feed.value) && chosen != []
    requires (forall k :: k in chosen ==> k in s.bids) && RevivedByBids(s, t, a, chosen)
    requires var c := t.calls[chosen[|chosen| - 1]]; c.debt > 0 && c.collateral > 0
    ensures var c, feed := t.calls[chosen[|chosen| - 1]], s.Bit(a).feed.value;
            CallTest(c.debt, c.collateral, feed, c.callPrice.Inverse().Less(feed.price))
  {
    var c, feed := t.calls[chosen[|chosen| - 1]], s.Bit(a).feed.value;
    assert Priced(s, a, c);
    hide RevivedByBids, CallPrice;
    PricedTest(s, a, c);
  }

  lemma PricedTest(s: State, a: AssetId, c: CallOrder)
    requires CanBeRevived(s, a) && GoodFeed(a, s.Bit(a).backing, s.Bit(a).feed.value)
    requires c.debt > 0 && c.collateral > 0 && Priced(s, a, c)
    ensures var feed := s.Bit(a).feed.value; CallTest(c.debt, c.collateral, feed,
              c.callPrice.Inverse().Less(feed.price))
  {
    CallPriceTests(c.debt, c.collateral, s.Bit(a).feed.value);
    hide CallPrice, CallTest;
  }

  /** The last position is safe from margin calls: either its call price and that of its bid are exact, or its
      collateral is worth clearly more than the required ratio of its debt. */
  predicate LastIsSafe(s: State, a: AssetId, k: Position, c: CallOrder)
    requires CanBeRevived(s, a) && k in s.bids
  {
    var feed := s.Bit(a).feed.value;
    || ExactCallPrices(s, a, k, c)
    || (&& c.debt > 0 && c.collateral > 0
        && ClearlyLess(c.debt * feed.mcr, feed.price.quote, c.collateral * 1000, feed.price.base))
  }

  /** So right after a revival by bids no margin call can be executed. */
  lemma NothingCalledAfterRevival(s: State, t: State, a: AssetId, chosen: seq<Position>)
    requires Inv(s) && CanBeRevived(s, a) && Wanted(s, a, chosen) && forall k :: k in chosen ==> k in s.bids
    requires Offered(s.bids, chosen) >= s.assets[a].supply && RevivedByBids(s, t, a, chosen)
    requires chosen != [] ==> var k := chosen[|chosen| - 1]; LastIsSafe(s, a, k, t.calls[k])
    ensures !Callable(t, a)
  {
    hide Wanted, Offered, LastIsSafe, ExactCallPrices, Fits, CallPrice;
    assert LifeCycleOf(s, a) && GoodAsset(s, a, s.assets[a]);
    forall k | k in t.calls && k.1 == a ensures t.calls[k].callPrice.Inverse().Less(s.Bit(a).feed.value.price) {
      assert k in chosen by { assert k in s.calls ==> k in CallsOf(s.calls, a); }
      var i :| 0 <= i < |chosen| && chosen[i] == k;
      RevivedPositionIsNotCalled(s, t, a, chosen, i);
    }
  }

  const M: nat := 20_000_000_000_000

  /** A bid for 7 units more than the supply, of 160 trillion, on an asset that has just been settled; and an offer
      at the price of the feed. */
  function CloseBid(): State {
    var bit := Bitasset(CORE, Some(Feed(Price(2, 1, 1, CORE), 1750, 2000)), Some(Price(8 * M, 1, 7 * M - 1, CORE)),
                        7 * M - 1, 0, 2000, 0, false);
    State(map[(7, 1) := 8 * M - 2], map[0 := LimitOrder(7, 2, Price(2, 1, 1, CORE), 0)], map[], map[],
          map[(9, 1) := Bid(1, Price(1, CORE, 8 * M + 7, 1))],
          map[CORE := Asset(0, 7 * M, 0, 0, 0, None), 1 := Asset(5, 8 * M, 0, 0, 0, Some(bit))], map[], 2)
  }

  /** Its call price needs halving, which makes a call price above one smaller: it comes out just below the feed, and
      that of the position just at it. */
  lemma CloseCallPrices()
    ensures Price(8 * M, 1, 7 * M - 1, CORE).ToQuote(8 * M + 7) + 1 == 7 * M + 6
    ensures CallPrice(8 * M + 7, 1, 7 * M + 6, CORE, 1750).Inverse().Less(Price(2, 1, 1, CORE))
    ensures CallPrice(8 * M, 1, 7 * M, CORE, 1750) == Price(1, CORE, 2, 1)
  {
    var n, d := (8 * M + 7) * 1750, (7 * M + 6) * 1000;
    assert n % d == 250 && d % 250 == 0;
    assert Gcd(250, 0) == 250 && Gcd(d, 250) == 250 && Gcd(n, d) == 250;
    assert Reduced(n, d) == (56 * M + 49, 28 * M + 24);
    var n', d' := 28 * M + 25, 14 * M + 13;
    assert n' % d' == 14 * M + 12 && d' % (14 * M + 12) == 1;
    assert Gcd(1, 0) == 1 && Gcd(14 * M + 12, 1) == 1 && Gcd(d', 14 * M + 12) == 1 && Gcd(n', d') == 1;
    assert Reduced(n', d') == (n', d');
    assert Fit((56 * M + 49, 28 * M + 24)) == (n', d');
    var x, y := 8 * M * 1750, 7 * M * 1000;
    assert x % y == 0 && Gcd(y, 0) == y && Gcd(x, y) == y;
    assert Reduced(x, y) == (2, 1);
  }

  lemma CloseSqueezePrice()
    ensures SqueezePrice(Feed(Price(2, 1, 1, CORE), 1750, 2000)) == Price(1, 1, 1, CORE)
  {
    assert Gcd(2000, 0) == 2000 && Gcd(2000, 2000) == 2000;
    assert Reduced(2000, 2000) == (1, 1);
  }

  lemma CloseBidTotals()
    ensures Held(CloseBid(), 1) == 8 * M
  {
    var s := CloseBid();
    var none: map<(AccountId, AssetId), nat> := map[];
    assert s.balances == none[(7, 1) := 8 * M - 2];
    SumPut<(AccountId, AssetId), nat>(none, BalanceIn(1), (7, 1), 8 * M - 2);
    var o := s.limits[0];
    assert s.limits == map[][0 := o];
    SumPut<nat, LimitOrder>(map[], LimitIn(1), 0, o);
    SumZero(s.bids, BidIn(1));
    SumZero(s.assets, RecordIn(1));
  }

  lemma CloseBidIsGood()
    ensures Inv(CloseBid())
  {
    CloseBidTotals();
    hide Held, Debt;
    var s := CloseBid();
    assert LifeCycleOf(s, 1);
    assert forall a :: s.IsBitasset(a) ==> a == 1;
  }

  /** The bid is the one to be chosen. */
  lemma CloseBidIsChosen(chosen: seq<Position>)
    ensures CanBeRevived(CloseBid(), 1)
    ensures Selected(CloseBid(), 1, chosen) ==> chosen == [(9, 1)]
  {
    CloseBidIsAcceptable();
    hide CloseBid, Selected, Acceptable;
    if Selected(CloseBid(), 1, chosen) { OnlyBidIsChosen(CloseBid(), 1, (9, 1), chosen); }
  }

  lemma CloseBidIsAcceptable()
    ensures var s, k: Position := CloseBid(), (9, 1);
            && CanBeRevived(s, 1) && s.assets[1].supply > 0 && s.Bit(1).settlement.value.base > 0
            && BidsOf(s.bids, 1) == {k} && s.bids[k].price.Positive() && Acceptable(s, 1, k)
  {
    CloseCallPrices();
    hide CallPrice;
  }

  lemma {:induction false} OnlyBidIsChosen(s: State, a: AssetId, k: Position, chosen: seq<Position>)
    requires CanBeRevived(s, a) && s.assets[a].supply > 0 && s.Bit(a).settlement.value.base > 0
    requires BidsOf(s.bids, a) == {k} && k in s.bids && s.bids[k].price.Positive() && Acceptable(s, a, k)
    requires Selected(s, a, chosen)
    ensures chosen == [k]
  {
    hide Acceptable, Offered;
    NotNothing(s, a, k);
    if |chosen| > 1 {
      assert chosen[..1] == [chosen[0]];
      NextOfRest(s.bids, a, chosen, 0);
      NextOfRest(s.bids, a, chosen, 1);
      assert false;
    }
    if |chosen| == 1 { NextOfRest(s.bids, a, chosen, 0); }
  }

  lemma NextOfRest(bids: map<Position, Bid>, a: AssetId, chosen: seq<Position>, i: nat)
    requires FirstBids(bids, a, chosen) && i < |chosen|
    ensures chosen[i] in BidsOf(bids, a) && chosen[i] !in Members(chosen[..i])
  {
    assert FirstBid(bids, BidsOf(bids, a) - Members(chosen[..i]), chosen[i]);
  }

  lemma NotNothing(s: State, a: AssetId, k: Position)
    requires CanBeRevived(s, a) && s.assets[a].supply > 0 && s.Bit(a).settlement.value.base > 0
    requires BidsOf(s.bids, a) == {k} && k in s.bids && s.bids[k].price.Positive() && Acceptable(s, a, k)
    ensures !Selected(s, a, [])
  {
    hide Acceptable, Offered;
    NoOffers(s.bids);
    assert BidsOf(s.bids, a) - Members([]) == {k};
  }

  lemma CloseBidCovers()
    ensures (9, 1) in CloseBid().bids && Offered(CloseBid().bids, [(9, 1)]) >= CloseBid().assets[1].supply
  {
    assert [(9, 1)][..0] == [];
    var k: Position := (9, 1);
    assert Offered(CloseBid().bids, [k]) == 8 * M + 7;
  }

  /** Without that condition, a bid may be accepted whose position is up for a margin call at once. */
  lemma AcceptedBidIsCalled(t: State)
    requires CanBeRevived(CloseBid(), 1) && RevivedByBids(CloseBid(), t, 1, [(9, 1)])
    ensures Callable(t, 1)
  {
    var s, k: Position := CloseBid(), (9, 1);
    var c := t.calls[k];
    assert [k][0] == k && [k][..0] == [];
    assert Taken(s, 1, [k], 0, c.debt, c.collateral - 1) && Priced(s, 1, c);
    assert c.debt == 8 * M && c.collateral == 7 * M;
    CloseCallPrices();
    CloseSqueezePrice();
    hide CallPrice, SqueezePrice;
    assert c.callPrice == Price(1, CORE, 2, 1);
    assert forall j :: j in t.calls ==> j == k;
    assert FirstCall(t.calls, 1, k);
    assert InRange(t.limits, 1, t.Bit(1), {}) == {0};
    assert FirstLimit(t.limits, {0}, 0);
    assert Executable(t, 1, k, 0);
  }

  lemma RevivedFrom(s: State, s1: State, t: State, a: AssetId, chosen: seq<Position>)
    requires CanBeRevived(s, a) && (forall k :: k in chosen ==> k in s.bids && k.1 == a)
    requires Executing(s, s1, a, Members(chosen), s.assets[a].supply, s.Bit(a).fund)
    requires Positioned(s, s1.calls, a, chosen, |chosen|)
    requires Closed(s1, t, a)
    ensures RevivedByBids(s, t, a, chosen)
  {
    hide Good, Collateralized, ExecutedTotals, Positioned;
    forall who: AccountId, x: AssetId
      ensures t.Balance(who, x) == s.Balance(who, x) + if (who, a) in chosen then 0 else RefundTo(s, t.bids, a, who, x)
    {
      assert t.Balance(who, x) == s1.Balance(who, x) + RefundTo(s1, t.bids, a, who, x);
    }
  }

  /** A revival by bids concerns the bidders only: those chosen get a position, the others their bids back. */
  lemma RevivedByBidsHarmless(s: State, t: State, a: AssetId, chosen: seq<Position>)
    requires CanBeRevived(s, a) && (forall k :: k in chosen ==> k in s.bids) && RevivedByBids(s, t, a, chosen)
    ensures Harmless(s, t)
  {
    hide Positioned;
    forall who: AccountId ensures Spared(s, t, who) {
      assert Involved(t, who) ==> Involved(s, who) by {
        if k :| k in t.calls && k.0 == who { assert k in s.calls || k in s.bids; }
      }
      forall x: AssetId
        ensures s.Balance(who, x) <= t.Balance(who, x)
        ensures !Involved(s, who) ==> s.Balance(who, x) == t.Balance(who, x)
      {
        assert (who, a) in s.bids ==> Involved(s, who);
      }
    }
  }

  /** No bid that is left out is better than one that is chosen. */
  lemma BestBidsChosen(s: State, a: AssetId, chosen: seq<Position>)
    requires CanBeRevived(s, a) && Wanted(s, a, chosen)
    ensures forall k, j {:trigger k in chosen, j in s.bids} ::
              k in chosen && j in s.bids && j.1 == a && j !in chosen ==>
                && k in s.bids
                && s.bids[j].price.base * s.bids[k].price.quote <= s.bids[k].price.base * s.bids[j].price.quote
  {
    hide Acceptable, Offered, FirstBid;
    forall k, j | k in chosen && j in s.bids && j.1 == a && j !in chosen
      ensures k in s.bids
      ensures s.bids[j].price.base * s.bids[k].price.quote <= s.bids[k].price.base * s.bids[j].price.quote
    {
      var i :| 0 <= i < |chosen| && chosen[i] == k;
      var c := BidsOf(s.bids, a) - Members(chosen[..i]);
      assert FirstBid(s.bids, c, chosen[i]);
      assert j in c;
      FirstBidIsBest(s.bids, c, k);
    }
  }

  /** A bid is acceptable if its collateral and its share of the fund, at the feed, are worth more than the required
      ratio of the debt it offers to take over. */
  lemma AcceptableMeans(s: State, a: AssetId, k: Position)
    requires CanBeRevived(s, a) && GoodFeed(a, s.Bit(a).backing, s.Bit(a).feed.value)
    requires s.Bit(a).settlement.value.base > 0 && k in s.bids && s.bids[k].price.Positive()
    ensures var bid, p := s.bids[k].price, s.Bit(a).settlement.value;
            CallTest(bid.quote, p.ToQuote(bid.quote) + bid.base, s.Bit(a).feed.value, Acceptable(s, a, k))
  {
    var bid, p := s.bids[k].price, s.Bit(a).settlement.value;
    CallPriceTests(bid.quote, p.ToQuote(bid.quote) + bid.base, s.Bit(a).feed.value);
    hide CallPrice, CallTest;
  }

  /** process_bids. It throws when the settlement price is worth nothing; otherwise the asset is revived if and only if
      the best bids cover its supply. The checks that the fund and the supply come out even never fail. */
  method ProcessBids(e: Engine, a: AssetId) returns (ok: bool, revived: bool, chosen: seq<Position>)
    requires Inv(e.Snapshot()) && e.Snapshot().IsBitasset(a) && e.Snapshot().Bit(a).settlement.Some?
    modifies e`balances, e`calls, e`bids, e`assets, e`nextId
    ensures var bit := old(e.Snapshot()).Bit(a);
            && (ok <==> bit.prediction || bit.feed.None? || bit.settlement.value.quote > 0)
            && (!ok || bit.prediction || bit.feed.None? ==> !revived)
    ensures !revived ==> e.Snapshot() == old(e.Snapshot())
    ensures Inv(e.Snapshot()) && Conserved(old(e.Snapshot()), e.Snapshot())
    ensures var s := old(e.Snapshot());
            ok && !s.Bit(a).prediction && s.Bit(a).feed.Some? ==>
              && CanBeRevived(s, a) && Selected(s, a, chosen)
              && (revived <==> Offered(s.bids, chosen) >= s.assets[a].supply)
              && (revived ==> RevivedByBids(s, e.Snapshot(), a, chosen))
    ensures Harmless(old(e.Snapshot()), e.Snapshot())
  {
    ghost var s := e.Snapshot();
    hide Good, LifeCycle, Uncrossed, Collateralized, Conserved, Executing, Wanted, Offered, RevivedByBids, Closed,
         FundTaken, Positioned, Acceptable, FirstBid, Harmless;
    ConservedRefl(s);
    HarmlessRefl(s);
    var bit := e.assets[a].bit.value;
    if bit.prediction || bit.feed.None? {
      return true, false, [];
    }
    if bit.settlement.value.quote == 0 {
      return false, false, [];
    }
    NothingExecuted(s, a);
    chosen := SelectBids(e.Snapshot(), a);
    assert forall k :: k in chosen ==> k in s.bids && k.1 == a by { WantedMembers(s, a, chosen); }
    var covered := Offered(e.bids, chosen);
    if covered < e.assets[a].supply {
      return true, false, chosen;
    }
    ExecuteBids(e, a, chosen);
    ghost var s1 := e.Snapshot();
    assert Good(s1) && s1.assets == s.assets by { ExecutingGood(s, s1, a, chosen); }
    CancelBidsAndRevive(e, a);
    NewLife(s, s1, e.Snapshot(), a, Members(chosen));
    RevivedFrom(s, s1, e.Snapshot(), a, chosen);
    RevivedByBidsHarmless(s, e.Snapshot(), a, chosen);
    return true, true, chosen;
  }

  /** An asset that was settled for nothing: there is no collateral behind its supply. */
  function Worthless(feed: Feed): State {
    var bit := Bitasset(CORE, Some(feed), Some(Price(3, 1, 0, CORE)), 0, 0, 2000, 0, false);
    State(map[(7, 1) := 3], map[], map[], map[], map[],
          map[CORE := Asset(0, 3, 0, 0, 0, None), 1 := Asset(5, 3, 0, 0, 0, Some(bit))], map[], 0)
  }

  /** Processing the bids on it throws, whatever they are, and its issuer cannot revive it. */
  lemma WorthlessIsStuck(feed: Feed)
    requires GoodFeed(1, CORE, feed)
    ensures Inv(Worthless(feed)) && !MayRevive(Worthless(feed), 1)
    ensures var bit := Worthless(feed).Bit(1); !bit.prediction && bit.feed.Some? && bit.settlement.value.quote == 0
  {
    var s := Worthless(feed);
    SumZero(s.assets, RecordIn(1));
    var none: map<(AccountId, AssetId), nat> := map[];
    assert s.balances == none[(7, 1) := 3];
    SumPut<(AccountId, AssetId), nat>(none, BalanceIn(1), (7, 1), 3);
    assert Held(s, 1) == 3;
    hide SumBy;
    assert LifeCycleOf(s, 1);
    assert forall a :: s.IsBitasset(a) ==> a == 1;
  }

  /** Processing the close bid revives the asset, and leaves a position that is up for a margin call. */
  method ProcessCloseBid(e: Engine)
    requires e.Snapshot() == CloseBid()
    modifies e
    ensures Inv(e.Snapshot()) && Unsettled(e.Snapshot(), 1) && Callable(e.Snapshot(), 1)
  {
    CloseBidIsGood();
    hide Selected, RevivedByBids, Callable, Conserved, Inv, Offered;
    CloseBidIsChosen([]);
    CloseBidCovers();
    var _, _, chosen := ProcessBids(e, 1);
    CloseBidIsChosen(chosen);
    AcceptedBidIsCalled(e.Snapshot());
    assert Unsettled(e.Snapshot(), 1) by { RevivedIsUnsettled(CloseBid(), e.Snapshot(), 1, chosen); }
  }

  lemma RevivedIsUnsettled(s: State, t: State, a: AssetId, chosen: seq<Position>)
    requires CanBeRevived(s, a) && (forall k :: k in chosen ==> k in s.bids) && RevivedByBids(s, t, a, chosen)
    ensures Unsettled(t, a)
  {
  }

  lemma WantedMembers(s: State, a: AssetId, chosen: seq<Position>)
    requires CanBeRevived(s, a) && Wanted(s, a, chosen)
    ensures forall k :: k in chosen ==> k in s.bids && k.1 == a
  {
  }

  lemma ExecutingGood(s: State, s1: State, a: AssetId, chosen: seq<Position>)
    requires s.IsBitasset(a) && Executing(s, s1, a, Members(chosen), s.assets[a].supply, s.Bit(a).fund)
    ensures Good(s1) && s1.assets == s.assets
  {
    hide Good;
  }

  // --------------------------------------------------------------------------------------------------------------
  // A new price feed.

  predicate MayPublish(s: State, a: AssetId, feed: Option<Feed>) {
    && s.IsBitasset(a) && (s.Bit(a).settlement.Some? ==> !s.Bit(a).prediction)
    && (feed.Some? ==> GoodFeed(a, s.Bit(a).backing, feed.value))
  }

  function Fed(s: State, a: AssetId, feed: Option<Feed>): State
    requires s.IsBitasset(a)
  {
    SetBit(s, a, s.Bit(a).(feed := feed))
  }

  lemma FedKeeps(s: State, a: AssetId, feed: Option<Feed>)
    requires Inv(s) && MayPublish(s, a, feed)
    ensures var t := Fed(s, a, feed);
            && Inv(t) && Conserved(s, t) && t.limits == s.limits
            && t.IsBitasset(a) && t.Bit(a) == s.Bit(a).(feed := feed) && t.assets[a].supply == s.assets[a].supply
  {
    hide Good, Held, Debt, Uncrossed;
    var t := Fed(s, a, feed);
    forall x: AssetId
      ensures Held(t, x) == Held(s, x) && t.Supply(x) == s.Supply(x) && Debt(t, x) == Debt(s, x)
    {
      SetBitTotals(s, a, s.Bit(a).(feed := feed), x);
      SameCallsSameDebt(s, t, x);
    }
    assert LifeCycleOf(t, a) by {
      assert s.IsBitasset(a) && LifeCycleOf(s, a);
      assert Held(t, a) == Held(s, a);
    }
    LifeCycleBut(s, t, a);
    GoodAssetOf(s, a);
    GoodBidsOf(s, a);
    GoodNewRecord(s, t, a);
  }

  lemma FedHarmless(s: State, t: State, issuer: AccountId)
    requires t == s.(assets := t.assets) && SameIssuers(s, t)
    ensures HarmlessBut(s, t, issuer)
  {
    NobodyPaid(s, t);
  }

  /** The fund is enough if, at the feed, it is worth more than the required ratio of the supply. */
  lemma FundIsEnoughMeans(s: State, a: AssetId)
    requires s.IsBitasset(a) && s.Bit(a).feed.Some? && GoodFeed(a, s.Bit(a).backing, s.Bit(a).feed.value)
    ensures s.assets[a].supply > 0 && s.Bit(a).fund > 0 ==>
              CallTest(s.assets[a].supply, s.Bit(a).fund, s.Bit(a).feed.value, FundIsEnough(s, a))
    ensures s.assets[a].supply == 0 ==> FundIsEnough(s, a)
    ensures s.assets[a].supply > 0 && s.Bit(a).fund == 0 ==> !FundIsEnough(s, a)
  {
    if s.assets[a].supply > 0 && s.Bit(a).fund > 0 {
      CallPriceTests(s.assets[a].supply, s.Bit(a).fund, s.Bit(a).feed.value);
      hide CallPrice, CallTest;
    }
  }

  /** The fund covers the supply well enough at the feed, or there is no supply. */
  predicate FundIsEnough(s: State, a: AssetId)
    requires s.IsBitasset(a) && s.Bit(a).feed.Some? && s.Bit(a).feed.value.mcr > 0
  {
    var supply, bit := s.assets[a].supply, s.Bit(a);
    supply == 0
    || (supply > 0 && bit.fund > 0
        && CallPrice(supply, a, bit.fund, bit.backing, bit.feed.value.mcr).Inverse().Less(bit.feed.value.price))
  }

  /** A settled asset with a supply but nothing in the fund cannot get a feed: its call price is not defined. */
  predicate FeedAccepted(s: State, a: AssetId)
    requires s.IsBitasset(a) && s.Bit(a).feed.Some? && s.Bit(a).feed.value.mcr > 0
  {
    (s.assets[a].supply > 0 ==> s.Bit(a).fund > 0) && (FundIsEnough(s, a) ==> MayRevive(s, a))
  }

  /** asset_publish_feed, once the median feed is known: a changed feed revives a settled asset whose fund is enough for
      it, and then margin calls are executed. */
  method PublishFeed(e: Engine, a: AssetId, feed: Option<Feed>) returns (ok: bool)
    requires Inv(e.Snapshot())
    modifies e
    ensures !ok ==> e.Snapshot() == old(e.Snapshot())
    ensures ok ==> Inv(e.Snapshot()) && Conserved(old(e.Snapshot()), e.Snapshot())
    ensures var s := old(e.Snapshot());
            ok <==> && s.IsBitasset(a) && (s.Bit(a).prediction ==> s.Bit(a).settlement.None?)
                    && (feed.Some? ==> GoodFeed(a, s.Bit(a).backing, feed.value))
                    && (feed == s.Bit(a).feed || s.Bit(a).settlement.None? || feed.None?
                        || FeedAccepted(Fed(s, a, feed), a))
    ensures ok ==> Published(old(e.Snapshot()), e.Snapshot(), a, feed)
    ensures ok ==> HarmlessBut(old(e.Snapshot()), e.Snapshot(), old(e.assets)[a].issuer)
  {
    hide HarmlessBut, Good, LifeCycle, Uncrossed, Collateralized, Conserved, FundIsEnough, SameKinds, Harmless,
         RevivedByIssuer, BlackSwan, Callable, CallsMade, LimitsShrink;
    var s := e.Snapshot();
    if !MayPublish(s, a, feed) {
      return false;
    }
    var bit := e.assets[a].bit.value;
    ghost var issuer := e.assets[a].issuer;
    if bit.feed == feed {
      ConservedRefl(s);
      FedHarmless(s, s, issuer);
      return true;
    }
    FedKeeps(s, a, feed);
    FedHarmless(s, Fed(s, a, feed), issuer);
    e.assets := e.assets[a := e.assets[a].(bit := Some(bit.(feed := feed)))];
    ghost var fed := e.Snapshot();
    assert fed == Fed(s, a, feed);
    if bit.settlement.Some? && feed.Some? {
      if e.assets[a].supply > 0 && bit.fund == 0 {
        e.PutBack(s);
        return false;
      }
      if FundIsEnough(e.Snapshot(), a) {
        ok := ReviveBitasset(e, a);
        if !ok {
          e.PutBack(s);
          return;
        }
        ConservedTrans(s, fed, e.Snapshot());
        HarmlessButTrans(s, fed, e.Snapshot(), issuer);
      }
    }
    ghost var u := e.Snapshot();
    var _, _, _ := e.CheckCallOrders(a, true);
    HarmlessToOthers(u, e.Snapshot(), issuer);
    HarmlessButTrans(s, u, e.Snapshot(), issuer);
    ConservedTrans(s, u, e.Snapshot());
    UncrossedShrinks(u.limits, e.limits);
    assert RevivalOf(fed, u, a);
    return true;
  }

  /** The asset is revived if it is settled and its fund is enough; otherwise nothing changes. */
  ghost predicate RevivalOf(s: State, t: State, a: AssetId)
    requires s.IsBitasset(a) && (s.Bit(a).feed.Some? ==> s.Bit(a).feed.value.mcr > 0)
  {
    if s.Bit(a).settlement.Some? && s.Bit(a).feed.Some? && FundIsEnough(s, a)
    then RevivedByIssuer(s, t, a)
    else t == s
  }

  ghost predicate Published(s: State, t: State, a: AssetId, feed: Option<Feed>)
    requires s.IsBitasset(a) && (feed.Some? ==> feed.value.mcr > 0)
  {
    if feed == s.Bit(a).feed then t == s
    else exists u :: && Kept(u, t) && RevivalOf(Fed(s, a, feed), u, a)
                     && if Unsettled(u, a) then exists passed :: CallsMade(u, t, a, passed) else t == u
  }
}
