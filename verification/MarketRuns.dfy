/** Whole runs of the market: whatever operations are tried, in whatever order, the invariant holds and nothing is
    created or destroyed. */
module MarketRuns {
  import opened Common
  import opened MarketState
  import opened MarketFills
  import opened MarketInvariant
  import opened MarketSwan
  import opened Market
  import opened MarketOperations
  import opened MarketBids
  import opened MarketForced

  datatype Step =
    | CreateLimit(order: LimitOrder, fillOrKill: bool)
    | CancelLimit(who: AccountId, id: nat)
    | Borrow(position: Position, collateral: int, debt: int)
    | Settle(who: AccountId, a: AssetId, amount: nat, date: nat, forceable: bool)
    | GlobalSettle(who: AccountId, a: AssetId, price: Price, allowed: bool)
    | PlaceBid(position: Position, amount: nat, covers: nat)
    | Publish(a: AssetId, feed: Option<Feed>)
    | TryRevival(a: AssetId)
    | ClearExpired(now: nat)
  {
    /** The account acts: it places or cancels, borrows, settles or bids. A new feed may give a position to the
        issuer of the asset. */
    predicate ActedBy(s: State, who: AccountId) {
      match this
      case CreateLimit(order, _) => order.seller == who
      case CancelLimit(seller, _) => seller == who
      case Borrow(position, _, _) => position.0 == who
      case Settle(holder, _, _, _, _) => holder == who
      case GlobalSettle(issuer, _, _, _) => issuer == who
      case PlaceBid(position, _, _) => position.0 == who
      case Publish(a, _) => a in s.assets && s.assets[a].issuer == who
      case TryRevival(_) => false
      case ClearExpired(_) => false
    }
  }

  /** Nobody but whoever acts is concerned, unless they have an order, a position or a bid. */
  ghost predicate OthersSpared(s: State, t: State, step: Step) {
    SameIssuers(s, t) && forall who: AccountId {:trigger Spared(s, t, who)} :: step.ActedBy(s, who) || Spared(s, t, who)
  }

  lemma SparedByAll(s: State, t: State, step: Step, actor: AccountId)
    ensures Harmless(s, t) ==> OthersSpared(s, t, step)
    ensures HarmlessBut(s, t, actor) && step.ActedBy(s, actor) ==> OthersSpared(s, t, step)
  {
    hide Spared;
  }

  /** Placing and cancelling limit orders, and changing positions. */
  method PerformTrade(e: Engine, step: Step)
    requires Inv(e.Snapshot()) && (step.CreateLimit? || step.CancelLimit? || step.Borrow?)
    modifies e
    ensures Inv(e.Snapshot()) && Conserved(old(e.Snapshot()), e.Snapshot())
    ensures OthersSpared(old(e.Snapshot()), e.Snapshot(), step)
  {
    ghost var s := e.Snapshot();
    HarmlessRefl(s);
    SparedByAll(s, s, step, 0);
    hide Inv, Conserved, MayCreate, UpdateOutcome, Placed, LimitsShrink, MayUpdate, Harmless, HarmlessBut, OthersSpared,
         Kept, Idle;
    ConservedRefl(e.Snapshot());
    match step
    case CreateLimit(order, fillOrKill) =>
      var _ := CreateLimitOrder(e, order, fillOrKill);
      SparedByAll(s, e.Snapshot(), step, order.seller);
    case CancelLimit(who, id) =>
      var _ := CancelOrder(e, who, id);
      SparedByAll(s, e.Snapshot(), step, who);
    case Borrow(position, collateral, debt) =>
      var _ := UpdateCallOrder(e, position, collateral, debt);
      SparedByAll(s, e.Snapshot(), step, position.0);
  }

  method Perform(e: Engine, step: Step)
    requires Inv(e.Snapshot())
    modifies e
    ensures Inv(e.Snapshot()) && Conserved(old(e.Snapshot()), e.Snapshot())
    ensures OthersSpared(old(e.Snapshot()), e.Snapshot(), step)
  {
    ghost var s := e.Snapshot();
    HarmlessRefl(s);
    SparedByAll(s, s, step, 0);
    hide Inv, Conserved, MaySettle, MaySettleGlobally, MayBid, Passes, AllWait, Reached, Selected, RevivedByBids,
         GloballySettled, Redeemed, SettleRequested, Published, MayPublish, FeedAccepted, Harmless, HarmlessBut,
         OthersSpared, PaidFromFund, Credited, BidHeld, BidPlaced, Offered, Fed, CanBeRevived, AllPayInFull,
         LeastCoveredPays;
    ConservedRefl(e.Snapshot());
    if step.CreateLimit? || step.CancelLimit? || step.Borrow? {
      PerformTrade(e, step);
      return;
    }
    match step
    case Settle(who, a, amount, date, forceable) =>
      var _ := SettleAsset(e, who, a, amount, date, forceable);
      SparedByAll(s, e.Snapshot(), step, who);
    case GlobalSettle(who, a, price, allowed) =>
      var _ := SettleGlobally(e, who, a, price, allowed);
      SparedByAll(s, e.Snapshot(), step, who);
    case PlaceBid(position, amount, covers) =>
      var _ := BidCollateral(e, position, amount, covers);
      SparedByAll(s, e.Snapshot(), step, position.0);
    case Publish(a, feed) =>
      var ok := PublishFeed(e, a, feed);
      assert ok ==> a in s.assets by { PublishedAsset(s, a, feed); }
      SparedByAll(s, e.Snapshot(), step, if a in s.assets then s.assets[a].issuer else 0);
    case TryRevival(a) =>
      if e.Snapshot().IsBitasset(a) && e.Snapshot().Bit(a).settlement.Some? {
        var _, _, _ := ProcessBids(e, a);
        SparedByAll(s, e.Snapshot(), step, 0);
      }
    case ClearExpired(now) =>
      ghost var _ := ClearSettlements(e, now);
      SparedByAll(s, e.Snapshot(), step, 0);
  }

  lemma PublishedAsset(s: State, a: AssetId, feed: Option<Feed>)
    ensures MayPublish(s, a, feed) ==> a in s.assets
  {
  }

  /** None of the steps is the account's own. */
  ghost predicate Passive(s: State, steps: seq<Step>, who: AccountId) {
    forall step :: step in steps ==> !step.ActedBy(s, who)
  }

  lemma StillSpared(s0: State, s: State, t: State, step: Step, who: AccountId)
    requires SameIssuers(s0, s) && Spared(s0, s, who) && OthersSpared(s, t, step) && !step.ActedBy(s0, who)
    ensures Spared(s0, t, who)
  {
    hide Spared;
    assert Spared(s, t, who);
    SparedTrans(s0, s, t, who);
  }

  lemma IssuersStay(s0: State, s: State, t: State, step: Step)
    requires SameIssuers(s0, s) && OthersSpared(s, t, step)
    ensures SameIssuers(s0, t)
  {
    hide Spared;
  }

  /** For every run: what is held of an asset has changed exactly as its supply has; of a market-issued asset,
      everything that is held is the supply, and it is all owed by margin positions or all covered by a solvent fund. */
  method Run(e: Engine, steps: seq<Step>)
    requires Inv(e.Snapshot())
    modifies e
    ensures Inv(e.Snapshot()) && Conserved(old(e.Snapshot()), e.Snapshot())
    ensures forall a: AssetId {:trigger Held(e.Snapshot(), a)} :: e.Snapshot().IsBitasset(a) ==>
              && Held(e.Snapshot(), a) == e.Snapshot().Supply(a)
              && match e.Snapshot().Bit(a).settlement
                 case None => Debt(e.Snapshot(), a) == e.Snapshot().Supply(a) && e.Snapshot().Bit(a).fund == 0
                 case Some(p) =>
                   && Debt(e.Snapshot(), a) == 0
                   && e.Snapshot().Bit(a).fund * p.base >= e.Snapshot().Supply(a) * p.quote
    // an account that does not act loses nothing, and if it has no order, position or bid nothing of it changes
    ensures forall who: AccountId {:trigger Spared(old(e.Snapshot()), e.Snapshot(), who)} ::
              Passive(old(e.Snapshot()), steps, who) ==> Spared(old(e.Snapshot()), e.Snapshot(), who)
  {
    ghost var s0 := e.Snapshot();
    ConservedRefl(s0);
    HarmlessRefl(s0);
    for i := 0 to |steps|
      invariant Inv(e.Snapshot()) && Conserved(s0, e.Snapshot()) && SameIssuers(s0, e.Snapshot())
      invariant forall who: AccountId {:trigger Spared(s0, e.Snapshot(), who)} ::
                  Passive(s0, steps, who) ==> Spared(s0, e.Snapshot(), who)
    {
      hide Inv, Conserved, Spared, OthersSpared, SameIssuers;
      ghost var s := e.Snapshot();
      Perform(e, steps[i]);
      ConservedTrans(s0, s, e.Snapshot());
      IssuersStay(s0, s, e.Snapshot(), steps[i]);
      forall who: AccountId | Passive(s0, steps, who) ensures Spared(s0, e.Snapshot(), who) {
        assert Spared(s0, s, who) && steps[i] in steps;
        StillSpared(s0, s, e.Snapshot(), steps[i], who);
      }
    }
    hide Spared;
    WhereEverythingIs(e.Snapshot());
  }

  /** Whatever happens in a market from its beginning, all that there is of any asset is its supply. */
  method RunFromStart(start: State, steps: seq<Step>) returns (e: Engine)
    requires AtStart(start)
    ensures fresh(e) && Inv(e.Snapshot())
    ensures forall a {:trigger Held(e.Snapshot(), a)} :: a in start.assets ==>
              Held(e.Snapshot(), a) == e.Snapshot().Supply(a)
  {
    StartIsGood(start);
    e := new Engine(start);
    hide Held, Inv, AtStart, Conserved, Spared, Passive;
    Run(e, steps);
    AllIsSupply(start, e.Snapshot());
  }

  lemma AllIsSupply(s: State, t: State)
    requires Conserved(s, t) && forall a :: a in s.assets ==> Held(s, a) == s.Supply(a)
    ensures forall a {:trigger Held(t, a)} :: a in s.assets ==> Held(t, a) == t.Supply(a)
  {
    hide Held;
  }

  lemma WhereEverythingIs(s: State)
    requires Inv(s)
    ensures forall a: AssetId {:trigger Held(s, a)} :: s.IsBitasset(a) ==>
              && Held(s, a) == s.Supply(a)
              && match s.Bit(a).settlement
                 case None => Debt(s, a) == s.Supply(a) && s.Bit(a).fund == 0
                 case Some(p) => Debt(s, a) == 0 && s.Bit(a).fund * p.base >= s.Supply(a) * p.quote
  {
    hide Held, Debt, Uncrossed;
    GoodOrders(s);
    hide Good;
    forall a: AssetId | s.IsBitasset(a)
      ensures Held(s, a) == s.Supply(a)
      ensures match s.Bit(a).settlement
              case None => Debt(s, a) == s.Supply(a) && s.Bit(a).fund == 0
              case Some(p) => Debt(s, a) == 0 && s.Bit(a).fund * p.base >= s.Supply(a) * p.quote
    {
      assert LifeCycleOf(s, a);
      DebtOfPositions(s, a);
    }
  }
}
