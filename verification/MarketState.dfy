/** The tables of the market: balances, orders, bids and assets, with the totals that must be conserved. */
module MarketState {
  import opened Arithmetic
  import opened Common
  import opened Sums

  type AssetId = nat
  /** Call orders and bids: at most one per account and debt asset. */
  type Position = (AccountId, AssetId)

  const CORE: AssetId := 0

  /** base / quote: `base` of one asset for `quote` of another. */
  datatype Price = Price(base: nat, baseId: AssetId, quote: nat, quoteId: AssetId) {

    /** operator ~ */
    function Inverse(): Price { Price(quote, quoteId, base, baseId) }

    predicate Positive() { base > 0 && quote > 0 }

    /** amount * price for an amount of the base asset, rounded down. */
    function ToQuote(amount: nat): nat
      requires base > 0
    {
      amount * quote / base
    }

    /** amount * price for an amount of the quote asset, rounded down. */
    function ToBase(amount: nat): nat
      requires quote > 0
    {
      amount * base / quote
    }

    lemma ToQuoteIsFloor(amount: nat)
      requires base > 0
      ensures ToQuote(amount) * base <= amount * quote < (ToQuote(amount) + 1) * base
    {
      RoundsDown(amount * quote, base);
    }

    lemma ToBaseIsFloor(amount: nat)
      requires quote > 0
      ensures ToBase(amount) * quote <= amount * base < (ToBase(amount) + 1) * quote
    {
      RoundsDown(amount * base, quote);
    }

    /** operator < on two prices of the same pair of assets. */
    predicate Less(that: Price) { base * that.quote < that.base * quote }
  }

  /** An offer to sell `forSale` of the price's base asset for its quote asset. */
  datatype LimitOrder = LimitOrder(seller: AccountId, forSale: nat, price: Price, deferredFee: nat)

  /** A margin position: the debt asset is the quote of the call price, the collateral asset its base. */
  datatype CallOrder = CallOrder(id: nat, collateral: nat, debt: nat, callPrice: Price)

  datatype SettleOrder = SettleOrder(owner: AccountId, balance: nat, asset: AssetId, date: nat)

  /** A bid of `price.base` collateral for `price.quote` of the debt of a settled asset. */
  datatype Bid = Bid(id: nat, price: Price)

  /** A price feed: debt asset / backing asset, and the two ratios in thousandths. */
  datatype Feed = Feed(price: Price, mcr: nat, mssr: nat)

  datatype Bitasset = Bitasset(
    backing: AssetId,
    feed: Option<Feed>,
    settlement: Option<Price>,
    fund: nat,
    forceSettled: nat,
    maxVolume: nat,
    offset: nat,
    prediction: bool)

  datatype Asset = Asset(
    issuer: AccountId,
    supply: int,
    fees: nat,
    feePercent: nat,
    maxFee: nat,
    bit: Option<Bitasset>)

  datatype State = State(
    balances: map<(AccountId, AssetId), nat>,
    limits: map<nat, LimitOrder>,
    calls: map<Position, CallOrder>,
    settles: map<nat, SettleOrder>,
    bids: map<Position, Bid>,
    assets: map<AssetId, Asset>,
    pending: map<AccountId, nat>,
    nextId: nat)
  {
    function Balance(who: AccountId, a: AssetId): nat {
      if (who, a) in balances then balances[(who, a)] else 0
    }

    function Pending(who: AccountId): nat {
      if who in pending then pending[who] else 0
    }

    function Supply(a: AssetId): int {
      if a in assets then assets[a].supply else 0
    }

    predicate IsBitasset(a: AssetId) {
      a in assets && assets[a].bit.Some?
    }

    function Bit(a: AssetId): Bitasset
      requires IsBitasset(a)
    {
      assets[a].bit.value
    }
  }

  // --------------------------------------------------------------------------------------------------------------
  // Totals.

  function BalanceIn(a: AssetId): ((AccountId, AssetId), nat) -> int {
    (k: (AccountId, AssetId), v: nat) => if k.1 == a then v else 0
  }

  /** A limit order holds what it sells, and its deferred fee in core. */
  function LimitIn(a: AssetId): (nat, LimitOrder) -> int {
    (k: nat, o: LimitOrder) => (if o.price.baseId == a then o.forSale else 0) + (if a == CORE then o.deferredFee else 0)
  }

  function CollateralIn(a: AssetId): (Position, CallOrder) -> int {
    (k: Position, c: CallOrder) => if c.callPrice.baseId == a then c.collateral else 0
  }

  function DebtIn(a: AssetId): (Position, CallOrder) -> int {
    (k: Position, c: CallOrder) => if k.1 == a then c.debt else 0
  }

  function SettleIn(a: AssetId): (nat, SettleOrder) -> int {
    (k: nat, o: SettleOrder) => if o.asset == a then o.balance else 0
  }

  function BidIn(a: AssetId): (Position, Bid) -> int {
    (k: Position, b: Bid) => if b.price.baseId == a then b.price.base else 0
  }

  /** An asset's record holds its own accumulated fees, and its settlement fund in the backing asset. */
  function RecordIn(a: AssetId): (AssetId, Asset) -> int {
    (k: AssetId, x: Asset) =>
      (if k == a then x.fees else 0) + (if x.bit.Some? && x.bit.value.backing == a then x.bit.value.fund else 0)
  }

  function FeeOwed(): (AccountId, nat) -> int {
    (k: AccountId, v: nat) => v
  }

  /** Everything that anyone holds of asset `a`, wherever it is kept. */
  ghost function Held(s: State, a: AssetId): int {
    SumBy(s.balances, BalanceIn(a)) + SumBy(s.limits, LimitIn(a)) + SumBy(s.calls, CollateralIn(a))
    + SumBy(s.settles, SettleIn(a)) + SumBy(s.bids, BidIn(a)) + SumBy(s.assets, RecordIn(a))
    + if a == CORE then SumBy(s.pending, FeeOwed()) else 0
  }

  /** The debt of asset `a` over all margin positions. */
  ghost function Debt(s: State, a: AssetId): int {
    SumBy(s.calls, DebtIn(a))
  }

  // --------------------------------------------------------------------------------------------------------------
  // Elementary changes, each with its effect on the totals.

  /** adjust_balance (an account without an entry has a balance of zero). */
  function AddBalance(s: State, who: AccountId, a: AssetId, delta: int): State
    requires s.Balance(who, a) + delta >= 0
  {
    s.(balances := s.balances[(who, a) := s.Balance(who, a) + delta])
  }

  lemma AddBalanceTotals(s: State, who: AccountId, x: AssetId, delta: int, a: AssetId)
    requires s.Balance(who, x) + delta >= 0
    ensures Held(AddBalance(s, who, x, delta), a) == Held(s, a) + if a == x then delta else 0
  {
    SumPut<(AccountId, AssetId), nat>(s.balances, BalanceIn(a), (who, x), s.Balance(who, x) + delta);
  }

  function AddPending(s: State, who: AccountId, fee: nat): State {
    s.(pending := s.pending[who := s.Pending(who) + fee])
  }

  lemma AddPendingTotals(s: State, who: AccountId, fee: nat, a: AssetId)
    ensures Held(AddPending(s, who, fee), a) == Held(s, a) + if a == CORE then fee else 0
  {
    SumPut<AccountId, nat>(s.pending, FeeOwed(), who, s.Pending(who) + fee);
  }

  function AddFees(s: State, x: AssetId, fee: nat): State
    requires x in s.assets
  {
    s.(assets := s.assets[x := s.assets[x].(fees := s.assets[x].fees + fee)])
  }

  lemma AddFeesTotals(s: State, x: AssetId, fee: nat, a: AssetId)
    requires x in s.assets
    ensures Held(AddFees(s, x, fee), a) == Held(s, a) + if a == x then fee else 0
    ensures AddFees(s, x, fee).Supply(a) == s.Supply(a)
  {
    SumPut(s.assets, RecordIn(a), x, s.assets[x].(fees := s.assets[x].fees + fee));
  }

  function SetSupply(s: State, x: AssetId, supply: int): State
    requires x in s.assets
  {
    s.(assets := s.assets[x := s.assets[x].(supply := supply)])
  }

  lemma SetSupplyTotals(s: State, x: AssetId, supply: int, a: AssetId)
    requires x in s.assets
    ensures Held(SetSupply(s, x, supply), a) == Held(s, a)
  {
    SumPut(s.assets, RecordIn(a), x, s.assets[x].(supply := supply));
  }

  function SetBit(s: State, x: AssetId, bit: Bitasset): State
    requires x in s.assets
  {
    s.(assets := s.assets[x := s.assets[x].(bit := Some(bit))])
  }

  lemma SetBitTotals(s: State, x: AssetId, bit: Bitasset, a: AssetId)
    requires s.IsBitasset(x) && bit.backing == s.Bit(x).backing
    ensures Held(SetBit(s, x, bit), a) == Held(s, a) + if a == bit.backing then bit.fund - s.Bit(x).fund else 0
    ensures SetBit(s, x, bit).Supply(a) == s.Supply(a)
  {
    SumPut(s.assets, RecordIn(a), x, s.assets[x].(bit := Some(bit)));
  }

  function SetLimit(s: State, id: nat, o: LimitOrder): State {
    s.(limits := s.limits[id := o])
  }

  lemma SetLimitTotals(s: State, id: nat, o: LimitOrder, a: AssetId)
    ensures Held(SetLimit(s, id, o), a) ==
            Held(s, a) + LimitIn(a)(id, o) - if id in s.limits then LimitIn(a)(id, s.limits[id]) else 0
  {
    SumPut(s.limits, LimitIn(a), id, o);
  }

  function DropLimit(s: State, id: nat): State {
    s.(limits := s.limits - {id})
  }

  lemma DropLimitTotals(s: State, id: nat, a: AssetId)
    requires id in s.limits
    ensures Held(DropLimit(s, id), a) == Held(s, a) - LimitIn(a)(id, s.limits[id])
  {
    SumDrop(s.limits, LimitIn(a), id);
  }

  function SetCall(s: State, k: Position, c: CallOrder): State {
    s.(calls := s.calls[k := c])
  }

  lemma SetCallTotals(s: State, k: Position, c: CallOrder, a: AssetId)
    ensures Held(SetCall(s, k, c), a) ==
            Held(s, a) + CollateralIn(a)(k, c) - if k in s.calls then CollateralIn(a)(k, s.calls[k]) else 0
    ensures Debt(SetCall(s, k, c), a) ==
            Debt(s, a) + DebtIn(a)(k, c) - if k in s.calls then DebtIn(a)(k, s.calls[k]) else 0
  {
    SumPut(s.calls, CollateralIn(a), k, c);
    SumPut(s.calls, DebtIn(a), k, c);
  }

  function DropCall(s: State, k: Position): State {
    s.(calls := s.calls - {k})
  }

  lemma DropCallTotals(s: State, k: Position, a: AssetId)
    requires k in s.calls
    ensures Held(DropCall(s, k), a) == Held(s, a) - CollateralIn(a)(k, s.calls[k])
    ensures Debt(DropCall(s, k), a) == Debt(s, a) - DebtIn(a)(k, s.calls[k])
  {
    SumDrop(s.calls, CollateralIn(a), k);
    SumDrop(s.calls, DebtIn(a), k);
  }

  function SetSettle(s: State, id: nat, o: SettleOrder): State {
    s.(settles := s.settles[id := o])
  }

  lemma SetSettleTotals(s: State, id: nat, o: SettleOrder, a: AssetId)
    ensures Held(SetSettle(s, id, o), a) ==
            Held(s, a) + SettleIn(a)(id, o) - if id in s.settles then SettleIn(a)(id, s.settles[id]) else 0
  {
    SumPut(s.settles, SettleIn(a), id, o);
  }

  function DropSettle(s: State, id: nat): State {
    s.(settles := s.settles - {id})
  }

  lemma DropSettleTotals(s: State, id: nat, a: AssetId)
    requires id in s.settles
    ensures Held(DropSettle(s, id), a) == Held(s, a) - SettleIn(a)(id, s.settles[id])
  {
    SumDrop(s.settles, SettleIn(a), id);
  }

  function SetBid(s: State, k: Position, b: Bid): State {
    s.(bids := s.bids[k := b])
  }

  lemma SetBidTotals(s: State, k: Position, b: Bid, a: AssetId)
    ensures Held(SetBid(s, k, b), a) ==
            Held(s, a) + BidIn(a)(k, b) - if k in s.bids then BidIn(a)(k, s.bids[k]) else 0
  {
    SumPut(s.bids, BidIn(a), k, b);
  }

  function DropBid(s: State, k: Position): State {
    s.(bids := s.bids - {k})
  }

  lemma DropBidTotals(s: State, k: Position, a: AssetId)
    requires k in s.bids
    ensures Held(DropBid(s, k), a) == Held(s, a) - BidIn(a)(k, s.bids[k])
  {
    SumDrop(s.bids, BidIn(a), k);
  }
}
