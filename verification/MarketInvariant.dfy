/** The laws of the market: conservation of every asset, and the life cycle of market-issued assets. */
module MarketInvariant {
  import opened Common
  import opened Sums
  import opened MarketState
  import opened MarketFills
  import opened MarketIndex

  /** Nothing is created or destroyed: what is held of an asset changes exactly as its supply does. */
  ghost predicate Conserved(s: State, t: State) {
    forall a: AssetId {:trigger Held(t, a)} :: Held(t, a) - t.Supply(a) == Held(s, a) - s.Supply(a)
  }

  /** Moreover, debt changes exactly as the supply does. */
  ghost predicate Steady(s: State, t: State) {
    forall a: AssetId {:trigger Held(t, a)} {:trigger Debt(t, a)} ::
      && Held(t, a) - t.Supply(a) == Held(s, a) - s.Supply(a)
      && Debt(t, a) - t.Supply(a) == Debt(s, a) - s.Supply(a)
  }

  lemma ConservedRefl(s: State)
    ensures Conserved(s, s)
  {
    hide Held;
  }

  lemma ConservedTrans(s: State, t: State, u: State)
    requires Conserved(s, t) && Conserved(t, u)
    ensures Conserved(s, u)
  {
    hide Held;
    forall a: AssetId ensures Held(u, a) - u.Supply(a) == Held(s, a) - s.Supply(a) {
      assert Held(t, a) - t.Supply(a) == Held(s, a) - s.Supply(a);
    }
  }

  lemma SteadyTrans(s: State, t: State, u: State)
    requires Steady(s, t) && Steady(t, u)
    ensures Steady(s, u)
  {
    hide Held, Debt;
    forall a: AssetId
      ensures Held(u, a) - u.Supply(a) == Held(s, a) - s.Supply(a)
      ensures Debt(u, a) - u.Supply(a) == Debt(s, a) - s.Supply(a)
    {
      assert Held(t, a) - t.Supply(a) == Held(s, a) - s.Supply(a);
    }
  }

  /** The fund covers the remaining supply at the settlement price (supply at settlement / fund at settlement), and is
      empty when nothing is left to settle. */
  ghost predicate Solvent(fund: nat, supply: int, p: Price) {
    && 0 <= supply <= p.base
    && fund * p.base >= supply * p.quote
    && (supply == 0 ==> fund == 0)
  }

  ghost predicate LifeCycleOf(s: State, a: AssetId)
    requires s.IsBitasset(a)
  {
    && Held(s, a) == s.Supply(a)
    && if s.Bit(a).settlement.Some?
       then CallsOf(s.calls, a) == {} && Solvent(s.Bit(a).fund, s.Supply(a), s.Bit(a).settlement.value)
       else Debt(s, a) == s.Supply(a) && s.Bit(a).fund == 0
  }

  /** While an asset is unsettled, its debts add up to its supply and it has no fund; once settled, it has no debts and
      a solvent fund; in both phases everything held of it adds up to its supply. */
  ghost predicate LifeCycle(s: State) {
    forall a: AssetId {:trigger s.IsBitasset(a)} :: s.IsBitasset(a) ==> LifeCycleOf(s, a)
  }

  /** No two resting orders on opposite sides of a market could trade with each other. */
  predicate Crosses(p: Price, q: Price) {
    p.baseId == q.quoteId && p.quoteId == q.baseId && p.base * q.base >= p.quote * q.quote
  }

  /** Each asks for no more than the other one offers: at the price of either, the other one would be satisfied. */
  lemma CrossesMeans(p: Price, q: Price)
    requires p.Positive() && q.Positive() && p.baseId == q.quoteId && p.quoteId == q.baseId
    ensures Crosses(p, q) <==> !p.Less(q.Inverse())
    ensures Crosses(p, q) <==> Value(q.Inverse()) <= Value(p)
  {
    LessIsByValue(p, q.Inverse());
  }

  ghost predicate Uncrossed(l: map<nat, LimitOrder>) {
    forall i, j :: i in l && j in l ==> !Crosses(l[i].price, l[j].price)
  }

  lemma UncrossedShrinks(l: map<nat, LimitOrder>, l': map<nat, LimitOrder>)
    requires Uncrossed(l) && LimitsShrink(l, l')
    ensures Uncrossed(l')
  {
  }

  lemma LimitsShrinkTrans(l: map<nat, LimitOrder>, l': map<nat, LimitOrder>, l'': map<nat, LimitOrder>)
    requires LimitsShrink(l, l') && LimitsShrink(l', l'')
    ensures LimitsShrink(l, l'')
  {
  }

  /** Every position has collateral. */
  ghost predicate Collateralized(s: State) {
    forall k :: k in s.calls ==> s.calls[k].collateral > 0
  }

  /** The invariant of the market between operations. */
  ghost predicate Inv(s: State) {
    Good(s) && LifeCycle(s) && Collateralized(s) && Uncrossed(s.limits)
  }

  // --------------------------------------------------------------------------------------------------------------

  lemma DebtNonNegative(s: State, a: AssetId)
    ensures Debt(s, a) >= 0
    ensures forall k :: k in s.calls && k.1 == a ==> s.calls[k].debt <= Debt(s, a)
  {
    forall k | k in s.calls ensures DebtIn(a)(k, s.calls[k]) >= 0 {
      var c: CallOrder := s.calls[k];
      assert c.debt >= 0;
    }
    SumNonNegative(s.calls, DebtIn(a));
    forall k | k in s.calls && k.1 == a ensures s.calls[k].debt <= Debt(s, a) {
      assert DebtIn(a)(k, s.calls[k]) <= SumBy(s.calls, DebtIn(a));
    }
  }

  /** An asset has debt if and only if it has margin positions. */
  lemma {:induction false} DebtOfPositions(s: State, a: AssetId)
    requires forall k :: k in s.calls ==> s.calls[k].debt > 0
    ensures Debt(s, a) == 0 <==> CallsOf(s.calls, a) == {}
  {
    if CallsOf(s.calls, a) == {} {
      forall k | k in s.calls ensures DebtIn(a)(k, s.calls[k]) == 0 {
        assert k.1 == a ==> k in CallsOf(s.calls, a);
      }
      SumZero(s.calls, DebtIn(a));
    } else {
      var k :| k in CallsOf(s.calls, a);
      DebtNonNegative(s, a);
    }
  }

  /** A market as genesis leaves it: balances, accumulated fees and margin positions, but no orders or bids. The
      supply of an asset is what was tallied of it, and that of a market-issued asset is owed by its positions. */
  ghost predicate AtStart(s: State) {
    && GoodAssets(s) && GoodCalls(s) && Collateralized(s)
    && s.limits == map[] && s.settles == map[] && s.bids == map[] && s.pending == map[]
    && (forall a :: a in s.assets ==> s.assets[a].supply == Tallied(s, a))
    && (forall a :: s.IsBitasset(a) ==> s.Supply(a) == Debt(s, a) && s.Bit(a).settlement.None? && s.Bit(a).fund == 0)
  }

  ghost function Tallied(s: State, a: AssetId): int
    requires a in s.assets
  {
    SumBy(s.balances, BalanceIn(a)) + SumBy(s.calls, CollateralIn(a)) + s.assets[a].fees
  }

  /** The invariant holds to begin with, and everything held of any asset is its supply. */
  lemma StartIsGood(s: State)
    requires AtStart(s)
    ensures Inv(s) && forall a :: a in s.assets ==> Held(s, a) == s.Supply(a)
  {
    forall a | a in s.assets ensures Held(s, a) == s.Supply(a) {
      var others := s.assets - {a};
      forall k | k in others ensures RecordIn(a)(k, others[k]) == 0 {
        assert s.assets[k].bit.Some? ==> s.IsBitasset(k);
      }
      assert s.assets[a].bit.Some? ==> s.IsBitasset(a);
      SumSplit(s.assets, RecordIn(a), a);
      SumZero(others, RecordIn(a));
    }
  }

  /** There are such markets: one with 1000 units of the core asset, and a market-issued asset that it backs. */
  lemma StartExists()
    ensures exists s :: AtStart(s) && s.IsBitasset(1) && s.Supply(CORE) == 1000
  {
    var bit := Bitasset(CORE, None, None, 0, 0, 2000, 0, false);
    var assets := map[CORE := Asset(0, 1000, 0, 0, 0, None), 1 := Asset(0, 0, 0, 0, 0, Some(bit))];
    var balances: map<(AccountId, AssetId), nat> := map[(7, CORE) := 1000];
    var s := State(balances, map[], map[], map[], map[], assets, map[], 0);
    forall a: AssetId ensures SumBy(balances, BalanceIn(a)) == if a == CORE then 1000 else 0 {
      SumSplit(balances, BalanceIn(a), (7, CORE));
      assert balances - {(7, CORE)} == map[];
    }
    assert AtStart(s);
  }

  /** Everything held is at least what any one place holds. */
  lemma HeldCovers(s: State, a: AssetId)
    ensures Held(s, a) >= 0
    ensures forall i :: i in s.settles && s.settles[i].asset == a ==> s.settles[i].balance <= Held(s, a)
    ensures forall who: AccountId :: s.Balance(who, a) <= Held(s, a)
  {
    SumNonNegative(s.balances, BalanceIn(a));
    SumNonNegative(s.limits, LimitIn(a));
    forall k | k in s.calls ensures CollateralIn(a)(k, s.calls[k]) >= 0 {
      var c: CallOrder := s.calls[k];
    }
    SumNonNegative(s.calls, CollateralIn(a));
    SumNonNegative(s.settles, SettleIn(a));
    SumNonNegative(s.bids, BidIn(a));
    forall k | k in s.assets ensures RecordIn(a)(k, s.assets[k]) >= 0 {
      var x: Asset := s.assets[k];
      assert x.bit.Some? ==> x.bit.value.fund >= 0;
    }
    SumNonNegative(s.assets, RecordIn(a));
    SumNonNegative(s.pending, FeeOwed());
    hide SumBy;
    forall i | i in s.settles && s.settles[i].asset == a ensures s.settles[i].balance <= Held(s, a) {
      assert SettleIn(a)(i, s.settles[i]) <= SumBy(s.settles, SettleIn(a));
    }
    forall who: AccountId ensures s.Balance(who, a) <= Held(s, a) {
      if (who, a) in s.balances {
        assert BalanceIn(a)((who, a), s.balances[(who, a)]) <= SumBy(s.balances, BalanceIn(a));
      }
    }
  }

  /** Fills keep the life cycle going. */
  lemma LifeCycleSteady(s: State, t: State)
    requires Good(s) && Good(t)
    requires LifeCycle(s) && Steady(s, t) && SameAssets(s, t)
    requires forall k :: k in t.calls && k !in s.calls ==> s.IsBitasset(k.1) && s.Bit(k.1).settlement.None?
    ensures LifeCycle(t)
  {
    hide Held, Debt, Good;
    GoodOrders(s);
    GoodOrders(t);
    forall a: AssetId | t.IsBitasset(a) ensures LifeCycleOf(t, a) {
      assert a in s.assets && SameTerms(s.assets[a], t.assets[a]);
      assert s.IsBitasset(a) && s.Bit(a) == t.Bit(a);
      assert LifeCycleOf(s, a);
      assert Held(t, a) - t.Supply(a) == Held(s, a) - s.Supply(a);
      if s.Bit(a).settlement.Some? {
        assert CallsOf(t.calls, a) <= CallsOf(s.calls, a);
        DebtOfPositions(s, a);
        DebtOfPositions(t, a);
      }
    }
  }

  lemma SameCallsSameDebt(s: State, t: State, x: AssetId)
    requires s.calls == t.calls
    ensures Debt(s, x) == Debt(t, x)
  {
  }

  /** The life cycle depends on the asset records, the positions and the totals of market-issued assets only. */
  lemma LifeCyclePlain(s: State, t: State)
    requires LifeCycle(s) && t.assets == s.assets && t.calls == s.calls
    requires forall a: AssetId {:trigger Held(t, a)} :: s.IsBitasset(a) ==> Held(t, a) == Held(s, a)
    ensures LifeCycle(t)
  {
    hide Held;
    forall a: AssetId | t.IsBitasset(a) ensures LifeCycleOf(t, a) {
      assert s.IsBitasset(a) && LifeCycleOf(s, a);
      assert Held(t, a) == Held(s, a);
      SameCallsSameDebt(s, t, a);
    }
  }

  lemma SameTables(s: State, t: State, a: AssetId)
    requires t == s.(nextId := t.nextId)
    ensures Held(t, a) == Held(s, a) && Debt(t, a) == Debt(s, a)
  {
    hide SumBy;
  }

  lemma CoreIsNoBitasset(s: State)
    requires Good(s)
    ensures CORE in s.assets && !s.IsBitasset(CORE)
  {
  }

  lemma GoodBalances(s: State, t: State)
    requires Good(s) && t == s.(balances := t.balances, pending := t.pending)
    ensures Good(t)
  {
  }

  /** A new record for a market-issued asset, of the same kind, leaves the tables good; it may end a settlement only if
      no bids are left. */
  lemma GoodNewRecord(s: State, t: State, a: AssetId)
    requires Good(s) && s.IsBitasset(a) && t.IsBitasset(a)
    requires t == s.(balances := t.balances, assets := s.assets[a := t.assets[a]])
    requires GoodAsset(s, a, t.assets[a]) && SameKind(s.assets[a], t.assets[a])
    requires forall k :: k in s.bids && k.1 == a ==> t.Bit(a).settlement.Some? && !t.Bit(a).prediction
    ensures Good(t)
  {
    assert SameKinds(s, t);
    GoodOrders(s);
    assert GoodAssets(t) by {
      hide GoodLimits, GoodCalls, GoodSettles, GoodBids, SameKinds, Good;
      assert a != CORE by { CoreIsNoBitasset(s); }
      forall x | x in t.assets ensures GoodAsset(t, x, t.assets[x]) {
        GoodAssetOf(s, x);
      }
    }
    hide GoodAssets, GoodLimits, GoodCalls, GoodSettles, SameKinds;
    GoodLimitsAgain(s, t);
    GoodCallsAgain(s, t);
    GoodSettlesAgain(s, t);
    forall k | k in t.bids && t.IsBitasset(k.1) ensures t.Bit(k.1).settlement.Some? && !t.Bit(k.1).prediction {
      assert GoodBid(s, k, s.bids[k]);
    }
    GoodBidsAgain(s, t);
  }

  lemma GoodBidsOf(s: State, a: AssetId)
    requires Good(s)
    ensures forall k :: k in s.bids && k.1 == a ==>
                          s.IsBitasset(a) && s.Bit(a).settlement.Some? && !s.Bit(a).prediction
  {
    forall k | k in s.bids && k.1 == a ensures s.IsBitasset(a) && s.Bit(a).settlement.Some? && !s.Bit(a).prediction {
      assert GoodBid(s, k, s.bids[k]);
    }
  }

  /** Only one asset is concerned. */
  lemma LifeCycleBut(s: State, t: State, a: AssetId)
    requires LifeCycle(s) && t.IsBitasset(a) && LifeCycleOf(t, a)
    requires t.assets == s.assets[a := t.assets[a]]
    requires forall x: AssetId {:trigger Held(t, x)} :: x != a ==> Held(t, x) == Held(s, x)
    requires forall x: AssetId {:trigger Debt(t, x)} :: x != a ==> Debt(t, x) == Debt(s, x)
    requires forall k :: k in t.calls && k !in s.calls ==> k.1 == a
    ensures LifeCycle(t)
  {
    hide Held, Debt;
    forall x: AssetId | t.IsBitasset(x) ensures LifeCycleOf(t, x) {
      if x != a {
        assert s.IsBitasset(x) && LifeCycleOf(s, x);
        assert Held(t, x) == Held(s, x) && Debt(t, x) == Debt(s, x);
        assert CallsOf(t.calls, x) <= CallsOf(s.calls, x);
      }
    }
  }

  // --------------------------------------------------------------------------------------------------------------
  // Steps of the margin-call engine.

  ghost predicate Laws(s: State) {
    Good(s) && LifeCycle(s)
  }

  /** What margin calls and global settlements keep: the laws, every total, and the other tables. */
  ghost predicate Kept(s: State, t: State) {
    && Laws(t) && Conserved(s, t) && SameKinds(s, t)
    && LimitsShrink(s.limits, t.limits) && Harmless(s, t)
    && t.calls.Keys <= s.calls.Keys
    && t.settles == s.settles && t.bids == s.bids && t.nextId == s.nextId
  }

  lemma KeptRefl(s: State)
    requires Laws(s)
    ensures Kept(s, s)
  {
    hide Held, Laws;
  }

  lemma KeptTrans(s: State, t: State, u: State)
    requires Kept(s, t) && Kept(t, u)
    ensures Kept(s, u)
  {
    hide Laws, Conserved, SameKinds, Harmless;
    ConservedTrans(s, t, u);
    HarmlessTrans(s, t, u);
    SameKindsTrans(s, t, u);
    LimitsShrinkTrans(s.limits, t.limits, u.limits);
  }

  lemma SameKindsTrans(s: State, t: State, u: State)
    requires SameKinds(s, t) && SameKinds(t, u)
    ensures SameKinds(s, u)
  {
    forall a | a in s.assets ensures SameKind(s.assets[a], u.assets[a]) {
      assert SameKind(s.assets[a], t.assets[a]) && SameKind(t.assets[a], u.assets[a]);
    }
  }

  /** A position without collateral can only be the first by call price. */
  ghost predicate AlmostCollateralized(s: State, a: AssetId) {
    forall k :: k in s.calls && s.calls[k].collateral == 0 ==> FirstCall(s.calls, a, k)
  }

  lemma FirstCallUnique(s: State, a: AssetId, k: Position, j: Position)
    requires Good(s) && FirstCall(s.calls, a, k) && FirstCall(s.calls, a, j)
    ensures k == j
  {
    LessIsByValue(s.calls[k].callPrice, s.calls[j].callPrice);
    LessIsByValue(s.calls[j].callPrice, s.calls[k].callPrice);
  }
}
