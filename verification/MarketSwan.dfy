/** Global settlement: every margin position of an asset is closed at one price, and the collateral it pays becomes the
    settlement fund. */
module MarketSwan {
  import opened Arithmetic
  import opened Common
  import opened Sums
  import opened MarketState
  import opened MarketFills
  import opened MarketIndex
  import opened MarketInvariant

  /** What a position pays at the settlement price: its debt's worth, or all of its collateral if that is less. */
  function PaysAt(c: CallOrder, price: Price): (pays: nat)
    ensures pays <= c.collateral
  {
    if price.base == 0 then 0
    else if price.ToQuote(c.debt) > c.collateral then c.collateral
    else price.ToQuote(c.debt)
  }

  /** A position that can pay what its debt is worth, rounded down, pays exactly that; any other pays all it has. */
  lemma PaysItsWorth(c: CallOrder, price: Price)
    requires price.base > 0
    ensures var pays := PaysAt(c, price);
            if c.debt * price.quote < (c.collateral + 1) * price.base
            then pays * price.base <= c.debt * price.quote < (pays + 1) * price.base
            else pays == c.collateral
  {
    var worth := price.ToQuote(c.debt);
    price.ToQuoteIsFloor(c.debt);
    if worth <= c.collateral {
      MulMonotone(worth + 1, c.collateral + 1, price.base);
    } else {
      MulMonotone(c.collateral + 1, worth, price.base);
    }
  }

  function PaysIn(a: AssetId, price: Price): (Position, CallOrder) -> int {
    (k: Position, c: CallOrder) => if k.1 == a then PaysAt(c, price) else 0
  }

  /** What a closed position gave back to its owner. */
  function FreedTo(s0: State, calls: map<Position, CallOrder>, a: AssetId, price: Price, who: AccountId,
                   x: AssetId): nat {
    if (who, a) in s0.calls && (who, a) !in calls && x == s0.calls[(who, a)].callPrice.baseId
    then s0.calls[(who, a)].collateral - PaysAt(s0.calls[(who, a)], price)
    else 0
  }

  ghost predicate Freed(s0: State, s: State, a: AssetId, price: Price) {
    forall who: AccountId, x: AssetId {:trigger s.Balance(who, x)} ::
      s.Balance(who, x) == s0.Balance(who, x) + FreedTo(s0, s.calls, a, price, who, x)
  }

  /** Some positions of `a` have been closed since `s0`, for `gathered` collateral. */
  ghost predicate Closing(s0: State, s: State, a: AssetId, price: Price, gathered: nat) {
    && a in s0.assets && a in s.assets
    && s == s0.(balances := s.balances, assets := s.assets, calls := s.calls)
    && s.assets == s0.assets[a := s0.assets[a].(supply := s.assets[a].supply)]
    && (forall k :: k in s.calls ==> k in s0.calls && s.calls[k] == s0.calls[k])
    && (forall k :: k in s0.calls && k.1 != a ==> k in s.calls)
    && gathered + SumBy(s.calls, PaysIn(a, price)) == SumBy(s0.calls, PaysIn(a, price))
  }

  ghost predicate ClosingTotals(s0: State, s: State, a: AssetId, backing: AssetId, gathered: nat) {
    forall x: AssetId {:trigger Held(s, x)} {:trigger Debt(s, x)} ::
      && Held(s, x) == Held(s0, x) - (if x == backing then gathered else 0)
      && Debt(s, x) - s.Supply(x) == Debt(s0, x) - s0.Supply(x)
  }

  lemma ClosePosition(s0: State, s: State, a: AssetId, price: Price, gathered: nat, k: Position)
    requires Closing(s0, s, a, price, gathered)
    requires k in s.calls && k.1 == a
    ensures Closing(s0, FillCall(s, k, PaysAt(s.calls[k], price), s.calls[k].debt), a, price,
                    gathered + PaysAt(s.calls[k], price))
  {
    hide SumBy, PaysAt;
    SumDrop(s.calls, PaysIn(a, price), k);
  }

  lemma ClosePositionFrees(s0: State, s: State, a: AssetId, price: Price, gathered: nat, k: Position)
    requires Closing(s0, s, a, price, gathered) && Freed(s0, s, a, price)
    requires k in s.calls && k.1 == a
    ensures Freed(s0, FillCall(s, k, PaysAt(s.calls[k], price), s.calls[k].debt), a, price)
  {
    hide SumBy, PaysAt;
    var c := s.calls[k];
    var t := FillCall(s, k, PaysAt(c, price), c.debt);
    forall who: AccountId, x: AssetId
      ensures t.Balance(who, x) == s0.Balance(who, x) + FreedTo(s0, t.calls, a, price, who, x)
    {
      assert s.Balance(who, x) == s0.Balance(who, x) + FreedTo(s0, s.calls, a, price, who, x);
    }
  }

  lemma ClosePositionTotals(s0: State, s: State, a: AssetId, price: Price, backing: AssetId, gathered: nat, k: Position)
    requires ClosingTotals(s0, s, a, backing, gathered)
    requires k in s.calls && k.1 == a && a in s.assets && s.calls[k].callPrice.baseId == backing
    ensures ClosingTotals(s0, FillCall(s, k, PaysAt(s.calls[k], price), s.calls[k].debt), a, backing,
                          gathered + PaysAt(s.calls[k], price))
  {
    hide Held, Debt, PaysAt;
    var pays, debt := PaysAt(s.calls[k], price), s.calls[k].debt;
    var t := FillCall(s, k, pays, debt);
    forall x: AssetId
      ensures Held(t, x) == Held(s0, x) - (if x == backing then gathered + pays else 0)
      ensures Debt(t, x) - t.Supply(x) == Debt(s0, x) - s0.Supply(x)
    {
      FillCallTotals(s, k, pays, debt, x);
      assert Held(s, x) == Held(s0, x) - (if x == backing then gathered else 0);
    }
  }

  /** The settlement price is the supply over the collateral gathered, not the price the positions were closed at; the
      supply is put back to what it was. */
  function SettledRecord(x: Asset, a: AssetId, supply: int, gathered: nat): Asset
    requires x.bit.Some? && supply >= 0
  {
    x.(supply := supply,
       bit := Some(x.bit.value.(settlement := Some(Price(supply, a, gathered, x.bit.value.backing)),
                                fund := gathered)))
  }

  /** The state after a global settlement of `a` at `price`. */
  ghost predicate GloballySettled(s0: State, t: State, a: AssetId, price: Price) {
    && s0.IsBitasset(a) && s0.assets[a].supply >= 0
    && var gathered := SumBy(s0.calls, PaysIn(a, price));
       && gathered >= 0
       && t == s0.(balances := t.balances, assets := t.assets, calls := t.calls)
       && t.assets == s0.assets[a := SettledRecord(s0.assets[a], a, s0.assets[a].supply, gathered)]
       && t.calls == (map k | k in s0.calls && k.1 != a :: s0.calls[k])
       && Freed(s0, t, a, price)
  }

  /** What a settlement means: every position gives back to its owner what it does not pay, and no other balance
      changes; the supply stands, and the settlement price is the whole supply for the whole fund. */
  lemma SettledTerms(s0: State, t: State, a: AssetId, price: Price)
    requires Good(s0) && GloballySettled(s0, t, a, price)
    ensures t.IsBitasset(a) && t.Bit(a).settlement.Some? && t.Supply(a) == s0.Supply(a)
    ensures var p := t.Bit(a).settlement.value; p.base == s0.Supply(a) && p.quote == t.Bit(a).fund
    ensures CallsOf(t.calls, a) == {}
    ensures forall who: AccountId {:trigger (who, a) in s0.calls} ::
              (who, a) in s0.calls ==>
                var c := s0.calls[(who, a)];
                t.Balance(who, s0.Bit(a).backing) ==
                  s0.Balance(who, s0.Bit(a).backing) + c.collateral - PaysAt(c, price)
    ensures forall who: AccountId, x: AssetId {:trigger t.Balance(who, x)} ::
              (who, a) !in s0.calls || x != s0.Bit(a).backing ==> t.Balance(who, x) == s0.Balance(who, x)
  {
    forall k | k in s0.calls && k.1 == a ensures s0.calls[k].callPrice.baseId == s0.Bit(a).backing {
      GoodCallOf(s0, k);
    }
    hide SumBy, PaysAt, Good;
    assert forall k :: k in t.calls ==> k.1 != a;
    forall who: AccountId | (who, a) in s0.calls
      ensures var c := s0.calls[(who, a)];
              t.Balance(who, s0.Bit(a).backing) == s0.Balance(who, s0.Bit(a).backing) + c.collateral - PaysAt(c, price)
    {
      assert (who, a).1 == a;
    }
  }

  /** Once no position is left, recording the settlement gives the settled state. */
  lemma AllClosed(s0: State, s: State, a: AssetId, price: Price, gathered: nat)
    requires Good(s0) && s0.IsBitasset(a) && s0.assets[a].supply >= 0
    requires Closing(s0, s, a, price, gathered) && Freed(s0, s, a, price)
    requires CallsOf(s.calls, a) == {}
    ensures var t := s.(assets := s.assets[a := SettledRecord(s.assets[a], a, s0.assets[a].supply, gathered)]);
            GloballySettled(s0, t, a, price)
  {
    hide Good;
    var t := s.(assets := s.assets[a := SettledRecord(s.assets[a], a, s0.assets[a].supply, gathered)]);
    NothingLeftToPay(s, a, price);
    hide SumBy, PaysAt;
    assert t.calls == (map k | k in s0.calls && k.1 != a :: s0.calls[k]) by {
      forall k | k in s.calls ensures k.1 != a {
        assert k.1 == a ==> k in CallsOf(s.calls, a);
      }
    }
    forall who: AccountId, x: AssetId
      ensures t.Balance(who, x) == s0.Balance(who, x) + FreedTo(s0, t.calls, a, price, who, x)
    {
      assert s.Balance(who, x) == s0.Balance(who, x) + FreedTo(s0, s.calls, a, price, who, x);
    }
  }

  lemma {:induction false} NothingLeftToPay(s: State, a: AssetId, price: Price)
    requires CallsOf(s.calls, a) == {}
    ensures SumBy(s.calls, PaysIn(a, price)) == 0
  {
    forall k | k in s.calls ensures PaysIn(a, price)(k, s.calls[k]) == 0 {
      assert k.1 == a ==> k in CallsOf(s.calls, a);
    }
    SumZero(s.calls, PaysIn(a, price));
  }

  /** Recording the settlement moves the gathered collateral into the fund and restores the supply. */
  lemma RecordedTotals(s0: State, s: State, a: AssetId, price: Price, gathered: nat, x: AssetId)
    requires s0.IsBitasset(a) && s0.assets[a].supply >= 0 && s0.Bit(a).fund == 0
    requires Closing(s0, s, a, price, gathered)
    requires ClosingTotals(s0, s, a, s0.Bit(a).backing, gathered)
    ensures var t := s.(assets := s.assets[a := SettledRecord(s.assets[a], a, s0.assets[a].supply, gathered)]);
            && Held(t, x) == Held(s0, x) && t.Supply(x) == s0.Supply(x)
            && (x != a ==> Debt(t, x) == Debt(s0, x))
  {
    hide Held, Debt, SumBy, PaysAt;
    var bit := s.Bit(a).(settlement := Some(Price(s0.assets[a].supply, a, gathered, s.Bit(a).backing)),
                         fund := gathered);
    var s1 := SetSupply(s, a, s0.assets[a].supply);
    var s2 := SetBit(s1, a, bit);
    assert s2 == s.(assets := s.assets[a := SettledRecord(s.assets[a], a, s0.assets[a].supply, gathered)]);
    SetSupplyTotals(s, a, s0.assets[a].supply, x);
    SetBitTotals(s1, a, bit, x);
    assert Held(s, x) == Held(s0, x) - (if x == s0.Bit(a).backing then gathered else 0);
    assert Debt(s2, x) == Debt(s, x) by { SameCallsSameDebt(s2, s, x); }
  }

  lemma FreedHarmless(s0: State, t: State, a: AssetId, price: Price)
    requires Freed(s0, t, a, price) && OldOwners(s0, t)
    ensures Harmless(s0, t)
  {
    hide PaysAt, OldOwners;
    forall who: AccountId ensures Spared(s0, t, who) {
      if Involved(t, who) { OldOwnersInvolved(s0, t, who); }
      forall x: AssetId
        ensures s0.Balance(who, x) <= t.Balance(who, x)
        ensures !Involved(s0, who) ==> s0.Balance(who, x) == t.Balance(who, x)
      {
        assert (who, a) in s0.calls ==> Involved(s0, who);
      }
    }
    assert SameIssuers(s0, t) by { OldOwnersIssuers(s0, t); }
  }

  lemma SettledGood(s0: State, t: State, a: AssetId, price: Price)
    requires Good(s0) && s0.IsBitasset(a) && s0.Bit(a).settlement.None?
    requires GloballySettled(s0, t, a, price)
    ensures Good(t)
  {
    hide SumBy, PaysAt, Freed;
    GoodOrders(s0);
    hide GoodLimits, GoodCalls, GoodSettles;
    assert SameKinds(s0, t);
    forall x | x in t.assets ensures GoodAsset(t, x, t.assets[x]) {
      assert GoodAsset(s0, x, s0.assets[x]);
    }
    hide SameKinds;
    GoodLimitsAgain(s0, t);
    GoodCallsAgain(s0, t);
    GoodSettlesAgain(s0, t);
    forall k | k in t.bids && t.IsBitasset(k.1) ensures t.Bit(k.1).settlement.Some? && !t.Bit(k.1).prediction {
      assert GoodBid(s0, k, s0.bids[k]);
    }
    GoodBidsAgain(s0, t);
  }

  /** A settled asset starts out solvent, and other assets do not notice. */
  lemma SettledLifeCycle(s0: State, t: State, a: AssetId, price: Price)
    requires Good(s0) && LifeCycle(s0) && s0.IsBitasset(a) && s0.Bit(a).settlement.None?
    requires GloballySettled(s0, t, a, price)
    requires forall x: AssetId {:trigger Held(t, x)} :: Held(t, x) == Held(s0, x) && t.Supply(x) == s0.Supply(x)
    requires forall x: AssetId {:trigger Debt(t, x)} :: x != a ==> Debt(t, x) == Debt(s0, x)
    ensures LifeCycle(t)
  {
    assert LifeCycleOf(s0, a);
    GoodOrders(s0);
    DebtOfPositions(s0, a);
    if s0.Supply(a) == 0 {
      NothingLeftToPay(s0, a, price);
    }
    hide Held, Debt, SumBy, PaysAt, Freed, Good;
    forall x: AssetId | t.IsBitasset(x) ensures LifeCycleOf(t, x) {
      assert s0.IsBitasset(x);
      assert LifeCycleOf(s0, x);
      assert Held(t, x) == Held(s0, x);
      if x == a {
        assert CallsOf(t.calls, a) == {};
        var n, g := s0.assets[a].supply, t.Bit(a).fund;
        assert g * n == n * g;
      } else {
        assert CallsOf(t.calls, x) <= CallsOf(s0.calls, x);
      }
    }
  }
}
