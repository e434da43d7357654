/** The orders in which the market's indexes list their entries. */
module MarketIndex {
  import opened Common
  import opened MarketState

  /** The numeric value of a price. */
  ghost function Value(p: Price): real
    requires p.quote > 0
  {
    p.base as real / p.quote as real
  }

  lemma LessIsByValue(p: Price, q: Price)
    requires p.quote > 0 && q.quote > 0
    ensures p.Less(q) <==> Value(p) < Value(q)
  {
    var a, b, c, d := p.base as real, p.quote as real, q.base as real, q.quote as real;
    assert (p.base * q.quote) as real == a * d && (q.base * p.quote) as real == c * b;
    CrossMultiply(a, b, c, d);
  }

  lemma CrossMultiply(a: real, b: real, c: real, d: real)
    requires b > 0.0 && d > 0.0
    ensures a * d < c * b <==> a / b < c / d
  {
    assert a / b * (b * d) == a * d;
    assert c / d * (b * d) == c * b;
    assert b * d > 0.0;
  }

  /** A price that is no lower than `x` is no lower than any price below `x`. */
  lemma NotLessBelow(p: Price, x: Price, y: Price)
    requires x.quote > 0 && y.quote > 0
    requires !p.Less(x) && !x.Less(y)
    ensures !p.Less(y)
  {
    LessIsByValue(x, y);
    if p.quote > 0 {
      LessIsByValue(p, x);
      LessIsByValue(p, y);
    }
  }

  /** Some entry comes first when entries are listed by `v` and then by `id`. */
  lemma FirstByValue<K(!new)>(c: set<K>, v: K -> real, id: K -> int) returns (i: K)
    requires c != {}
    ensures i in c && forall j :: j in c ==> v(i) < v(j) || (v(i) == v(j) && id(i) <= id(j))
  {
    i := FirstExists(c, (x: K, y: K) => v(x) < v(y) || (v(x) == v(y) && id(x) <= id(y)));
  }

  /** Limit orders by price: the highest price first, older orders first among equals. */
  predicate LimitBefore(l: map<nat, LimitOrder>, i: nat, j: nat)
    requires i in l && j in l
  {
    || l[j].price.Less(l[i].price)
    || (!l[i].price.Less(l[j].price) && i < j)
  }

  predicate FirstLimit(l: map<nat, LimitOrder>, c: set<nat>, i: nat)
    requires c <= l.Keys
  {
    i in c && forall j :: j in c && j != i ==> LimitBefore(l, i, j)
  }

  /** The first order asks for the least in return, and is the oldest of those that ask for as little. */
  lemma FirstLimitIsBest(l: map<nat, LimitOrder>, c: set<nat>, i: nat)
    requires c <= l.Keys && forall j :: j in c ==> l[j].price.quote > 0
    ensures FirstLimit(l, c, i) <==>
            && i in c
            && forall j {:trigger l[j]} :: j in c ==>
                 && Value(l[j].price) <= Value(l[i].price)
                 && (Value(l[j].price) == Value(l[i].price) ==> i <= j)
  {
    if i in c {
      forall j | j in c ensures j != i ==> (LimitBefore(l, i, j) <==>
                                            || Value(l[j].price) < Value(l[i].price)
                                            || (Value(l[j].price) == Value(l[i].price) && i < j))
      {
        LessIsByValue(l[i].price, l[j].price);
        LessIsByValue(l[j].price, l[i].price);
      }
    }
  }

  lemma FirstLimitExists(l: map<nat, LimitOrder>, c: set<nat>) returns (i: nat)
    requires c <= l.Keys && c != {}
    requires forall j :: j in c ==> l[j].price.quote > 0
    ensures FirstLimit(l, c, i)
  {
    i := FirstByValue(c, (j: nat) => if j in l && l[j].price.quote > 0 then -Value(l[j].price) else 0.0, (j: nat) => j);
    forall j | j in c && j != i ensures LimitBefore(l, i, j) {
      LessIsByValue(l[i].price, l[j].price);
      LessIsByValue(l[j].price, l[i].price);
    }
  }

  /** The margin positions in the debt asset `a`. */
  function CallsOf(calls: map<Position, CallOrder>, a: AssetId): set<Position> {
    set k | k in calls && k.1 == a
  }

  /** First of the positions by call price, the lowest first. */
  predicate FirstCall(calls: map<Position, CallOrder>, a: AssetId, k: Position) {
    && k in calls && k.1 == a
    && forall j :: j in calls && j.1 == a ==>
         || calls[k].callPrice.Less(calls[j].callPrice)
         || (!calls[j].callPrice.Less(calls[k].callPrice) && calls[k].id <= calls[j].id)
  }

  /** The first position has the lowest call price: it is the one that comes into danger first. */
  lemma FirstCallIsLowest(calls: map<Position, CallOrder>, a: AssetId, k: Position)
    requires forall j :: j in calls ==> calls[j].callPrice.quote > 0
    ensures FirstCall(calls, a, k) <==>
            && k in calls && k.1 == a
            && forall j {:trigger calls[j]} :: j in calls && j.1 == a ==>
                 && Value(calls[k].callPrice) <= Value(calls[j].callPrice)
                 && (Value(calls[k].callPrice) == Value(calls[j].callPrice) ==> calls[k].id <= calls[j].id)
  {
    if k in calls {
      forall j | j in calls
        ensures calls[k].callPrice.Less(calls[j].callPrice) <==> Value(calls[k].callPrice) < Value(calls[j].callPrice)
        ensures calls[j].callPrice.Less(calls[k].callPrice) <==> Value(calls[j].callPrice) < Value(calls[k].callPrice)
      {
        LessIsByValue(calls[k].callPrice, calls[j].callPrice);
        LessIsByValue(calls[j].callPrice, calls[k].callPrice);
      }
    }
  }

  lemma FirstCallExists(calls: map<Position, CallOrder>, a: AssetId) returns (k: Position)
    requires CallsOf(calls, a) != {}
    requires forall j :: j in calls ==> calls[j].callPrice.quote > 0
    ensures FirstCall(calls, a, k)
  {
    var c := CallsOf(calls, a);
    k := FirstByValue(c, (j: Position) => if j in calls && calls[j].callPrice.quote > 0
                                          then Value(calls[j].callPrice) else 0.0,
                      (j: Position) => if j in calls then calls[j].id else 0);
    forall j | j in calls && j.1 == a
      ensures calls[k].callPrice.Less(calls[j].callPrice)
              || (!calls[j].callPrice.Less(calls[k].callPrice) && calls[k].id <= calls[j].id)
    {
      assert j in c;
      LessIsByValue(calls[k].callPrice, calls[j].callPrice);
      LessIsByValue(calls[j].callPrice, calls[k].callPrice);
    }
  }

  /** How well a position is covered: collateral / debt. */
  function Collateralization(c: CallOrder): Price {
    Price(c.collateral, c.callPrice.baseId, c.debt, c.callPrice.quoteId)
  }

  /** First of the positions by collateralization, the least covered first. */
  predicate LeastCovered(calls: map<Position, CallOrder>, a: AssetId, k: Position) {
    && k in calls && k.1 == a
    && forall j :: j in calls && j.1 == a ==>
         || Collateralization(calls[k]).Less(Collateralization(calls[j]))
         || (!Collateralization(calls[j]).Less(Collateralization(calls[k])) && calls[k].id <= calls[j].id)
  }

  /** No position has less collateral for its debt than the first one. */
  lemma LeastCoveredIsLeast(calls: map<Position, CallOrder>, a: AssetId, k: Position)
    requires forall j :: j in calls ==> calls[j].debt > 0
    ensures LeastCovered(calls, a, k) <==>
            && k in calls && k.1 == a
            && forall j {:trigger calls[j]} :: j in calls && j.1 == a ==>
                 && calls[k].collateral * calls[j].debt <= calls[j].collateral * calls[k].debt
                 && (calls[k].collateral * calls[j].debt == calls[j].collateral * calls[k].debt ==>
                       calls[k].id <= calls[j].id)
  {
  }

  lemma LeastCoveredExists(calls: map<Position, CallOrder>, a: AssetId) returns (k: Position)
    requires CallsOf(calls, a) != {}
    requires forall j :: j in calls ==> calls[j].debt > 0
    ensures LeastCovered(calls, a, k)
  {
    var c := CallsOf(calls, a);
    k := FirstByValue(c, (j: Position) => if j in calls && calls[j].debt > 0
                                          then Value(Collateralization(calls[j])) else 0.0,
                      (j: Position) => if j in calls then calls[j].id else 0);
    forall j | j in calls && j.1 == a
      ensures Collateralization(calls[k]).Less(Collateralization(calls[j]))
              || (!Collateralization(calls[j]).Less(Collateralization(calls[k])) && calls[k].id <= calls[j].id)
    {
      assert j in c;
      LessIsByValue(Collateralization(calls[k]), Collateralization(calls[j]));
      LessIsByValue(Collateralization(calls[j]), Collateralization(calls[k]));
    }
  }

  /** First of the bids in `c` by price, the highest first. */
  predicate FirstBid(bids: map<Position, Bid>, c: set<Position>, k: Position)
    requires c <= bids.Keys
  {
    && k in c
    && forall j :: j in c ==>
         || bids[j].price.Less(bids[k].price)
         || (!bids[k].price.Less(bids[j].price) && bids[k].id <= bids[j].id)
  }

  /** The first bid offers the most collateral for the debt it would take over. */
  lemma FirstBidIsBest(bids: map<Position, Bid>, c: set<Position>, k: Position)
    requires c <= bids.Keys
    ensures FirstBid(bids, c, k) <==>
            && k in c
            && forall j {:trigger bids[j]} :: j in c ==>
                 && bids[j].price.base * bids[k].price.quote <= bids[k].price.base * bids[j].price.quote
                 && (bids[j].price.base * bids[k].price.quote == bids[k].price.base * bids[j].price.quote ==>
                       bids[k].id <= bids[j].id)
  {
  }

  lemma FirstBidExists(bids: map<Position, Bid>, c: set<Position>) returns (k: Position)
    requires c <= bids.Keys && c != {}
    requires forall j :: j in c ==> bids[j].price.quote > 0
    ensures FirstBid(bids, c, k)
  {
    k := FirstByValue(c, (j: Position) => if j in bids && bids[j].price.quote > 0 then -Value(bids[j].price) else 0.0,
                     (j: Position) => if j in bids then bids[j].id else 0);
    forall j | j in c
      ensures bids[j].price.Less(bids[k].price)
              || (!bids[k].price.Less(bids[j].price) && bids[k].id <= bids[j].id)
    {
      LessIsByValue(bids[k].price, bids[j].price);
      LessIsByValue(bids[j].price, bids[k].price);
    }
  }
}
