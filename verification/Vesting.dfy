/** Vesting balances: funds that can be withdrawn as coin-days accrue, or linearly over time. */
module Vesting {
  import opened Arithmetic

  /** Cdd: every coin earns one coin-second per second; withdrawing a coin costs `seconds` coin-seconds. Linear: the
      balance at the beginning vests evenly over the duration, and none of it before the cliff. */
  datatype Policy =
    | Cdd(seconds: nat, earned: nat, startClaim: nat, updated: nat)
    | Linear(begin: nat, cliff: nat, duration: nat, beginBalance: nat)

  function Period(seconds: nat): (m: nat)
    ensures m > 0
  {
    if seconds > 1 then seconds else 1
  }

  /** compute_coin_seconds_earned */
  function Earned(p: Policy, balance: nat, now: nat): (e: nat)
    requires p.Cdd? && now >= p.updated
  {
    var accrued, cap := p.earned + balance * (now - p.updated), balance * Period(p.seconds);
    if accrued < cap then accrued else cap
  }

  /** How much of a linear balance has vested. */
  function Vested(p: Policy, now: nat): (v: nat)
    requires p.Linear?
    ensures v <= p.beginBalance
  {
    if now <= p.begin || now - p.begin < p.cliff then 0
    else if now - p.begin < p.duration then Part(p.beginBalance, now - p.begin, p.duration)
    else p.beginBalance
  }

  /** n / d of x, rounded down. */
  function Part(x: nat, n: nat, d: nat): (r: nat)
    requires n <= d && d > 0
    ensures r <= x
  {
    PartBelow(x, n, d);
    x * n / d
  }

  lemma PartBelow(x: nat, n: nat, d: nat)
    requires n <= d && d > 0
    ensures 0 <= x * n / d <= x
  {
    assert x * n <= x * d;
    Quotient(x * n, x, d);
  }

  lemma Quotient(y: nat, x: nat, d: nat)
    requires d > 0 && y <= x * d
    ensures 0 <= y / d <= x
  {
    var q := y / d;
    assert y == d * q + y % d;
    MulStep(x, q, d);
    MulStep(q, 0, d);
  }

  /** get_allowed_withdraw */
  function Allowed(p: Policy, balance: nat, now: nat): int
    requires p.Cdd? ==> now >= p.updated
  {
    match p
    case Cdd(_, _, _, _) => if now <= p.startClaim then 0 else Earned(p, balance, now) / Period(p.seconds)
    case Linear(_, _, _, _) =>
      if now <= p.begin || now - p.begin < p.cliff then 0 else Vested(p, now) - (p.beginBalance - balance)
  }

  function Touched(p: Policy, balance: nat, now: nat): (q: Policy)
    requires p.Cdd? ==> now >= p.updated
    ensures q.Cdd? == p.Cdd?
  {
    if p.Cdd? then p.(earned := Earned(p, balance, now), updated := now) else p
  }

  /** What every vesting balance satisfies at time `clock`, the last time it was changed. */
  ghost predicate Consistent(p: Policy, balance: nat, clock: nat) {
    match p
    case Cdd(seconds, earned, _, updated) => updated <= clock && earned <= balance * Period(seconds)
    case Linear(_, _, _, beginBalance) => balance <= beginBalance && beginBalance - balance <= Vested(p, clock)
  }

  // --------------------------------------------------------------------------------------------------------------
  // Laws.

  lemma WholeParts(x: nat, m: nat)
    requires m > 0
    ensures (x / m) * m <= x && (forall y: nat {:trigger y * m} :: y * m <= x ==> y <= x / m)
  {
    var q := x / m;
    assert x == m * q + x % m;
    forall y: nat | y * m <= x ensures y <= q {
      MulStep(q, y, m);
    }
  }

  /** No policy lets more be withdrawn than there is, or a negative amount: the assertions of the policies hold. */
  lemma AllowedWithinBalance(p: Policy, balance: nat, clock: nat, now: nat)
    requires Consistent(p, balance, clock) && clock <= now
    ensures 0 <= Allowed(p, balance, now) <= balance
  {
    if p.Cdd? {
      var m, e := Period(p.seconds), Earned(p, balance, now);
      WholeParts(e, m);
      assert (e / m) * m <= balance * m;
      MulStep(balance, e / m, m);
    } else {
      VestedGrows(p, clock, now);
    }
  }

  lemma VestedGrows(p: Policy, t: nat, t': nat)
    requires p.Linear? && t <= t'
    ensures Vested(p, t) <= Vested(p, t')
  {
    if p.begin < t && t' - p.begin < p.duration {
      assert p.beginBalance * (t - p.begin) <= p.beginBalance * (t' - p.begin);
      DivMonotone(p.beginBalance * (t - p.begin), p.beginBalance * (t' - p.begin), p.duration);
    }
  }

  /** Looking at the balance at an intermediate time changes nothing that is earned later. */
  lemma TouchingIsHarmless(p: Policy, balance: nat, t: nat, now: nat)
    requires p.Cdd? && p.updated <= t <= now && p.earned <= balance * Period(p.seconds)
    ensures Earned(Touched(p, balance, t), balance, now) == Earned(p, balance, now)
    ensures Allowed(Touched(p, balance, t), balance, now) == Allowed(p, balance, now)
  {
    var d1, d2 := t - p.updated, now - t;
    assert balance * (d1 + d2) == balance * d1 + balance * d2;
    assert balance * d2 >= 0;
  }

  function TouchedAll(p: Policy, balance: nat, times: seq<nat>): (q: Policy)
    requires p.Cdd? && InOrder(p.updated, times)
    ensures q.Cdd?
    decreases |times|
  {
    if times == [] then p else TouchedAll(Touched(p, balance, times[0]), balance, times[1..])
  }

  predicate InOrder(from: nat, times: seq<nat>)
    decreases |times|
  {
    times == [] || (from <= times[0] && InOrder(times[0], times[1..]))
  }

  /** However often it is looked at. */
  lemma {:induction false} TouchingOftenIsHarmless(p: Policy, balance: nat, times: seq<nat>, now: nat)
    requires p.Cdd? && InOrder(p.updated, times) && p.earned <= balance * Period(p.seconds)
             && InOrder(p.updated, times + [now])
    ensures TouchedAll(p, balance, times).updated <= now && p.updated <= now
    ensures Allowed(TouchedAll(p, balance, times), balance, now) == Allowed(p, balance, now)
    decreases |times|
  {
    if times == [] {
      assert times + [now] == [now];
    } else {
      var q := Touched(p, balance, times[0]);
      assert (times + [now])[0] == times[0] && (times + [now])[1..] == times[1..] + [now];
      TouchingOftenIsHarmless(q, balance, times[1..], now);
      TouchingIsHarmless(p, balance, times[0], now);
    }
  }

  /** When the whole balance can be withdrawn. */
  lemma WhenAllIsVested(p: Policy, balance: nat, now: nat)
    requires p.Cdd? && now >= p.updated
    ensures Allowed(p, balance, now) == balance <==>
            || balance == 0
            || (now > p.startClaim && p.earned + balance * (now - p.updated) >= balance * Period(p.seconds))
  {
    assert balance * (now - p.updated) >= 0;
    AllOfIt(Earned(p, balance, now), balance, Period(p.seconds));
  }

  lemma AllOfIt(e: nat, balance: nat, m: nat)
    requires m > 0 && e <= balance * m
    ensures e / m == balance <==> e == balance * m
    ensures balance == 0 ==> e == 0
  {
    RoundsDown(e, m);
    Divides(m, balance);
    assert m * balance == balance * m;
  }

  /** One full period after the last deposit or withdrawal, and once claims have started, it can. */
  lemma FullPeriodVestsAll(p: Policy, balance: nat, now: nat)
    requires p.Cdd? && now >= p.updated + Period(p.seconds) && now > p.startClaim
    ensures Allowed(p, balance, now) == balance
  {
    assert balance * (now - p.updated) >= balance * Period(p.seconds);
    WhenAllIsVested(p, balance, now);
  }

  /** A full period without a deposit is not enough, if funds were withdrawn meanwhile: of 10 coins half is withdrawn
      in the middle of the period, and at its end not all of the rest can be. */
  lemma WithdrawingSetsBack()
    ensures var p := Cdd(10, 0, 0, 0);
            && Allowed(p, 10, 5) == 5 && 5 * Period(10) <= Earned(p, 10, 5)
            && var q := Spent(p, 10, 5, 5); Allowed(q, 5, 10) == 2
  {
  }

  /** Coins that have earned nothing yet vest evenly over the period, rounded down. */
  lemma CoinsVestEvenly(p: Policy, balance: nat, now: nat)
    requires p.Cdd? && p.earned == 0 && now >= p.updated && now > p.startClaim
    ensures var a, period, elapsed := Allowed(p, balance, now), Period(p.seconds), now - p.updated;
            if elapsed >= period then a == balance
            else a * period <= balance * elapsed < (a + 1) * period
  {
    var period, elapsed := Period(p.seconds), now - p.updated;
    if elapsed >= period {
      FullPeriodVestsAll(p, balance, now);
    } else {
      MulMonotone(elapsed, period, balance);
      RoundsDown(balance * elapsed, period);
    }
  }

  /** A linear balance vests evenly over its duration, rounded down, and nothing before the cliff; what has been
      withdrawn counts against it. */
  lemma LinearVestsEvenly(p: Policy, balance: nat, now: nat)
    requires p.Linear?
    ensures now <= p.begin || now - p.begin < p.cliff ==> Allowed(p, balance, now) == 0
    ensures p.begin < now && p.cliff <= now - p.begin < p.duration ==>
              var v, elapsed := Allowed(p, balance, now) + p.beginBalance - balance, now - p.begin;
              v * p.duration <= p.beginBalance * elapsed < (v + 1) * p.duration
  {
    if p.begin < now && p.cliff <= now - p.begin < p.duration {
      RoundsDown(p.beginBalance * (now - p.begin), p.duration);
    }
  }

  /** Coin-seconds for whole coins let just as many more be withdrawn. */
  lemma AddingCoins(p: Policy, balance: nat, now: nat, coins: nat)
    requires p.Cdd? && now >= p.updated
    ensures var e, m := Earned(p, balance, now), Period(p.seconds);
            (e + coins * m) / m == e / m + coins
  {
    var e, m := Earned(p, balance, now), Period(p.seconds);
    Divides(m, coins);
    DivMinus(e + coins * m, coins, m);
  }

  lemma EarnedAfter(p: Policy, balance: nat, amount: nat, now: nat, coins: nat)
    requires p.Cdd? && Consistent(p, balance, now) && coins <= amount
    ensures var e, m := Earned(p, balance, now), Period(p.seconds);
            Earned(p.(earned := e + coins * m, updated := now), balance + amount, now) == e + coins * m
  {
    var e, m := Earned(p, balance, now), Period(p.seconds);
    assert (balance + amount) * m == balance * m + amount * m;
    MulMonotone(coins, amount, m);
    assert (balance + amount) * 0 == 0;
  }

  lemma NewCoins(amount: nat, seconds: nat, now: nat, mustVest: bool)
    requires seconds > 0 && now > 0
    ensures Allowed(Cdd(seconds, if mustVest then 0 else amount * seconds, 0, now), amount, now)
            == if mustVest then 0 else amount
  {
    assert amount * 0 == 0;
    Divides(seconds, amount);
    assert amount * seconds == seconds * amount;
    assert amount * Period(seconds) == amount * seconds;
  }

  lemma LinearVestsAll(p: Policy, balance: nat, now: nat)
    requires p.Linear? && now > p.begin && now - p.begin >= p.duration && now - p.begin >= p.cliff
    ensures Allowed(p, balance, now) == balance
  {
  }

  /** The policy after a withdrawal: the coin-seconds it costs are used up. */
  function Spent(p: Policy, balance: nat, now: nat, amount: nat): Policy
    requires p.Cdd? ==> now >= p.updated && amount * Period(p.seconds) <= Earned(p, balance, now)
  {
    if p.Cdd? then Cdd(p.seconds, Earned(p, balance, now) - amount * Period(p.seconds), p.startClaim, now) else p
  }

  /** An allowed withdrawal never uses more coin-seconds than have been earned. */
  lemma AllowedIsEarned(p: Policy, balance: nat, now: nat, amount: nat)
    requires p.Cdd? && now >= p.updated && amount <= Allowed(p, balance, now)
    ensures amount * Period(p.seconds) <= Earned(p, balance, now)
  {
    var m, e := Period(p.seconds), Earned(p, balance, now);
    WholeParts(e, m);
    assert amount * m <= (e / m) * m;
  }

  /** Withdrawing in two parts is withdrawing at once: the same is allowed, and the same is left. */
  lemma WithdrawalsAdd(p: Policy, balance: nat, now: nat, x: nat, y: nat)
    requires p.Cdd? && now >= p.updated && now > p.startClaim && p.earned <= balance * Period(p.seconds)
    requires x <= Allowed(p, balance, now) && x <= balance
    ensures x * Period(p.seconds) <= Earned(p, balance, now)
    ensures var q := Spent(p, balance, now, x);
            && Allowed(q, balance - x, now) == Allowed(p, balance, now) - x
            && (x + y <= Allowed(p, balance, now) ==>
                  && y * Period(p.seconds) <= Earned(q, balance - x, now)
                  && (x + y) * Period(p.seconds) <= Earned(p, balance, now)
                  && Spent(q, balance - x, now, y) == Spent(p, balance, now, x + y))
  {
    var m, e := Period(p.seconds), Earned(p, balance, now);
    AllowedIsEarned(p, balance, now, x);
    var q := Spent(p, balance, now, x);
    assert (balance - x) * m == balance * m - x * m;
    assert (balance - x) * 0 == 0;
    assert Earned(q, balance - x, now) == e - x * m;
    assert (e - x * m) / m == e / m - x by { DivMinus(e, x, m); }
    if x + y <= Allowed(p, balance, now) {
      AllowedIsEarned(p, balance, now, x + y);
      assert (x + y) * m == x * m + y * m;
    }
  }

  lemma DivMinus(e: nat, x: nat, m: nat)
    requires m > 0 && x * m <= e
    ensures (e - x * m) / m == e / m - x
  {
    var q, r := e / m, (e - x * m) / m;
    assert e == m * q + e % m && e - x * m == m * r + (e - x * m) % m;
    assert m * (q - x) == m * q - x * m;
    MulStep(r, q - x, m);
    MulStep(q - x, r, m);
  }

  /** A deposit into a linear balance that nothing was withdrawn from: all of it can be withdrawn too early. */
  lemma LinearDepositVestsEarly()
    ensures var p := Linear(0, 0, 10, 100);
            && Consistent(p, 100, 0) && !Consistent(Touched(p, 100, 0), 150, 0)
            && Vested(p, 1) == 10 && Allowed(p, 150, 1) == 60
  {
  }

  // --------------------------------------------------------------------------------------------------------------
  // The object.

  class VestingBalance {
    var balance: nat
    var policy: Policy
    ghost var clock: nat

    ghost predicate Valid()
      reads this
    {
      Consistent(policy, balance, clock)
    }

    /** A new balance with coin-days: nothing has been earned yet. */
    constructor Coins(amount: nat, seconds: nat, startClaim: nat, now: nat)
      ensures Valid() && balance == amount && policy == Cdd(seconds, 0, startClaim, now) && clock == now
    {
      balance, policy, clock := amount, Cdd(seconds, 0, startClaim, now), now;
    }

    constructor Stock(amount: nat, begin: nat, cliff: nat, duration: nat, now: nat)
      ensures Valid() && balance == amount && policy == Linear(begin, cliff, duration, amount) && clock == now
    {
      balance, policy, clock := amount, Linear(begin, cliff, duration, amount), now;
    }

    /** deposit: the new funds have to vest. Nothing guards a linear balance, although its documentation says that no
        funds may be added to it: it stays consistent if and only if it ends up with no more than it began with. */
    method Deposit(now: nat, amount: nat)
      requires Valid() && now >= clock
      modifies this
      ensures balance == old(balance) + amount && clock == now
      ensures policy == Touched(old(policy), old(balance), now)
      ensures Valid() <==> (policy.Linear? ==> balance <= policy.beginBalance)
      ensures policy.Cdd? ==> Allowed(policy, balance, now) == Allowed(old(policy), old(balance), now)
    {
      if policy.Cdd? { EarnedAfter(policy, balance, amount, now, 0); }
      policy := Touched(policy, balance, now);
      ghost var m := if policy.Cdd? then Period(policy.seconds) else 1;
      assert (balance + amount) * m == balance * m + amount * m;
      if policy.Linear? { VestedGrows(policy, clock, now); }
      balance, clock := balance + amount, now;
    }

    /** deposit_vested: the new funds can be withdrawn at once. It throws for a linear balance. */
    method DepositVested(now: nat, amount: nat) returns (ok: bool)
      requires Valid() && now >= clock
      modifies this
      ensures Valid() && (ok <==> old(policy).Cdd?)
      ensures !ok ==> balance == old(balance) && policy == old(policy) && clock == old(clock)
      ensures ok ==> && balance == old(balance) + amount && policy.Cdd? && policy.updated == now && clock == now
                     && policy.earned == Earned(old(policy), old(balance), now) + amount * Period(policy.seconds)
                     && policy == old(policy).(earned := policy.earned, updated := now)
      ensures ok && now > policy.startClaim ==>
                Allowed(policy, balance, now) == Allowed(old(policy), old(balance), now) + amount
    {
      if policy.Linear? {
        return false;
      }
      AddingCoins(policy, balance, now, amount);
      EarnedAfter(policy, balance, amount, now, amount);
      policy := Touched(policy, balance, now);
      policy := policy.(earned := policy.earned + amount * Period(policy.seconds));
      assert (balance + amount) * Period(policy.seconds) ==
                balance * Period(policy.seconds) + amount * Period(policy.seconds);
      balance, clock := balance + amount, now;
      return true;
    }

    /** The withdrawal operation: refused if the policy does not allow it. */
    method Withdraw(now: nat, amount: nat) returns (ok: bool)
      requires Valid() && now >= clock
      modifies this
      ensures Valid() && (ok <==> amount <= Allowed(old(policy), old(balance), now))
      ensures !ok ==> balance == old(balance) && policy == old(policy) && clock == old(clock)
      ensures ok ==> && balance == old(balance) - amount && clock == now
                     && (old(policy).Cdd? ==>
                           amount * Period(old(policy).seconds) <= Earned(old(policy), old(balance), now))
                     && policy == Spent(old(policy), old(balance), now, amount)
      ensures ok ==> Allowed(policy, balance, now) == Allowed(old(policy), old(balance), now) - amount
    {
      if amount > Allowed(policy, balance, now) {
        return false;
      }
      AllowedWithinBalance(policy, balance, clock, now);
      if policy.Cdd? {
        if now > policy.startClaim { WithdrawalsAdd(policy, balance, now, amount, 0); }
        AllowedIsEarned(policy, balance, now, amount);
        assert (balance - amount) * Period(policy.seconds) ==
                  balance * Period(policy.seconds) - amount * Period(policy.seconds);
      } else {
        VestedGrows(policy, clock, now);
      }
      policy := Spent(policy, balance, now, amount);
      balance, clock := balance - amount, now;
      return true;
    }
  }

  datatype Event =
    | Depositing(at: nat, amount: nat)
    | DepositingVested(at: nat, amount: nat)
    | Withdrawing(at: nat, amount: nat)

  predicate EventsInOrder(from: nat, events: seq<Event>) {
    forall i :: 0 <= i < |events| ==> from <= events[i].at && (i > 0 ==> events[i - 1].at <= events[i].at)
  }

  /** Over every run of deposits and attempted withdrawals a coin-day balance has never earned more than the whole of
      it, and holds what was deposited and not withdrawn; all of that can be withdrawn one period after the last
      change. */
  method Run(v: VestingBalance, events: seq<Event>) returns (deposited: nat, withdrawn: nat)
    requires v.Valid() && v.policy.Cdd? && EventsInOrder(v.clock, events)
    modifies v
    ensures v.Valid() && v.policy.Cdd? && v.policy.earned <= v.balance * Period(v.policy.seconds)
    ensures v.balance == old(v.balance) + deposited - withdrawn
    ensures withdrawn <= old(v.balance) + deposited
    ensures v.policy == old(v.policy).(earned := v.policy.earned, updated := v.policy.updated)
    ensures v.policy.updated <= v.clock <= if events == [] then old(v.clock) else events[|events| - 1].at
    ensures forall now :: now >= v.clock + Period(v.policy.seconds) && now > v.policy.startClaim ==>
              Allowed(v.policy, v.balance, now) == v.balance
  {
    deposited, withdrawn := 0, 0;
    for i := 0 to |events|
      invariant v.Valid() && v.policy.Cdd?
      invariant i < |events| ==> v.clock <= events[i].at
      invariant v.balance == old(v.balance) + deposited - withdrawn
      invariant v.policy == old(v.policy).(earned := v.policy.earned, updated := v.policy.updated)
      invariant v.clock <= if i == 0 then old(v.clock) else events[i - 1].at
    {
      assert i + 1 < |events| ==> events[i].at <= events[i + 1].at;
      match events[i]
      case Depositing(at, amount) =>
        v.Deposit(at, amount);
        deposited := deposited + amount;
      case DepositingVested(at, amount) =>
        var _ := v.DepositVested(at, amount);
        deposited := deposited + amount;
      case Withdrawing(at, amount) =>
        var ok := v.Withdraw(at, amount);
        if ok {
          withdrawn := withdrawn + amount;
        }
    }
    forall now | now >= v.clock + Period(v.policy.seconds) && now > v.policy.startClaim
      ensures Allowed(v.policy, v.balance, now) == v.balance
    {
      FullPeriodVestsAll(v.policy, v.balance, now);
    }
  }
}
