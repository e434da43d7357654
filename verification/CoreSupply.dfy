/** The supply of the core asset: fees, worker and witness pay, and the budget. Every step changes the supply exactly as
    it changes what is held. */
module CoreSupply {
  import opened Arithmetic
  import opened Common
  import opened Sums
  import V = Vesting

  const NULL_ACCOUNT: AccountId := 3
  const TEMP_ACCOUNT: AccountId := 4
  const CYCLE_RATE: nat := 17
  const CYCLE_RATE_UNIT: nat := 0x1_0000_0000
  const DAY: nat := 86400

  /** The accounts of the chain itself: committee, witnesses, relaxed committee, null and temp. */
  predicate ChainAccount(a: AccountId) { a <= TEMP_ACCOUNT }

  datatype Kind = General | EscrowFee | PublisherFee | FounderSale | ReferrerSale

  datatype Deposit = Deposit(owner: AccountId, kind: Kind, balance: nat, policy: V.Policy)

  datatype Account = Account(referrer: AccountId, registrar: AccountId, networkPercent: nat, referrerPercent: nat)

  /** What happens to a worker's pay: it goes back to the reserve, vests, or is sent to the null account. */
  datatype Payee = Refund | Vest(id: nat) | Burn

  datatype Worker = Worker(active: bool, votes: nat, dailyPay: nat, payee: Payee)

  /** cut_fee */
  function CutFee(a: nat, percent: nat): (cut: nat)
    ensures percent <= HUNDRED_PERCENT ==> cut <= a
    ensures cut == a * percent / HUNDRED_PERCENT
    ensures cut * HUNDRED_PERCENT <= a * percent < (cut + 1) * HUNDRED_PERCENT
  {
    Portion(a, percent);
    if a == 0 || percent == 0 then 0
    else if percent == HUNDRED_PERCENT then a
    else a * percent / HUNDRED_PERCENT
  }

  /** Of a fee of `total`, the network's cut aside, the referrer's part and the rest. */
  function ReferrerCut(a: Account, total: nat): nat
    requires a.networkPercent <= HUNDRED_PERCENT
  {
    CutFee(total - CutFee(total, a.networkPercent), a.referrerPercent)
  }

  function RegistrarCut(a: Account, total: nat): nat
    requires a.networkPercent <= HUNDRED_PERCENT && a.referrerPercent <= HUNDRED_PERCENT
  {
    total - CutFee(total, a.networkPercent) - ReferrerCut(a, total)
  }

  /** What account `o` gets of a fee paid by `a`; the accounts of the chain get nothing. */
  function Cashback(a: Account, total: nat, o: AccountId): nat
    requires a.networkPercent <= HUNDRED_PERCENT && a.referrerPercent <= HUNDRED_PERCENT
  {
    if ChainAccount(o) then 0
    else
      (if o == a.referrer then ReferrerCut(a, total) else 0)
      + (if o == a.registrar then RegistrarCut(a, total) else 0)
  }

  /** Who gets what of a fee: the network its percentage, the referrer its percentage of the rest, and the registrar
      what is then left; nobody else gets anything. */
  lemma FeeShares(a: Account, total: nat)
    requires a.networkPercent <= HUNDRED_PERCENT && a.referrerPercent <= HUNDRED_PERCENT
    ensures var network := CutFee(total, a.networkPercent);
            var rest := total - network;
            && network * HUNDRED_PERCENT <= total * a.networkPercent < (network + 1) * HUNDRED_PERCENT
            && (!ChainAccount(a.referrer) && a.referrer != a.registrar ==>
                  var cut := Cashback(a, total, a.referrer);
                  && cut * HUNDRED_PERCENT <= rest * a.referrerPercent < (cut + 1) * HUNDRED_PERCENT
                  && (!ChainAccount(a.registrar) ==> cut + Cashback(a, total, a.registrar) == rest))
            && (!ChainAccount(a.referrer) && a.referrer == a.registrar ==> Cashback(a, total, a.referrer) == rest)
            && forall o: AccountId {:trigger Cashback(a, total, o)} ::
                 ChainAccount(o) || (o != a.referrer && o != a.registrar) ==> Cashback(a, total, o) == 0
  {
  }

  lemma NothingToCut(a: Account, v: map<nat, Deposit>, seconds: nat, now: nat)
    requires a.networkPercent <= HUNDRED_PERCENT && a.referrerPercent <= HUNDRED_PERCENT
    ensures CutFee(0, a.networkPercent) == 0 && forall o: AccountId :: Cashback(a, 0, o) == 0
    ensures FeesShared(v, v, a, 0, 0, seconds, now)
  {
    assert ReferrerCut(a, 0) == 0 && RegistrarCut(a, 0) == 0;
    hide ReferrerCut, RegistrarCut;
    SharedBy(v, v, v, a, 0, true, seconds, now);
    SharedBy(v, v, v, a, 0, false, seconds, now);
    BothShared(v, v, v, a, 0, 0, seconds, now);
  }

  lemma Portion(a: nat, percent: nat)
    ensures percent <= HUNDRED_PERCENT ==> a * percent / HUNDRED_PERCENT <= a
    ensures a * HUNDRED_PERCENT / HUNDRED_PERCENT == a
  {
    if percent <= HUNDRED_PERCENT {
      assert a * percent <= a * HUNDRED_PERCENT;
    }
  }

  function Amount(): (AccountId, nat) -> int { (k: AccountId, v: nat) => v }

  function DepositIn(): (nat, Deposit) -> int { (k: nat, d: Deposit) => d.balance }

  function DepositOf(o: AccountId): (nat, Deposit) -> int {
    (k: nat, d: Deposit) => if d.owner == o then d.balance else 0
  }

  function Entry(m: map<AccountId, nat>, k: AccountId): nat { if k in m then m[k] else 0 }

  /** A vesting balance that further pay for `owner` can be added to. */
  predicate Reusable(vesting: map<nat, Deposit>, id: Option<nat>, owner: AccountId, seconds: nat, kind: Kind) {
    && id.Some? && id.value in vesting
    && var d := vesting[id.value];
       d.owner == owner && d.policy.Cdd? && d.policy.seconds == seconds && d.kind == kind
  }

  datatype Step =
    | Fee(who: AccountId, fee: nat, threshold: nat)
    | PayOut(who: AccountId)
    | Split(id: nat, buyback: nat, issuer: nat, recipients: Option<(AccountId, AccountId)>)
    | Sign(signer: AccountId, perBlock: nat)
    | Budget(toMaintenance: nat, interval: nat, perBlock: nat, perDay: nat)
    | Pass(seconds: nat)
    | FbaFee(who: AccountId, fee: nat, threshold: nat, id: nat, configured: bool)
    | Hire(w: nat, owner: AccountId, dailyPay: nat, kind: Payee, days: nat)
    | Vote(w: nat, active: bool, votes: nat)

  /** What a treasury begins with. */
  datatype Genesis = Genesis(
    balances: map<AccountId, nat>,
    vesting: map<nat, Deposit>,
    nextVesting: nat,
    fba: map<nat, nat>,
    accounts: map<AccountId, Account>,
    workers: map<nat, Worker>,
    maxSupply: nat,
    now: nat,
    cashbackPeriod: nat,
    witnessPeriod: nat)
  {
    /** All that has been handed out. */
    ghost function Tally(): int {
      SumBy(balances, Amount()) + SumBy(vesting, DepositIn()) + SumBy(fba, Amount())
    }

    ghost predicate Valid() {
      && DepositsGood(vesting, nextVesting, now) && Tally() <= maxSupply
      && PercentagesGood(accounts) && PayeesReady(workers, vesting)
    }
  }

  ghost predicate PercentagesGood(accounts: map<AccountId, Account>) {
    forall a :: a in accounts ==> accounts[a].networkPercent <= HUNDRED_PERCENT
                                  && accounts[a].referrerPercent <= HUNDRED_PERCENT
  }

  /** Workers that are paid into vesting balances have one. */
  ghost predicate PayeesReady(workers: map<nat, Worker>, vesting: map<nat, Deposit>) {
    forall w :: w in workers && workers[w].payee.Vest? ==>
                  workers[w].payee.id in vesting && vesting[workers[w].payee.id].policy.Cdd?
  }

  /** A worker with a vesting balance, and the three accumulators, none of them with anything in it. */
  lemma GenesisExists() returns (g: Genesis)
    ensures g.Valid() && g.Tally() == 1000 && g.fba == map[0 := 0, 1 := 0, 2 := 0]
    ensures 0 in g.workers && g.workers[0].payee == Vest(0)
  {
    var balances: map<AccountId, nat> := map[7 := 1000];
    var vesting: map<nat, Deposit> := map[0 := Deposit(7, General, 0, V.Cdd(0, 0, 0, 0))];
    var fba: map<nat, nat> := map[0 := 0, 1 := 0, 2 := 0];
    g := Genesis(balances, vesting, 1, fba, map[], map[0 := Worker(true, 0, 5, Vest(0))], 1000, 0, 0, 0);
    SumPut<AccountId, nat>(map[], Amount(), 7, 1000);
    assert balances == map[][7 := 1000];
    SumZero(vesting, DepositIn());
    SumZero(fba, Amount());
  }

  /** All that paying workers can change. */
  datatype Purse = Purse(supply: int, balances: map<AccountId, nat>, vesting: map<nat, Deposit>)

  /** One worker has been paid: from the reserve back to the reserve, into a vesting balance, or to the null account. */
  ghost predicate PaidTo(p: Purse, p': Purse, payee: Payee, pay: nat) {
    && p'.supply == p.supply - (if payee.Refund? then pay else 0)
    && p'.balances == (if payee.Burn? then p.balances[NULL_ACCOUNT := Entry(p.balances, NULL_ACCOUNT) + pay]
                       else p.balances)
    && (if payee.Vest? then && payee.id in p.vesting && payee.id in p'.vesting
                            && p'.vesting == p.vesting[payee.id := p'.vesting[payee.id]]
                            && p'.vesting[payee.id].owner == p.vesting[payee.id].owner
                            && p'.vesting[payee.id].balance == p.vesting[payee.id].balance + pay
        else p'.vesting == p.vesting)
  }

  /** Of what the workers were paid, the part that went to `payee`. */
  ghost function To(workers: map<nat, Worker>, payee: Payee): (nat, nat) -> int {
    (w: nat, pay: nat) => if w in workers && workers[w].payee == payee then pay else 0
  }

  ghost function Received(workers: map<nat, Worker>, paid: map<nat, nat>, payee: Payee): int {
    SumBy(paid, To(workers, payee))
  }

  /** Every payee has received what its workers were paid, and nothing else has changed. */
  ghost predicate Disbursed(workers: map<nat, Worker>, paid: map<nat, nat>, p: Purse, p': Purse) {
    && p'.supply == p.supply - Received(workers, paid, Refund)
    && (forall o :: Entry(p'.balances, o) ==
                      Entry(p.balances, o) + if o == NULL_ACCOUNT then Received(workers, paid, Burn) else 0)
    && VestedForWork(workers, paid, p.vesting, p'.vesting)
  }

  ghost predicate VestedForWork(workers: map<nat, Worker>, paid: map<nat, nat>, v: map<nat, Deposit>,
                                v': map<nat, Deposit>) {
    && v'.Keys == v.Keys
    && forall id :: id in v ==> && v'[id].owner == v[id].owner
                                && v'[id].balance == v[id].balance + Received(workers, paid, Vest(id))
  }

  lemma {:induction false} ReceivedNonNegative(workers: map<nat, Worker>, paid: map<nat, nat>, payee: Payee)
    ensures Received(workers, paid, payee) >= 0
  {
    SumNonNegative(paid, To(workers, payee));
  }

  lemma SupplyFalls(workers: map<nat, Worker>, paid: map<nat, nat>, p: Purse, p': Purse)
    requires Disbursed(workers, paid, p, p')
    ensures p'.supply <= p.supply
  {
    ReceivedNonNegative(workers, paid, Refund);
  }

  lemma NothingDisbursed(workers: map<nat, Worker>, p: Purse)
    ensures Disbursed(workers, map[], p, p)
  {
    assert forall payee: Payee :: Received(workers, map[], payee) == 0;
  }

  lemma ReceivedMore(workers: map<nat, Worker>, paid: map<nat, nat>, w: nat, pay: nat, payee: Payee)
    requires w in workers && w !in paid
    ensures Received(workers, paid[w := pay], payee) ==
            Received(workers, paid, payee) + if workers[w].payee == payee then pay else 0
  {
    SumPut(paid, To(workers, payee), w, pay);
    hide SumBy;
  }

  lemma DisbursedMore(workers: map<nat, Worker>, paid: map<nat, nat>, p: Purse, p': Purse, p'': Purse, w: nat, pay: nat)
    requires w in workers && w !in paid
    requires Disbursed(workers, paid, p, p') && PaidTo(p', p'', workers[w].payee, pay)
    ensures Disbursed(workers, paid[w := pay], p, p'')
  {
    ReceivedMore(workers, paid, w, pay, Refund);
    ReceivedMore(workers, paid, w, pay, Burn);
    MoreVestedForWork(workers, paid, p, p', p'', w, pay);
    hide Received, VestedForWork;
  }

  lemma MoreVestedForWork(workers: map<nat, Worker>, paid: map<nat, nat>, p: Purse, p': Purse, p'': Purse, w: nat,
                          pay: nat)
    requires w in workers && w !in paid
    requires VestedForWork(workers, paid, p.vesting, p'.vesting) && PaidTo(p', p'', workers[w].payee, pay)
    ensures VestedForWork(workers, paid[w := pay], p.vesting, p''.vesting)
  {
    hide Received;
    forall id | id in p.vesting ensures p''.vesting[id].owner == p.vesting[id].owner
        && p''.vesting[id].balance == p.vesting[id].balance + Received(workers, paid[w := pay], Vest(id))
    {
      ReceivedMore(workers, paid, w, pay, Vest(id));
    }
  }

  /** Vesting balance `id` has grown by `amount`, or begun with it; funds that need not vest are earned at once. */
  ghost predicate Added(v: map<nat, Deposit>, v': map<nat, Deposit>, id: nat, owner: AccountId, amount: nat,
                        mustVest: bool, seconds: nat, kind: Kind, now: nat) {
    && id in v' && v' == v[id := v'[id]]
    && if id !in v then
         v'[id] == Deposit(owner, kind, amount, V.Cdd(seconds, if mustVest then 0 else amount * seconds, 0, now))
       else && Reusable(v, Some(id), owner, seconds, kind) && v[id].policy.updated <= now
            && var p := v[id].policy;
               var earned := V.Earned(p, v[id].balance, now) + if mustVest then 0 else amount * V.Period(seconds);
               v'[id] == v[id].(balance := v[id].balance + amount, policy := p.(earned := earned, updated := now))
  }

  /** Of what is added, all can be withdrawn at once if it need not vest, and nothing if it must. */
  lemma AddedCanBeWithdrawn(v: map<nat, Deposit>, v': map<nat, Deposit>, id: nat, owner: AccountId, amount: nat,
                            mustVest: bool, seconds: nat, kind: Kind, now: nat)
    requires Added(v, v', id, owner, amount, mustVest, seconds, kind, now)
    requires id in v ==> V.Consistent(v[id].policy, v[id].balance, now) && now > v[id].policy.startClaim
    requires id !in v ==> seconds > 0 && now > 0
    ensures v'[id].policy.Cdd? && v'[id].policy.updated <= now && v'[id].owner == owner
    ensures V.Allowed(v'[id].policy, v'[id].balance, now) ==
            (if id in v then V.Allowed(v[id].policy, v[id].balance, now) else 0) + if mustVest then 0 else amount
  {
    if id in v {
      V.AddingCoins(v[id].policy, v[id].balance, now, if mustVest then 0 else amount);
      V.EarnedAfter(v[id].policy, v[id].balance, amount, now, if mustVest then 0 else amount);
    } else {
      V.NewCoins(amount, seconds, now, mustVest);
    }
  }

  ghost predicate Deposited(v: map<nat, Deposit>, v': map<nat, Deposit>, owner: AccountId, amount: nat, mustVest: bool,
                            seconds: nat, kind: Kind, now: nat) {
    if amount == 0 then v' == v else exists id :: Added(v, v', id, owner, amount, mustVest, seconds, kind, now)
  }

  /** The cashback of `who` has gone to one of its vesting balances; there is none for the accounts of the chain. */
  ghost predicate CashedBack(v: map<nat, Deposit>, v': map<nat, Deposit>, who: AccountId, amount: nat, mustVest: bool,
                             seconds: nat, kind: Kind, now: nat) {
    if ChainAccount(who) then v' == v else Deposited(v, v', who, amount, mustVest, seconds, kind, now)
  }

  /** A fee has been shared between referrer and registrar. */
  ghost predicate Shared(v: map<nat, Deposit>, v': map<nat, Deposit>, a: Account, total: nat, mustVest: bool,
                         seconds: nat, now: nat)
    requires a.networkPercent <= HUNDRED_PERCENT && a.referrerPercent <= HUNDRED_PERCENT
  {
    exists mid :: && CashedBack(v, mid, a.referrer, ReferrerCut(a, total), mustVest, seconds, General, now)
                  && CashedBack(mid, v', a.registrar, RegistrarCut(a, total), mustVest, seconds, General, now)
  }

  /** First the fees that have to vest, then the others. */
  ghost predicate FeesShared(v: map<nat, Deposit>, v': map<nat, Deposit>, a: Account, toVest: nat, vested: nat,
                             seconds: nat, now: nat)
    requires a.networkPercent <= HUNDRED_PERCENT && a.referrerPercent <= HUNDRED_PERCENT
  {
    exists mid :: Shared(v, mid, a, toVest, true, seconds, now) && Shared(mid, v', a, vested, false, seconds, now)
  }

  lemma BothShared(v: map<nat, Deposit>, mid: map<nat, Deposit>, v': map<nat, Deposit>, a: Account, toVest: nat,
                   vested: nat, seconds: nat, now: nat)
    requires a.networkPercent <= HUNDRED_PERCENT && a.referrerPercent <= HUNDRED_PERCENT
    requires Shared(v, mid, a, toVest, true, seconds, now) && Shared(mid, v', a, vested, false, seconds, now)
    ensures FeesShared(v, v', a, toVest, vested, seconds, now)
  {
    hide Shared;
  }

  lemma SharedBy(v: map<nat, Deposit>, mid: map<nat, Deposit>, v': map<nat, Deposit>, a: Account, total: nat,
                 mustVest: bool, seconds: nat, now: nat)
    requires a.networkPercent <= HUNDRED_PERCENT && a.referrerPercent <= HUNDRED_PERCENT
    requires CashedBack(v, mid, a.referrer, ReferrerCut(a, total), mustVest, seconds, General, now)
    requires CashedBack(mid, v', a.registrar, RegistrarCut(a, total), mustVest, seconds, General, now)
    ensures Shared(v, v', a, total, mustVest, seconds, now)
  {
    hide CashedBack, ReferrerCut, RegistrarCut;
  }

  class Treasury {
    var supply: int
    var maxSupply: int
    var fees: nat
    var witnessBudget: nat
    var balances: map<AccountId, nat>
    var vesting: map<nat, Deposit>
    var nextVesting: nat
    var pending: map<AccountId, nat>
    var pendingVested: map<AccountId, nat>
    var fba: map<nat, nat>
    var accounts: map<AccountId, Account>
    var cashback: map<(AccountId, Kind), nat>
    var witnessPay: map<AccountId, nat>
    var workers: map<nat, Worker>
    var now: nat
    var lastBudget: nat
    var cashbackPeriod: nat
    var witnessPeriod: nat

    /** A treasury to begin with: the supply is what has been handed out. */
    constructor (g: Genesis)
      requires g.Valid()
      ensures Valid() && supply == g.Tally() <= maxSupply == g.maxSupply && Elsewhere() == 0
      ensures balances == g.balances && vesting == g.vesting && nextVesting == g.nextVesting && fba == g.fba
      ensures accounts == g.accounts && workers == g.workers && now == g.now
      ensures cashbackPeriod == g.cashbackPeriod && witnessPeriod == g.witnessPeriod
    {
      balances, vesting, nextVesting, fba := g.balances, g.vesting, g.nextVesting, g.fba;
      accounts, workers, maxSupply, now := g.accounts, g.workers, g.maxSupply, g.now;
      cashbackPeriod, witnessPeriod := g.cashbackPeriod, g.witnessPeriod;
      fees, witnessBudget, pending, pendingVested, cashback, witnessPay, lastBudget := 0, 0, map[], map[], map[],
        map[], 0;
      new;
      var inBalances := Total(balances);
      var inVesting := TotalDeposits(vesting);
      var inFba := Total(fba);
      supply := inBalances + inVesting + inFba;
    }

    /** Everything the chain itself keeps of the core asset. */
    ghost function Holdings(): int
      reads this`balances, this`vesting, this`pending, this`pendingVested, this`fba, this`fees, this`witnessBudget
    {
      SumBy(balances, Amount()) + SumBy(vesting, DepositIn()) + SumBy(pending, Amount())
      + SumBy(pendingVested, Amount()) + SumBy(fba, Amount()) + fees + witnessBudget
    }

    /** What the supply has that is kept elsewhere, in orders for example. */
    ghost function Elsewhere(): int
      reads this
    {
      supply - Holdings()
    }

    ghost function VestedTo(o: AccountId): int
      reads this`vesting
    {
      SumBy(vesting, DepositOf(o))
    }

    ghost function Funds(): Purse
      reads this`supply, this`balances, this`vesting
    {
      Purse(supply, balances, vesting)
    }

    ghost predicate Valid()
      reads this
    {
      && DepositsGood(vesting, nextVesting, now)
      && PercentagesGood(accounts) && PayeesReady(workers, vesting)
      && lastBudget <= now
    }

    // ------------------------------------------------------------------------------------------------------------
    // Elementary steps.

    method Credit(who: AccountId, amount: nat)
      modifies this`balances
      ensures balances == old(balances)[who := Entry(old(balances), who) + amount]
      ensures Holdings() == old(Holdings()) + amount
    {
      SumPut<AccountId, nat>(balances, Amount(), who, Entry(balances, who) + amount);
      balances := balances[who := Entry(balances, who) + amount];
    }

    /** deposit_lazy_vesting: adds to the given vesting balance if it suits, and otherwise starts a new one. */
    method DepositLazyVesting(current: Option<nat>, amount: nat, seconds: nat, owner: AccountId, mustVest: bool,
                              kind: Kind)
      returns (created: Option<nat>)
      requires Valid()
      modifies this`vesting, this`nextVesting
      ensures Valid() && Holdings() == old(Holdings()) + amount
      ensures forall o: AccountId {:trigger VestedTo(o)} ::
                VestedTo(o) == old(VestedTo(o)) + if o == owner then amount else 0
      ensures amount == 0 ==> created.None? && vesting == old(vesting)
      ensures Deposited(old(vesting), vesting, owner, amount, mustVest, seconds, kind, now)
      ensures amount > 0 ==>
                var reuse := Reusable(old(vesting), current, owner, seconds, kind);
                var id := if reuse then current.value else old(nextVesting);
                && created == (if reuse then None else Some(id)) && Reusable(vesting, Some(id), owner, seconds, kind)
                && Added(old(vesting), vesting, id, owner, amount, mustVest, seconds, kind, now)
    {
      if amount == 0 {
        return None;
      }
      hide Holdings, SumBy, Added, V.Consistent;
      if Reusable(vesting, current, owner, seconds, kind) {
        AddToVesting(current.value, amount, mustVest);
        return None;
      }
      var id := StartVesting(amount, seconds, owner, mustVest, kind);
      return Some(id);
    }

    method StartVesting(amount: nat, seconds: nat, owner: AccountId, mustVest: bool, kind: Kind) returns (id: nat)
      requires Valid()
      modifies this`vesting, this`nextVesting
      ensures Valid() && Holdings() == old(Holdings()) + amount
      ensures forall o: AccountId {:trigger VestedTo(o)} ::
                VestedTo(o) == old(VestedTo(o)) + if o == owner then amount else 0
      ensures id == old(nextVesting) && id !in old(vesting)
      ensures Added(old(vesting), vesting, id, owner, amount, mustVest, seconds, kind, now)
    {
      hide Holdings, SumBy, V.Consistent;
      id := nextVesting;
      var earned := if mustVest then 0 else amount * seconds;
      NewDepositWithin(amount, seconds, now);
      nextVesting := nextVesting + 1;
      PutDeposit(id, Deposit(owner, kind, amount, V.Cdd(seconds, earned, 0, now)));
    }

    /** vesting_balance_object::deposit and deposit_vested on a coin-day balance. */
    method AddToVesting(id: nat, amount: nat, mustVest: bool)
      requires DepositsGood(vesting, nextVesting, now) && id in vesting && vesting[id].policy.Cdd?
      modifies this`vesting
      ensures DepositsGood(vesting, nextVesting, now) && Holdings() == old(Holdings()) + amount
      ensures forall o: AccountId {:trigger VestedTo(o)} ::
                VestedTo(o) == old(VestedTo(o)) + if o == old(vesting)[id].owner then amount else 0
      ensures id in vesting && vesting[id].policy.Cdd? && vesting == old(vesting)[id := vesting[id]]
      ensures var d := old(vesting)[id];
              Added(old(vesting), vesting, id, d.owner, amount, mustVest, d.policy.seconds, d.kind, now)
    {
      hide Holdings, SumBy;
      var d := vesting[id];
      var policy := V.Touched(d.policy, d.balance, now);
      if !mustVest {
        policy := policy.(earned := policy.earned + amount * V.Period(policy.seconds));
      }
      DepositGrows(d.balance, amount, V.Period(policy.seconds));
      PutDeposit(id, d.(balance := d.balance + amount, policy := policy));
    }

    /** Replaces a vesting balance, or adds one. */
    method PutDeposit(id: nat, d: Deposit)
      requires DepositsGood(vesting, nextVesting, now) && id < nextVesting && V.Consistent(d.policy, d.balance, now)
      modifies this`vesting
      ensures vesting == old(vesting)[id := d] && DepositsGood(vesting, nextVesting, now)
      ensures Holdings() == old(Holdings()) + d.balance - if id in old(vesting) then old(vesting)[id].balance else 0
      ensures forall o: AccountId {:trigger VestedTo(o)} ::
                VestedTo(o) == old(VestedTo(o)) + (if d.owner == o then d.balance else 0)
                               - if id in old(vesting) && old(vesting)[id].owner == o
                                 then old(vesting)[id].balance else 0
    {
      SumPut(vesting, DepositIn(), id, d);
      forall o: AccountId {
        SumPut(vesting, DepositOf(o), id, d);
      }
      hide SumBy;
      vesting := vesting[id := d];
    }

    /** deposit_cashback: the accounts of the chain get nothing, what they would get leaves the supply. */
    method DepositCashback(who: AccountId, amount: nat, mustVest: bool, kind: Kind)
      requires Valid()
      modifies this`vesting, this`nextVesting, this`cashback, this`supply
      ensures Valid() && Elsewhere() == old(Elsewhere()) - amount
      ensures supply == old(supply) - (if who <= TEMP_ACCOUNT then amount else 0)
      ensures CashedBack(old(vesting), vesting, who, amount, mustVest, cashbackPeriod, kind, now)
      ensures if amount == 0 || ChainAccount(who) then cashback == old(cashback)
              else && (who, kind) in cashback && cashback == old(cashback)[(who, kind) := cashback[(who, kind)]]
                   && Reusable(vesting, Some(cashback[(who, kind)]), who, cashbackPeriod, kind)
      ensures forall o: AccountId {:trigger VestedTo(o)} ::
                VestedTo(o) == old(VestedTo(o)) + if o == who && !ChainAccount(who) then amount else 0
    {
      hide Holdings, SumBy;
      if amount == 0 {
        return;
      }
      if ChainAccount(who) {
        supply := supply - amount;
        return;
      }
      var current := if (who, kind) in cashback then Some(cashback[(who, kind)]) else None;
      var created := DepositLazyVesting(current, amount, cashbackPeriod, who, mustVest, kind);
      if created.Some? {
        cashback := cashback[(who, kind) := created.value];
      }
    }

    // ------------------------------------------------------------------------------------------------------------
    // Fees.

    /** Fees are charged to a balance, and wait for maintenance; small ones will not have to vest. */
    method PayFee(who: AccountId, fee: nat, threshold: nat) returns (ok: bool)
      modifies this`balances, this`pending, this`pendingVested
      ensures ok <==> fee <= Entry(old(balances), who)
      ensures !ok ==> balances == old(balances) && pending == old(pending) && pendingVested == old(pendingVested)
      ensures Holdings() == old(Holdings())
      ensures ok ==> && balances == old(balances)[who := Entry(old(balances), who) - fee]
                     && pending == (if fee > threshold then old(pending)[who := Entry(old(pending), who) + fee]
                                    else old(pending))
                     && pendingVested == (if fee > threshold then old(pendingVested)
                                          else old(pendingVested)[who := Entry(old(pendingVested), who) + fee])
    {
      if fee > Entry(balances, who) {
        return false;
      }
      hide Holdings;
      Debit(who, fee);
      Owe(who, fee, fee > threshold);
      return true;
    }

    /** pay_fba_fee: the fee goes to an accumulator instead, if the asset behind it is set up. */
    method PayFbaFee(who: AccountId, fee: nat, threshold: nat, id: nat, configured: bool) returns (ok: bool)
      requires id in fba
      modifies this`balances, this`pending, this`pendingVested, this`fba
      ensures ok <==> fee <= Entry(old(balances), who)
      ensures balances == if ok then old(balances)[who := Entry(old(balances), who) - fee] else old(balances)
      ensures fba == if ok && configured then old(fba)[id := old(fba)[id] + fee] else old(fba)
      ensures !ok || configured ==> pending == old(pending) && pendingVested == old(pendingVested)
      ensures ok && !configured ==>
                && pending == (if fee > threshold then old(pending)[who := Entry(old(pending), who) + fee]
                               else old(pending))
                && pendingVested == (if fee > threshold then old(pendingVested)
                                     else old(pendingVested)[who := Entry(old(pendingVested), who) + fee])
      ensures Holdings() == old(Holdings())
    {
      if !configured || fee > Entry(balances, who) {
        ok := PayFee(who, fee, threshold);
        return;
      }
      Debit(who, fee);
      assert Holdings() == old(Holdings()) - fee;
      SumPut<nat, nat>(fba, Amount(), id, fba[id] + fee);
      hide SumBy;
      fba := fba[id := fba[id] + fee];
      return true;
    }

    method Debit(who: AccountId, amount: nat)
      requires amount <= Entry(balances, who)
      modifies this`balances
      ensures balances == old(balances)[who := Entry(old(balances), who) - amount]
      ensures Holdings() == old(Holdings()) - amount
    {
      SumPut<AccountId, nat>(balances, Amount(), who, Entry(balances, who) - amount);
      balances := balances[who := Entry(balances, who) - amount];
    }

    /** account_statistics_object::pay_fee */
    method Owe(who: AccountId, fee: nat, mustVest: bool)
      modifies this`pending, this`pendingVested
      ensures Holdings() == old(Holdings()) + fee
      ensures pending == if mustVest then old(pending)[who := Entry(old(pending), who) + fee] else old(pending)
      ensures pendingVested == if mustVest then old(pendingVested)
                               else old(pendingVested)[who := Entry(old(pendingVested), who) + fee]
    {
      hide SumBy;
      if mustVest {
        SumPut<AccountId, nat>(pending, Amount(), who, Entry(pending, who) + fee);
        pending := pending[who := Entry(pending, who) + fee];
      } else {
        SumPut<AccountId, nat>(pendingVested, Amount(), who, Entry(pendingVested, who) + fee);
        pendingVested := pendingVested[who := Entry(pendingVested, who) + fee];
      }
    }

    /** The network takes its share; the referrer and the registrar share the rest. */
    method PayOutFees(a: Account, total: nat, mustVest: bool)
      requires Valid() && a.networkPercent <= HUNDRED_PERCENT && a.referrerPercent <= HUNDRED_PERCENT
      modifies this`fees, this`vesting, this`nextVesting, this`cashback, this`supply
      ensures Valid() && Elsewhere() == old(Elsewhere()) - total
      ensures fees == old(fees) + CutFee(total, a.networkPercent)
      ensures supply == old(supply) - (if ChainAccount(a.referrer) then ReferrerCut(a, total) else 0)
                        - (if ChainAccount(a.registrar) then RegistrarCut(a, total) else 0)
      ensures forall o: AccountId {:trigger VestedTo(o)} :: VestedTo(o) == old(VestedTo(o)) + Cashback(a, total, o)
      ensures Shared(old(vesting), vesting, a, total, mustVest, cashbackPeriod, now)
    {
      hide SumBy;
      var network := CutFee(total, a.networkPercent);
      var referrer, registrar := ReferrerCut(a, total), RegistrarCut(a, total);
      assert network + referrer + registrar == total;
      fees := fees + network;
      assert Elsewhere() == old(Elsewhere()) - network;
      hide Holdings, CashedBack, CutFee, ReferrerCut, RegistrarCut;
      ghost var v := vesting;
      DepositCashback(a.referrer, referrer, mustVest, General);
      ghost var mid := vesting;
      DepositCashback(a.registrar, registrar, mustVest, General);
      SharedBy(v, mid, vesting, a, total, mustVest, cashbackPeriod, now);
    }

    method PayOutBoth(a: Account, toVest: nat, vested: nat)
      requires Valid() && a.networkPercent <= HUNDRED_PERCENT && a.referrerPercent <= HUNDRED_PERCENT
      modifies this`fees, this`vesting, this`nextVesting, this`cashback, this`supply
      ensures Valid() && Elsewhere() == old(Elsewhere()) - toVest - vested && supply <= old(supply)
      ensures fees == old(fees) + CutFee(toVest, a.networkPercent) + CutFee(vested, a.networkPercent)
      ensures forall o: AccountId {:trigger VestedTo(o)} ::
                VestedTo(o) == old(VestedTo(o)) + Cashback(a, toVest, o) + Cashback(a, vested, o)
      ensures FeesShared(old(vesting), vesting, a, toVest, vested, cashbackPeriod, now)
    {
      hide Elsewhere, Cashback, CutFee, ReferrerCut, RegistrarCut, Shared, FeesShared, VestedTo;
      PayOutFees(a, toVest, true);
      ghost var mid := vesting;
      PayOutFees(a, vested, false);
      BothShared(old(vesting), mid, vesting, a, toVest, vested, cashbackPeriod, now);
    }

    /** process_fees: all that is pending for an account is paid out, to the last unit. */
    method ProcessFees(who: AccountId)
      requires Valid() && who in accounts
      modifies this`fees, this`vesting, this`nextVesting, this`cashback, this`supply, this`pending, this`pendingVested
      ensures Valid() && Elsewhere() == old(Elsewhere())
      ensures Entry(pending, who) == 0 && Entry(pendingVested, who) == 0
      ensures forall o :: o != who ==> Entry(pending, o) == Entry(old(pending), o)
                                       && Entry(pendingVested, o) == Entry(old(pendingVested), o)
      ensures var pct := accounts[who].networkPercent;
              fees == old(fees) + CutFee(Entry(old(pending), who), pct) + CutFee(Entry(old(pendingVested), who), pct)
      ensures forall o: AccountId {:trigger VestedTo(o)} ::
                VestedTo(o) == old(VestedTo(o)) + Cashback(accounts[who], Entry(old(pending), who), o)
                               + Cashback(accounts[who], Entry(old(pendingVested), who), o)
      ensures supply <= old(supply)
      ensures FeesShared(old(vesting), vesting, accounts[who], Entry(old(pending), who), Entry(old(pendingVested), who),
                         cashbackPeriod, now)
    {
      hide Holdings, SumBy;
      var a := accounts[who];
      NothingToCut(a, vesting, cashbackPeriod, now);
      hide Cashback, CutFee, ReferrerCut, RegistrarCut, Shared, FeesShared;
      var toVest, vested := Entry(pending, who), Entry(pendingVested, who);
      if toVest > 0 || vested > 0 {
        PayOutBoth(a, toVest, vested);
        ClearPending(who);
      }
    }

    method ClearPending(who: AccountId)
      modifies this`pending, this`pendingVested
      ensures Holdings() == old(Holdings()) - Entry(old(pending), who) - Entry(old(pendingVested), who)
      ensures pending == old(pending)[who := 0] && pendingVested == old(pendingVested)[who := 0]
    {
      SumPut<AccountId, nat>(pending, Amount(), who, 0);
      SumPut<AccountId, nat>(pendingVested, Amount(), who, 0);
      hide SumBy;
      pending, pendingVested := pending[who := 0], pendingVested[who := 0];
    }

    /** split_fba_balance: what a fee-backed asset has accumulated goes to the reserve, to the asset's buyback
        account and to its issuer; all of it to the reserve if the asset is not set up. */
    method SplitFba(id: nat, buybackPercent: nat, issuerPercent: nat, recipients: Option<(AccountId, AccountId)>)
      requires buybackPercent + issuerPercent <= HUNDRED_PERCENT && id in fba
      modifies this`fba, this`supply, this`balances
      ensures Elsewhere() == old(Elsewhere()) && fba == old(fba)[id := 0] && supply <= old(supply)
      ensures var total := old(fba)[id];
              var buyback, issuer := CutFee(total, buybackPercent), CutFee(total, issuerPercent);
              if recipients.None? then supply == old(supply) - total && balances == old(balances)
              else
                && buyback + issuer <= total && supply == old(supply) - (total - buyback - issuer)
                && forall o :: Entry(balances, o) == Entry(old(balances), o)
                                 + (if o == recipients.value.0 then buyback else 0)
                                 + (if o == recipients.value.1 then issuer else 0)
    {
      var total := fba[id];
      SumPut<nat, nat>(fba, Amount(), id, 0);
      hide SumBy, CutFee;
      fba := fba[id := 0];
      assert Holdings() == old(Holdings()) - total;
      hide Holdings;
      if recipients.None? {
        supply := supply - total;
        return;
      }
      var buyback, issuer := CutFee(total, buybackPercent), CutFee(total, issuerPercent);
      TwoPortions(total, buybackPercent, issuerPercent);
      supply := supply - (total - buyback - issuer);
      Credit(recipients.value.0, buyback);
      Credit(recipients.value.1, issuer);
    }

    /** update_signing_witness: the signer of a block is paid from the witness budget, as far as it goes. */
    method PayWitness(signer: AccountId, perBlock: nat) returns (pay: nat)
      requires Valid()
      modifies this`witnessBudget, this`vesting, this`nextVesting, this`witnessPay
      ensures Valid() && Elsewhere() == old(Elsewhere())
      ensures pay == (if perBlock < old(witnessBudget) then perBlock else old(witnessBudget))
      ensures witnessBudget == old(witnessBudget) - pay
      ensures forall o: AccountId {:trigger VestedTo(o)} ::
                VestedTo(o) == old(VestedTo(o)) + if o == signer then pay else 0
      ensures Deposited(old(vesting), vesting, signer, pay, true, witnessPeriod, General, now)
      ensures if pay == 0 then witnessPay == old(witnessPay)
              else && signer in witnessPay && witnessPay == old(witnessPay)[signer := witnessPay[signer]]
                   && Reusable(vesting, Some(witnessPay[signer]), signer, witnessPeriod, General)
    {
      hide SumBy;
      pay := if perBlock < witnessBudget then perBlock else witnessBudget;
      witnessBudget := witnessBudget - pay;
      assert Holdings() == old(Holdings()) - pay;
      hide Holdings, Added, Deposited;
      var current := if signer in witnessPay then Some(witnessPay[signer]) else None;
      var created := DepositLazyVesting(current, pay, witnessPeriod, signer, true, General);
      if created.Some? {
        witnessPay := witnessPay[signer := created.value];
      }
    }

    // ------------------------------------------------------------------------------------------------------------
    // Workers and the budget.

    /** pay_worker, for each kind of worker. */
    method PayWorker(payee: Payee, pay: nat)
      requires Valid() && (payee.Vest? ==> payee.id in vesting && vesting[payee.id].policy.Cdd?)
      modifies this`supply, this`vesting, this`balances
      ensures Valid() && Elsewhere() == old(Elsewhere()) - pay
      ensures PaidTo(old(Funds()), Funds(), payee, pay)
      ensures payee.Vest? && pay > 0 ==>
                var d := old(vesting)[payee.id];
                Added(old(vesting), vesting, payee.id, d.owner, pay, true, d.policy.seconds, d.kind, now)
    {
      hide Holdings;
      match payee
      case Refund => supply := supply - pay;
      case Vest(id) => AddToVesting(id, pay, true);
      case Burn => Credit(NULL_ACCOUNT, pay);
    }

    /** The next worker is paid what the elapsed time calls for, or what is left. */
    method PayNext(rest: set<nat>, elapsed: nat, leftover: nat) returns (w: nat, pay: nat)
      requires Valid() && rest <= workers.Keys && rest != {}
      modifies this`supply, this`vesting, this`balances
      ensures Valid() && Elsewhere() == old(Elsewhere()) - pay
      ensures w in rest && FirstWorker(workers, rest, w) && PaidTo(old(Funds()), Funds(), workers[w].payee, pay)
      ensures var requested := Requested(workers[w].dailyPay, elapsed);
              pay == if leftover < requested then leftover else requested
    {
      hide Elsewhere, FirstWorker, Requested, Valid, PaidTo;
      FirstWorkerExists(workers, rest);
      w :| w in rest && FirstWorker(workers, rest, w);
      var requested := Requested(workers[w].dailyPay, elapsed);
      pay := if leftover < requested then leftover else requested;
      PayeeReady(w);
      PayWorker(workers[w].payee, pay);
    }

    /** pay_workers: the approved workers are paid in order of votes until the budget is used up. */
    method PayWorkers(budget: nat) returns (leftover: nat, paid: map<nat, nat>)
      requires Valid()
      modifies this`supply, this`vesting, this`balances
      ensures Valid() && leftover <= budget && Elsewhere() == old(Elsewhere()) - (budget - leftover)
      ensures Disbursed(workers, paid, old(Funds()), Funds())
      ensures SumBy(paid, Amount()) == budget - leftover
      ensures FairlyPaid(workers, paid, old(Elapsed()), leftover)
    {
      hide SumBy, Elsewhere, InTurn, FairlyPaid, Valid, Eligible, PaidInAll, Disbursed;
      var elapsed: nat := Elapsed();
      NothingPaid(workers, elapsed, budget);
      ghost var rest;
      leftover, paid, rest := PayInTurn(Eligible(workers), elapsed, budget);
      AllTurnsTaken(workers, paid, rest, elapsed, leftover, budget - leftover);
    }

    function Elapsed(): nat
      requires Valid()
      reads this
    {
      now - lastBudget
    }

    /** The loop of pay_workers. */
    method PayInTurn(eligible: set<nat>, elapsed: nat, budget: nat)
      returns (leftover: nat, paid: map<nat, nat>, ghost rest: set<nat>)
      requires Valid() && eligible <= workers.Keys
      requires InTurn(workers, map[], eligible, elapsed, budget) && PaidInAll(map[], 0)
      modifies this`supply, this`vesting, this`balances
      ensures Valid() && leftover <= budget && Elsewhere() == old(Elsewhere()) - (budget - leftover)
      ensures Disbursed(workers, paid, old(Funds()), Funds())
      ensures InTurn(workers, paid, rest, elapsed, leftover) && PaidInAll(paid, budget - leftover)
      ensures rest == {} || leftover == 0
    {
      hide SumBy, Elsewhere, InTurn, FirstWorker, Requested, Valid, PaidInAll, PaidTo, Disbursed;
      leftover, paid := budget, map[];
      NothingDisbursed(workers, Funds());
      var unpaid := eligible;
      while unpaid != {} && leftover > 0
        invariant Valid() && leftover <= budget && Elsewhere() == old(Elsewhere()) - (budget - leftover)
        invariant Disbursed(workers, paid, old(Funds()), Funds()) && PaidInAll(paid, budget - leftover)
        invariant InTurn(workers, paid, unpaid, elapsed, leftover) && unpaid <= workers.Keys
        decreases |unpaid|
      {
        ghost var purse := Funds();
        var w, pay := PayNext(unpaid, elapsed, leftover);
        Unpaid(workers, paid, unpaid, elapsed, leftover, w);
        DisbursedMore(workers, paid, old(Funds()), purse, Funds(), w, pay);
        TurnTaken(workers, paid, unpaid, elapsed, leftover, budget - leftover, w, pay);
        leftover, paid, unpaid := leftover - pay, paid[w := pay], unpaid - {w};
      }
      rest := unpaid;
    }

    /** worker_create: a worker that is to be paid into a vesting balance gets one, with nothing in it. */
    method HireWorker(w: nat, owner: AccountId, dailyPay: nat, kind: Payee, days: nat)
      requires Valid() && w !in workers
      modifies this`workers, this`vesting, this`nextVesting
      ensures Valid() && Holdings() == old(Holdings())
      ensures var payee := if kind.Vest? then Vest(old(nextVesting)) else kind;
              workers == old(workers)[w := Worker(false, 0, dailyPay, payee)]
      ensures if kind.Vest? then Added(old(vesting), vesting, old(nextVesting), owner, 0, true, days * DAY, General,
                now)
              else vesting == old(vesting)
    {
      hide Holdings, SumBy, V.Consistent;
      var payee := kind;
      if kind.Vest? {
        var id := StartVesting(0, days * DAY, owner, true, General);
        payee := Vest(id);
      }
      workers := workers[w := Worker(false, 0, dailyPay, payee)];
    }

    /** Votes are counted at maintenance; a worker is active between its dates. */
    method CountVotes(w: nat, active: bool, votes: nat)
      requires Valid() && w in workers
      modifies this`workers
      ensures Valid() && workers == old(workers)[w := old(workers)[w].(active := active, votes := votes)]
    {
      workers := workers[w := workers[w].(active := active, votes := votes)];
    }

    lemma PayeeReady(w: nat)
      requires Valid() && w in workers
      ensures workers[w].payee.Vest? ==> workers[w].payee.id in vesting && vesting[workers[w].payee.id].policy.Cdd?
    {
    }

    /** process_budget: the witness budget and the workers' pay come out of a share of the reserve, to which the fees
        and what the witnesses left over are returned. The supply never passes its maximum. */
    method ProcessBudget(timeToMaintenance: nat, blockInterval: nat, payPerBlock: nat, workerBudgetPerDay: nat)
      returns (budget: nat, paid: map<nat, nat>)
      requires Valid() && supply <= maxSupply && timeToMaintenance > 0 && blockInterval > 0
      modifies this`supply, this`vesting, this`balances, this`fees, this`witnessBudget, this`lastBudget
      ensures Valid() && Elsewhere() == old(Elsewhere())
      ensures supply <= maxSupply && fees == 0 && lastBudget == now
      ensures budget == TotalBudget(maxSupply - old(supply) + old(fees) + old(witnessBudget), now, old(lastBudget))
      ensures witnessBudget == WitnessBudget(budget, payPerBlock, timeToMaintenance, blockInterval)
      ensures var total := SumBy(paid, Amount());
              var forWorkers := WorkerBudget(budget - witnessBudget, workerBudgetPerDay, timeToMaintenance);
              var issued := witnessBudget + total - old(fees) - old(witnessBudget);
              && total <= forWorkers && witnessBudget + total <= budget
              && FairlyPaid(workers, paid, now - old(lastBudget), forWorkers - total)
              && Disbursed(workers, paid, old(Funds()), Funds().(supply := supply - issued))
    {
      hide SumBy, Elsewhere, TotalBudget, FairlyPaid, Disbursed;
      var reserve := maxSupply - supply + fees + witnessBudget;
      budget := TotalBudget(reserve, now, lastBudget);
      var forWitnesses := WitnessBudget(budget, payPerBlock, timeToMaintenance, blockInterval);
      var forWorkers := WorkerBudget(budget - forWitnesses, workerBudgetPerDay, timeToMaintenance);
      var leftover;
      leftover, paid := PayWorkers(forWorkers);
      SupplyFalls(workers, paid, old(Funds()), Funds());
      CloseBudget(forWitnesses + forWorkers - leftover - fees - witnessBudget, forWitnesses);
    }

    method CloseBudget(delta: int, forWitnesses: nat)
      modifies this`supply, this`fees, this`witnessBudget, this`lastBudget
      ensures supply == old(supply) + delta && fees == 0 && witnessBudget == forWitnesses && lastBudget == now
      ensures Elsewhere() == old(Elsewhere()) + delta + old(fees) + old(witnessBudget) - forWitnesses
    {
      hide SumBy;
      supply, fees, witnessBudget, lastBudget := supply + delta, 0, forWitnesses, now;
    }

    /** Time passes from block to block. */
    method Tick(seconds: nat)
      requires Valid()
      modifies this`now
      ensures Valid() && now == old(now) + seconds
    {
      forall id | id in vesting ensures V.Consistent(vesting[id].policy, vesting[id].balance, now + seconds) {
        if vesting[id].policy.Linear? { V.VestedGrows(vesting[id].policy, now, now + seconds); }
      }
      now := now + seconds;
    }

    /** Whatever the chain does with fees, pay and budgets, in whatever order: what the supply has elsewhere does not
        change, and the supply stays within its maximum. */
    method Run(steps: seq<Step>)
      requires Valid() && supply <= maxSupply
      modifies this
      ensures Valid() && supply <= maxSupply && maxSupply == old(maxSupply) && Elsewhere() == old(Elsewhere())
    {
      for i := 0 to |steps|
        invariant Valid() && supply <= maxSupply && maxSupply == old(maxSupply) && Elsewhere() == old(Elsewhere())
      {
        Take(steps[i]);
      }
    }

    /** Whatever happens from the beginning, the supply is exactly what the chain keeps. */
    static method RunFromStart(g: Genesis, steps: seq<Step>) returns (t: Treasury)
      requires g.Valid()
      ensures fresh(t) && t.Valid() && t.supply == t.Holdings() <= t.maxSupply == g.maxSupply
    {
      t := new Treasury(g);
      t.Run(steps);
    }

    method Take(step: Step)
      requires Valid() && supply <= maxSupply
      modifies this
      ensures Valid() && supply <= maxSupply && maxSupply == old(maxSupply) && Elsewhere() == old(Elsewhere())
    {
      hide Holdings, FairlyPaid, Disbursed, WitnessBudget, WorkerBudget, TotalBudget, Cashback, CutFee, Added,
           FeesShared, Deposited, Reusable;
      match step
      case Fee(who, fee, threshold) => var _ := PayFee(who, fee, threshold);
      case PayOut(who) => if who in accounts { ProcessFees(who); }
      case Split(id, buyback, issuer, recipients) =>
        if buyback + issuer <= HUNDRED_PERCENT && id in fba { SplitFba(id, buyback, issuer, recipients); }
      case Sign(signer, perBlock) => var _ := PayWitness(signer, perBlock);
      case Budget(toMaintenance, interval, perBlock, perDay) =>
        if toMaintenance > 0 && interval > 0 { var _, _ := ProcessBudget(toMaintenance, interval, perBlock, perDay); }
      case Pass(seconds) => Tick(seconds);
      case FbaFee(who, fee, threshold, id, configured) =>
        if id in fba { var _ := PayFbaFee(who, fee, threshold, id, configured); }
      case Hire(w, owner, dailyPay, kind, days) => if w !in workers { HireWorker(w, owner, dailyPay, kind, days); }
      case Vote(w, active, votes) => if w in workers { CountVotes(w, active, votes); }
    }
  }

  method Total(m: map<nat, nat>) returns (total: nat)
    ensures total == SumBy(m, Amount())
  {
    total := 0;
    var rest := m;
    while rest != map[]
      invariant total + SumBy(rest, Amount()) == SumBy(m, Amount())
      decreases rest.Keys
    {
      var k :| k in rest;
      SumSplit(rest, Amount(), k);
      total, rest := total + rest[k], rest - {k};
    }
  }

  method TotalDeposits(m: map<nat, Deposit>) returns (total: nat)
    ensures total == SumBy(m, DepositIn())
  {
    total := 0;
    var rest := m;
    while rest != map[]
      invariant total + SumBy(rest, DepositIn()) == SumBy(m, DepositIn())
      decreases rest.Keys
    {
      var k :| k in rest;
      SumSplit(rest, DepositIn(), k);
      total, rest := total + rest[k].balance, rest - {k};
    }
  }

  ghost predicate DepositsGood(vesting: map<nat, Deposit>, next: nat, now: nat) {
    forall id :: id in vesting ==> id < next && V.Consistent(vesting[id].policy, vesting[id].balance, now)
  }

  lemma DepositGrows(balance: nat, amount: nat, m: nat)
    ensures (balance + amount) * m == balance * m + amount * m
  {
  }

  lemma TwoPortions(total: nat, p: nat, q: nat)
    requires p + q <= HUNDRED_PERCENT
    ensures CutFee(total, p) + CutFee(total, q) <= total
  {
    assert total * p + total * q == total * (p + q) <= total * HUNDRED_PERCENT;
  }

  lemma NewDepositWithin(amount: nat, seconds: nat, now: nat)
    ensures amount * seconds >= 0
    ensures V.Consistent(V.Cdd(seconds, 0, 0, now), amount, now)
    ensures V.Consistent(V.Cdd(seconds, amount * seconds, 0, now), amount, now)
  {
    assert 0 <= amount * seconds <= amount * V.Period(seconds);
  }

  /** Of the pay per day, what falls on the time since the last budget. */
  function Requested(dailyPay: nat, elapsed: nat): (r: nat)
    ensures r * DAY <= dailyPay * elapsed < (r + 1) * DAY
  {
    RoundsDown(dailyPay * elapsed, DAY);
    if elapsed == DAY then dailyPay else dailyPay * elapsed / DAY
  }

  /** The share of the reserve that may be spent: CYCLE_RATE / CYCLE_RATE_UNIT per second, rounded up. */
  function TotalBudget(reserve: nat, now: nat, lastBudget: nat): (budget: nat)
    ensures budget <= reserve && (lastBudget == 0 || now <= lastBudget ==> budget == 0)
    ensures 0 < lastBudget < now ==>
              var due := reserve * (now - lastBudget) * CYCLE_RATE;
              budget * CYCLE_RATE_UNIT < due + CYCLE_RATE_UNIT && (budget < reserve ==> due <= budget * CYCLE_RATE_UNIT)
  {
    if lastBudget == 0 || now <= lastBudget then 0
    else
      RoundsUp(reserve * (now - lastBudget) * CYCLE_RATE, CYCLE_RATE_UNIT);
      var share := (reserve * (now - lastBudget) * CYCLE_RATE + CYCLE_RATE_UNIT - 1) / CYCLE_RATE_UNIT;
      if share < reserve then share else reserve
  }

  lemma RoundsUp(n: nat, d: nat)
    requires d > 0
    ensures var q := (n + d - 1) / d;
            q * d < n + d && n <= q * d && forall x: nat {:trigger x * d} :: x < q ==> x * d < n
  {
    var q := (n + d - 1) / d;
    RoundsDown(n + d - 1, d);
    forall x: nat | x < q ensures x * d < n {
      MulMonotone(x + 1, q, d);
    }
  }

  /** Pay for every block until maintenance, as far as the budget goes. */
  function WitnessBudget(budget: nat, payPerBlock: nat, timeToMaintenance: nat, blockInterval: nat): (b: nat)
    requires timeToMaintenance > 0 && blockInterval > 0
    ensures b <= budget
  {
    var wanted := payPerBlock * ((timeToMaintenance + blockInterval - 1) / blockInterval);
    if wanted < budget then wanted else budget
  }

  /** The time until maintenance has room for that many blocks and no fewer. */
  lemma BlocksToMaintenance(budget: nat, payPerBlock: nat, timeToMaintenance: nat, blockInterval: nat)
    returns (blocks: nat)
    requires timeToMaintenance > 0 && blockInterval > 0
    ensures timeToMaintenance <= blocks * blockInterval < timeToMaintenance + blockInterval
    ensures var b := WitnessBudget(budget, payPerBlock, timeToMaintenance, blockInterval);
            if payPerBlock * blocks < budget then b == payPerBlock * blocks else b == budget
  {
    blocks := (timeToMaintenance + blockInterval - 1) / blockInterval;
    RoundsUp(timeToMaintenance, blockInterval);
  }

  /** The workers' pay per day for the time until maintenance, as far as the rest of the budget goes. */
  function WorkerBudget(available: nat, perDay: nat, timeToMaintenance: nat): (b: nat)
    ensures b <= available && b * DAY <= perDay * timeToMaintenance
    ensures b < available ==> perDay * timeToMaintenance < (b + 1) * DAY
  {
    RoundsDown(perDay * timeToMaintenance, DAY);
    var wanted := perDay * timeToMaintenance / DAY;
    if wanted >= available then available else wanted
  }

  /** No part of the reserve is out of reach: as long as there is a reserve, some of it can be spent. */
  lemma NoUntouchableReserve(reserve: nat, now: nat, lastBudget: nat)
    requires reserve > 0 && 0 < lastBudget < now
    ensures TotalBudget(reserve, now, lastBudget) > 0
  {
    var dt := now - lastBudget;
    assert reserve * dt > 0;
    assert reserve * dt * CYCLE_RATE >= 1;
  }

  function Eligible(workers: map<nat, Worker>): set<nat> {
    set w | w in workers && workers[w].active && workers[w].votes > 0
  }

  /** More votes first, then the lower id. */
  predicate WorkerBefore(workers: map<nat, Worker>, w: nat, v: nat)
    requires w in workers && v in workers
  {
    workers[w].votes > workers[v].votes || (workers[w].votes == workers[v].votes && w <= v)
  }

  predicate FirstWorker(workers: map<nat, Worker>, c: set<nat>, w: nat)
    requires c <= workers.Keys
  {
    w in c && forall v :: v in c ==> WorkerBefore(workers, w, v)
  }

  lemma FirstWorkerExists(workers: map<nat, Worker>, c: set<nat>)
    requires c <= workers.Keys && c != {}
    ensures exists w :: w in c && FirstWorker(workers, c, w)
  {
    var w := FirstExists(c, (w: nat, v: nat) => w in workers && v in workers && WorkerBefore(workers, w, v));
    assert FirstWorker(workers, c, w);
  }

  /** The workers in `rest` have still to be paid; the others come before them and have been paid in full, except
      that the last one may have got only what was left. */
  ghost predicate InTurn(workers: map<nat, Worker>, paid: map<nat, nat>, rest: set<nat>, elapsed: nat, leftover: nat) {
    && rest <= Eligible(workers) && paid.Keys == Eligible(workers) - rest
    && (forall w, v :: w in paid && v in rest ==> WorkerBefore(workers, w, v))
    && (forall w :: w in paid ==> paid[w] <= Requested(workers[w].dailyPay, elapsed))
    && (forall w :: w in paid && paid[w] < Requested(workers[w].dailyPay, elapsed) ==>
          leftover == 0 && forall v :: v in paid ==> WorkerBefore(workers, v, w))
  }

  /** A worker who got less than requested, or nothing, got it because the workers with more votes left no more. */
  ghost predicate FairlyPaid(workers: map<nat, Worker>, paid: map<nat, nat>, elapsed: nat, leftover: nat) {
    && paid.Keys <= Eligible(workers)
    && (forall w :: w in paid ==> paid[w] <= Requested(workers[w].dailyPay, elapsed))
    && (forall w :: w in paid && paid[w] < Requested(workers[w].dailyPay, elapsed) ==>
          leftover == 0 && forall v :: v in paid ==> WorkerBefore(workers, v, w))
    && (forall v :: v in Eligible(workers) && v !in paid ==>
          leftover == 0 && forall w :: w in paid ==> WorkerBefore(workers, w, v))
  }

  /** So of two workers that could be paid, one with more votes is never passed over for one with fewer. */
  lemma MostVotesFirst(workers: map<nat, Worker>, paid: map<nat, nat>, elapsed: nat, leftover: nat)
    requires FairlyPaid(workers, paid, elapsed, leftover)
    ensures forall w :: w in paid ==> w in workers && workers[w].active && workers[w].votes > 0
    ensures forall v, w :: && v in workers && workers[v].active && workers[v].votes > 0 && w in paid
                           && (v !in paid || paid[v] < Requested(workers[v].dailyPay, elapsed))
                           ==> && w in workers && workers[w].votes >= workers[v].votes
                               && (workers[w].votes == workers[v].votes ==> w <= v)
  {
    hide Requested;
    assert forall v :: v in workers && workers[v].active && workers[v].votes > 0 ==> v in Eligible(workers);
  }

  lemma NothingPaid(workers: map<nat, Worker>, elapsed: nat, leftover: nat)
    ensures PaidInAll(map[], 0)
    ensures InTurn(workers, map[], Eligible(workers), elapsed, leftover) && Eligible(workers) <= workers.Keys
  {
  }

  ghost predicate PaidInAll(paid: map<nat, nat>, total: int) {
    SumBy(paid, Amount()) == total
  }

  lemma TurnTaken(workers: map<nat, Worker>, paid: map<nat, nat>, rest: set<nat>, elapsed: nat, leftover: nat,
                  total: int, w: nat, pay: nat)
    requires PaidInAll(paid, total)
    requires InTurn(workers, paid, rest, elapsed, leftover) && leftover > 0
    requires rest <= workers.Keys && w in rest && FirstWorker(workers, rest, w)
    requires var requested := Requested(workers[w].dailyPay, elapsed);
             pay == if leftover < requested then leftover else requested
    ensures InTurn(workers, paid[w := pay], rest - {w}, elapsed, leftover - pay)
    ensures PaidInAll(paid[w := pay], total + pay)
  {
    SumPut<nat, nat>(paid, Amount(), w, pay);
    hide Requested, SumBy;
  }

  lemma Unpaid(workers: map<nat, Worker>, paid: map<nat, nat>, rest: set<nat>, elapsed: nat, leftover: nat, w: nat)
    requires InTurn(workers, paid, rest, elapsed, leftover) && w in rest
    ensures w !in paid
  {
  }

  lemma AllTurnsTaken(workers: map<nat, Worker>, paid: map<nat, nat>, rest: set<nat>, elapsed: nat, leftover: nat,
                      total: int)
    requires PaidInAll(paid, total)
    requires InTurn(workers, paid, rest, elapsed, leftover) && (rest == {} || leftover == 0)
    ensures FairlyPaid(workers, paid, elapsed, leftover) && SumBy(paid, Amount()) == total
  {
    hide Requested, SumBy;
  }
}
