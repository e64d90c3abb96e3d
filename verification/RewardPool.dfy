/**
 The rewards pool. A reward is paid from the pool as long as it lasts and minted after that, whether it
 arrives as a positive imbalance (somebody was credited) or as a negative one (somebody is to be credited).
 */
module RewardPool {
  import opened Wrappers
  import opened Ledgers
  import opened Perbills

  function Min(a: nat, b: nat): nat { if a <= b then a else b }

  /** settle: debit the pool against a positive imbalance; if that fails the imbalance is dropped. */
  function SettleFrom(l: Ledger, pool: AccountId, amount: nat): Ledger {
    if amount == 0 then l
    else
      var r := l.Withdraw(pool, amount);
      if r.Ok? then r.value else l.DropPositive(amount)
  }

  /** The handler of positive imbalances: what the pool cannot cover is minted by dropping it. */
  function OnPositive(l: Ledger, pool: AccountId, amount: nat): Ledger {
    var fromPool := Min(amount, l.Free(pool));
    SettleFrom(l, pool, fromPool).DropPositive(amount - fromPool)
  }

  /** Hand a negative imbalance to the treasury; what cannot be deposited is dropped. */
  function Resolve(l: Ledger, treasury: AccountId, amount: nat): Ledger {
    l.DepositCreating(treasury, amount).DropNegative(SatSub(amount, l.Deposited(treasury, amount)))
  }

  /** The handler of negative imbalances: burn what the pool covers, then let the treasury have the amount. */
  function OnNegative(l: Ledger, pool: AccountId, treasury: AccountId, amount: nat): Ledger {
    var fromPool := Min(amount, l.Free(pool));
    Resolve(SettleFrom(l.Burn(fromPool), pool, l.Burned(fromPool)), treasury, amount)
  }

  /** Two ways to pay a reward: credit an account first, or issue an amount for the treasury. */
  datatype Payment = ToAccount(who: AccountId, amount: nat) | ToTreasury(treasury: AccountId, amount: nat) {
    function Recipient(): AccountId { if ToAccount? then who else treasury }
  }

  function Pay(l: Ledger, pool: AccountId, p: Payment): Ledger {
    match p
    case ToAccount(who, amount) => OnPositive(l.DepositCreating(who, amount), pool, l.Deposited(who, amount))
    case ToTreasury(treasury, amount) => OnNegative(l.Issue(amount), pool, treasury, amount)
  }

  // ---------- one payment ----------

  /** Nothing is frozen or reserved on the pool, and the recipient can be credited. */
  predicate Payable(l: Ledger, pool: AccountId, p: Payment) {
    && Liquid(l, pool)
    && p.Recipient() != pool
    && (p.amount == 0 || p.Recipient() in l.accounts || p.amount >= l.ed)
    && (p.Recipient() in l.accounts ==> l.Total(p.Recipient()) >= l.ed)
  }

  function FromPool(l: Ledger, pool: AccountId, amount: nat): nat { Min(amount, l.Free(pool)) }

  /** What is left of the pool may be too little to live on. */
  function PoolDust(l: Ledger, pool: AccountId, amount: nat): nat {
    var left := l.Free(pool) - FromPool(l, pool, amount);
    if FromPool(l, pool, amount) > 0 && left < l.ed then left else 0
  }

  /** Nothing of an account is frozen or reserved. */
  predicate Liquid(l: Ledger, who: AccountId) {
    l.Get(who).frozen == 0 && l.Get(who).reserved == 0
  }

  /** l' is l after a reward: the pool paid its part, the rest was minted, dust was burned. */
  predicate Rewarded(l: Ledger, l': Ledger, pool: AccountId, amount: nat) {
    && l'.ed == l.ed
    && l'.Free(pool) == l.Free(pool) - FromPool(l, pool, amount) - PoolDust(l, pool, amount)
    && Liquid(l', pool)
    && l'.issuance == l.issuance + amount - FromPool(l, pool, amount) - PoolDust(l, pool, amount)
  }

  lemma {:induction false} SettleEffect(l: Ledger, pool: AccountId, amount: nat)
    requires Liquid(l, pool) && amount <= l.Free(pool)
    requires amount > 0 ==> SatSub(l.Free(pool), amount) <= l.issuance
    ensures var l' := SettleFrom(l, pool, amount);
      var dust := if amount > 0 && l.Free(pool) - amount < l.ed then l.Free(pool) - amount else 0;
      && l'.ed == l.ed
      && l'.Free(pool) == l.Free(pool) - amount - dust
      && Liquid(l', pool)
      && l'.issuance == l.issuance - dust
      && Held(l') == Held(l) - amount - dust
  {
    if amount > 0 {
      PutHeld(l, pool, l.Get(pool).Debit(amount));
      PutGet(l, pool, l.Get(pool).Debit(amount), pool);
    }
  }

  lemma {:induction false} SettleElsewhere(l: Ledger, pool: AccountId, amount: nat, x: AccountId)
    requires x != pool
    ensures SettleFrom(l, pool, amount).Get(x) == l.Get(x)
    ensures x in SettleFrom(l, pool, amount).accounts <==> x in l.accounts
  {
  }

  lemma {:induction false} DepositEffect(l: Ledger, who: AccountId, amount: nat, x: AccountId)
    requires amount == 0 || who in l.accounts || amount >= l.ed
    requires who in l.accounts ==> l.Total(who) >= l.ed
    ensures var l' := l.DepositCreating(who, amount);
      && l'.ed == l.ed && l'.issuance == l.issuance
      && Held(l') == Held(l) + amount
      && (amount == 0 || l.Deposited(who, amount) == amount)
      && l'.Get(x) == (if x == who then l.Get(who).Credit(amount) else l.Get(x))
      && (x != who ==> (x in l'.accounts <==> x in l.accounts))
  {
    if amount > 0 {
      PutHeld(l, who, l.Get(who).Credit(amount));
      PutGet(l, who, l.Get(who).Credit(amount), x);
    }
  }

  /** A positive imbalance that some account already holds: the pool pays its part and the rest is minted. */
  lemma {:induction false} OnPositiveEffect(l: Ledger, pool: AccountId, amount: nat)
    requires Liquid(l, pool) && l.Free(pool) <= l.issuance
    ensures var l' := OnPositive(l, pool, amount);
      Rewarded(l, l', pool, amount)
      && Held(l') == Held(l) - FromPool(l, pool, amount) - PoolDust(l, pool, amount)
  {
    var fromPool := FromPool(l, pool, amount);
    SettleEffect(l, pool, fromPool);
    DropHeld(SettleFrom(l, pool, fromPool), amount - fromPool);
  }

  lemma {:induction false} DropHeld(l: Ledger, amount: nat)
    ensures Held(l.DropPositive(amount)) == Held(l) && Held(l.DropNegative(amount)) == Held(l)
  {
  }

  lemma {:induction false} OnPositiveElsewhere(l: Ledger, pool: AccountId, amount: nat, x: AccountId)
    requires x != pool
    ensures OnPositive(l, pool, amount).Get(x) == l.Get(x)
    ensures x in OnPositive(l, pool, amount).accounts <==> x in l.accounts
  {
    SettleElsewhere(l, pool, FromPool(l, pool, amount), x);
  }

  /** l1 is l with an amount credited to somebody other than the pool, outside issuance. */
  predicate Credited(l: Ledger, l1: Ledger, pool: AccountId, who: AccountId, amount: nat) {
    && l1.ed == l.ed && l1.issuance == l.issuance
    && l1.Get(pool) == l.Get(pool) && l1.Get(who) == l.Get(who).Credit(amount)
  }

  /** The promise of a payment. */
  ghost predicate Paid(l: Ledger, l': Ledger, pool: AccountId, who: AccountId, amount: nat) {
    && Rewarded(l, l', pool, amount) && Backed(l') && l'.Get(who) == l.Get(who).Credit(amount)
  }

  lemma {:induction false} CreditedThenPaid(
      l: Ledger, l1: Ledger, l': Ledger, pool: AccountId, who: AccountId, amount: nat)
    requires Backed(l) && Credited(l, l1, pool, who, amount) && Held(l1) == Held(l) + amount
    requires Rewarded(l1, l', pool, amount) && l'.Get(who) == l1.Get(who)
    requires Held(l') == Held(l1) - FromPool(l1, pool, amount) - PoolDust(l1, pool, amount)
    ensures Paid(l, l', pool, who, amount)
  {
    RewardedFrom(l, l1, l', pool, amount);
  }

  lemma {:induction false} ToAccountIs(l: Ledger, pool: AccountId, who: AccountId, amount: nat)
    requires Payable(l, pool, ToAccount(who, amount))
    ensures var l1 := l.DepositCreating(who, amount);
      && Pay(l, pool, ToAccount(who, amount)) == OnPositive(l1, pool, amount)
      && Credited(l, l1, pool, who, amount) && Held(l1) == Held(l) + amount
  {
    DepositEffect(l, who, amount, pool);
    DepositEffect(l, who, amount, who);
  }

  lemma {:induction false} ToAccountEffect(l: Ledger, pool: AccountId, who: AccountId, amount: nat)
    requires Payable(l, pool, ToAccount(who, amount)) && Backed(l)
    ensures Paid(l, Pay(l, pool, ToAccount(who, amount)), pool, who, amount)
  {
    ToAccountIs(l, pool, who, amount);
    CreditedPays(l, l.DepositCreating(who, amount), pool, who, amount);
  }

  lemma {:induction false} CreditedPays(l: Ledger, l1: Ledger, pool: AccountId, who: AccountId, amount: nat)
    requires Payable(l, pool, ToAccount(who, amount)) && Backed(l)
    requires Credited(l, l1, pool, who, amount) && Held(l1) == Held(l) + amount
    ensures Paid(l, OnPositive(l1, pool, amount), pool, who, amount)
  {
    HeldCovers(l, pool);
    OnPositiveEffect(l1, pool, amount);
    OnPositiveElsewhere(l1, pool, amount, who);
    CreditedThenPaid(l, l1, OnPositive(l1, pool, amount), pool, who, amount);
  }

  /** A reward depends on the pool and on issuance only. */
  lemma {:induction false} RewardedFrom(l: Ledger, l1: Ledger, l': Ledger, pool: AccountId, amount: nat)
    requires l1.Get(pool) == l.Get(pool) && l1.ed == l.ed && l1.issuance == l.issuance
    requires Rewarded(l1, l', pool, amount)
    ensures Rewarded(l, l', pool, amount)
    ensures FromPool(l1, pool, amount) == FromPool(l, pool, amount)
    ensures PoolDust(l1, pool, amount) == PoolDust(l, pool, amount)
  {
  }

  /** After issuing an amount and burning what the pool covers of it. */
  function BurnedLedger(l: Ledger, pool: AccountId, amount: nat): Ledger {
    Ledger(l.ed, l.accounts, l.issuance + amount - FromPool(l, pool, amount))
  }

  lemma {:induction false} ToTreasuryEffect(l: Ledger, pool: AccountId, treasury: AccountId, amount: nat)
    requires Payable(l, pool, ToTreasury(treasury, amount)) && Backed(l)
    ensures Paid(l, Pay(l, pool, ToTreasury(treasury, amount)), pool, treasury, amount)
  {
    ToTreasuryIs(l, pool, treasury, amount);
    BurnedPays(l, BurnedLedger(l, pool, amount), pool, treasury, amount);
  }

  lemma {:induction false} BurnedPays(l: Ledger, burned: Ledger, pool: AccountId, treasury: AccountId, amount: nat)
    requires Payable(l, pool, ToTreasury(treasury, amount)) && Backed(l)
    requires burned == BurnedLedger(l, pool, amount)
    ensures Paid(l, Resolve(SettleFrom(burned, pool, FromPool(l, pool, amount)), treasury, amount), pool, treasury, amount)
  {
    HeldCovers(l, pool);
    BurnedSettles(l, burned, pool, treasury, amount);
    TreasuryFinish(l, SettleFrom(burned, pool, FromPool(l, pool, amount)), pool, treasury, amount);
  }

  lemma {:induction false} TreasuryFinish(l: Ledger, settled: Ledger, pool: AccountId, treasury: AccountId, amount: nat)
    requires Payable(l, pool, ToTreasury(treasury, amount)) && Backed(l)
    requires Rewarded(l, settled, pool, amount) && settled.Get(treasury) == l.Get(treasury)
    requires treasury in settled.accounts <==> treasury in l.accounts
    requires Held(settled) == Held(l) - FromPool(l, pool, amount) - PoolDust(l, pool, amount)
    ensures Paid(l, Resolve(settled, treasury, amount), pool, treasury, amount)
  {
    ResolveEffect(settled, pool, treasury, amount);
  }

  lemma {:induction false} BurnedSettles(l: Ledger, burned: Ledger, pool: AccountId, treasury: AccountId, amount: nat)
    requires Liquid(l, pool) && treasury != pool
    requires burned == BurnedLedger(l, pool, amount) && l.Free(pool) <= l.issuance
    ensures var settled := SettleFrom(burned, pool, FromPool(l, pool, amount));
      && Rewarded(l, settled, pool, amount)
      && Held(settled) == Held(l) - FromPool(l, pool, amount) - PoolDust(l, pool, amount)
      && settled.Get(treasury) == l.Get(treasury)
      && (treasury in settled.accounts <==> treasury in l.accounts)
  {
    SettleEffect(burned, pool, FromPool(l, pool, amount));
    SettleElsewhere(burned, pool, FromPool(l, pool, amount), treasury);
  }

  /** Issuing, then burning what the pool covers, nets to minting the rest. */
  lemma {:induction false} ToTreasuryIs(l: Ledger, pool: AccountId, treasury: AccountId, amount: nat)
    ensures Pay(l, pool, ToTreasury(treasury, amount)) ==
      Resolve(SettleFrom(BurnedLedger(l, pool, amount), pool, FromPool(l, pool, amount)), treasury, amount)
  {
    var fromPool := FromPool(l, pool, amount);
    assert l.Issue(amount).Burned(fromPool) == fromPool;
    assert l.Issue(amount).Burn(fromPool) == BurnedLedger(l, pool, amount);
  }

  lemma {:induction false} ResolveEffect(l: Ledger, pool: AccountId, treasury: AccountId, amount: nat)
    requires treasury != pool
    requires amount == 0 || treasury in l.accounts || amount >= l.ed
    requires treasury in l.accounts ==> l.Total(treasury) >= l.ed
    ensures var l' := Resolve(l, treasury, amount);
      && l'.ed == l.ed && l'.issuance == l.issuance && Held(l') == Held(l) + amount
      && l'.Get(pool) == l.Get(pool) && l'.Get(treasury) == l.Get(treasury).Credit(amount)
  {
    DepositEffect(l, treasury, amount, pool);
    DepositEffect(l, treasury, amount, treasury);
    DropHeld(l.DepositCreating(treasury, amount), 0);
  }

  /**
   The payment law, whichever way the reward arrives: the pool falls by what it can cover, exactly the
   rest is minted, the recipient gets all of it, and issuance keeps matching the accounts.
   */
  lemma {:induction false} PayEffect(l: Ledger, pool: AccountId, p: Payment)
    requires Payable(l, pool, p) && Backed(l)
    ensures Paid(l, Pay(l, pool, p), pool, p.Recipient(), p.amount)
  {
    match p
    case ToAccount(who, amount) => ToAccountEffect(l, pool, who, amount);
    case ToTreasury(treasury, amount) => ToTreasuryEffect(l, pool, treasury, amount);
  }

  /** The same for the handler of negative imbalances alone: l is what it was before the imbalance was issued. */
  lemma {:induction false} OnNegativePays(l: Ledger, issued: Ledger, pool: AccountId, treasury: AccountId, amount: nat)
    requires Payable(l, pool, ToTreasury(treasury, amount)) && Backed(l) && issued == l.Issue(amount)
    ensures Paid(l, OnNegative(issued, pool, treasury, amount), pool, treasury, amount)
  {
    PayEffect(l, pool, ToTreasury(treasury, amount));
  }

  lemma {:induction false} PayElsewhere(l: Ledger, pool: AccountId, p: Payment, x: AccountId)
    requires x != pool && x != p.Recipient()
    ensures Pay(l, pool, p).Get(x) == l.Get(x)
    ensures x in Pay(l, pool, p).accounts <==> x in l.accounts
  {
    match p
    case ToAccount(who, amount) =>
      OnPositiveElsewhere(l.DepositCreating(who, amount), pool, l.Deposited(who, amount), x);
    case ToTreasury(treasury, amount) =>
      ToTreasuryIs(l, pool, treasury, amount);
      SettleElsewhere(BurnedLedger(l, pool, amount), pool, FromPool(l, pool, amount), x);
  }

  // ---------- total stakeable ----------

  function FreeSum(l: Ledger, accounts: seq<AccountId>): nat {
    if accounts == [] then 0 else l.Free(accounts[0]) + FreeSum(l, accounts[1..])
  }

  /** Everything that can never be staked: the pool, what is under custody or set aside, the public funds. */
  function Unstakeable(l: Ledger, pool: AccountId, custody: nat, liquidity: nat, public: seq<AccountId>): nat {
    l.Free(pool) + custody + liquidity + FreeSum(l, public)
  }

  function TotalStakeable(
      l: Ledger, issuance: nat, pool: AccountId, custody: nat, liquidity: nat, public: seq<AccountId>): nat
  {
    SatSub(issuance, Unstakeable(l, pool, custody, liquidity, public))
  }

  /**
   Each amount set aside lowers what can be staked by itself: nothing set aside leaves all of issuance, and
   more in the pool, under custody, for liquidity or in one more public account leaves as much less.
   */
  lemma {:induction false} SetAsideLowers(
      l: Ledger, issuance: nat, pool: AccountId, custody: nat, liquidity: nat, public: seq<AccountId>, more: nat, x: AccountId)
    ensures l.Free(pool) == 0 ==> TotalStakeable(l, issuance, pool, 0, 0, []) == issuance
    ensures TotalStakeable(l, issuance, pool, 0, 0, []) == SatSub(issuance, l.Free(pool))
    ensures var left := TotalStakeable(l, issuance, pool, custody, liquidity, public);
      && TotalStakeable(l, issuance, pool, custody + more, liquidity, public) == SatSub(left, more)
      && TotalStakeable(l, issuance, pool, custody, liquidity + more, public) == SatSub(left, more)
      && TotalStakeable(l, issuance, pool, custody, liquidity, [x] + public) == SatSub(left, l.Free(x))
  {
    assert ([x] + public)[1..] == public;
  }

  lemma {:induction false} FreeSumSame(l: Ledger, l': Ledger, accounts: seq<AccountId>)
    requires forall x :: x in accounts ==> l'.Get(x) == l.Get(x)
    ensures FreeSum(l', accounts) == FreeSum(l, accounts)
    decreases |accounts|
  {
    if accounts != [] {
      assert accounts[0] in accounts;
      FreeSumSame(l, l', accounts[1..]);
    }
  }

  /** A reward raises what can be staked by exactly its amount, pool or no pool, unless the amount saturates. */
  lemma {:induction false} PayRaisesStakeable(
      l: Ledger, pool: AccountId, p: Payment, custody: nat, liquidity: nat, public: seq<AccountId>)
    requires Payable(l, pool, p) && Backed(l)
    requires pool !in public && p.Recipient() !in public
    requires Unstakeable(l, pool, custody, liquidity, public) <= l.issuance
    ensures var l' := Pay(l, pool, p);
      TotalStakeable(l', l'.issuance, pool, custody, liquidity, public) ==
        TotalStakeable(l, l.issuance, pool, custody, liquidity, public) + p.amount
  {
    var l' := Pay(l, pool, p);
    PayEffect(l, pool, p);
    forall x | x in public
      ensures l'.Get(x) == l.Get(x)
    {
      PayElsewhere(l, pool, p, x);
    }
    FreeSumSame(l, l', public);
  }

  // ---------- any sequence of payments ----------

  function PayAll(l: Ledger, pool: AccountId, payments: seq<Payment>): Ledger
    decreases |payments|
  {
    if payments == [] then l else PayAll(Pay(l, pool, payments[0]), pool, payments[1..])
  }

  function Amounts(payments: seq<Payment>): nat {
    if payments == [] then 0 else payments[0].amount + Amounts(payments[1..])
  }

  /** With an existential deposit of at most one there is no dust, and anybody can be credited. */
  predicate NoDustLedger(l: Ledger) {
    l.ed <= 1 && Live(l)
  }

  lemma {:induction false} SettleLive(l: Ledger, pool: AccountId, amount: nat)
    requires Live(l)
    ensures Live(SettleFrom(l, pool, amount)) && SettleFrom(l, pool, amount).ed == l.ed
  {
    if amount != 0 && l.Withdraw(pool, amount).Ok? {
      PutLive(l, pool, l.Get(pool).Debit(amount));
    }
  }

  lemma {:induction false} DepositLive(l: Ledger, who: AccountId, amount: nat)
    requires Live(l)
    ensures Live(l.DepositCreating(who, amount)) && l.DepositCreating(who, amount).ed == l.ed
  {
    PutLive(l, who, l.Get(who).Credit(amount));
  }

  lemma {:induction false} PayLive(l: Ledger, pool: AccountId, p: Payment)
    requires Live(l)
    ensures Live(Pay(l, pool, p)) && Pay(l, pool, p).ed == l.ed
  {
    match p
    case ToAccount(who, amount) =>
      DepositLive(l, who, amount);
      var l1 := l.DepositCreating(who, amount);
      SettleLive(l1, pool, FromPool(l1, pool, l.Deposited(who, amount)));
    case ToTreasury(treasury, amount) =>
      ToTreasuryIs(l, pool, treasury, amount);
      SettleLive(BurnedLedger(l, pool, amount), pool, FromPool(l, pool, amount));
      DepositLive(SettleFrom(BurnedLedger(l, pool, amount), pool, FromPool(l, pool, amount)), treasury, amount);
  }

  /**
   Over any sequence of payments from a pool of P: the pool ends with P less the rewards, floored at zero,
   and exactly what the pool could not cover was minted.
   */
  lemma {:induction false} PayAllEffect(l: Ledger, pool: AccountId, payments: seq<Payment>)
    requires NoDustLedger(l) && Backed(l)
    requires Liquid(l, pool)
    requires forall p :: p in payments ==> p.Recipient() != pool
    ensures var l' := PayAll(l, pool, payments);
      && Backed(l')
      && l'.Free(pool) == SatSub(l.Free(pool), Amounts(payments))
      && l'.issuance == l.issuance + SatSub(Amounts(payments), l.Free(pool))
    decreases |payments|
  {
    if payments != [] {
      var p := payments[0];
      assert p in payments;
      PayEffect(l, pool, p);
      PayLive(l, pool, p);
      PayAllEffect(Pay(l, pool, p), pool, payments[1..]);
    }
  }
}
