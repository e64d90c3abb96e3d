/**
 Enactment accounting. Whatever order the two maps are drained in, the pool pays what it can of all rewards
 together, the rest is minted, everybody gets the reward of their option, and the locks promised are in place.
 */
module Enactment {
  import opened Wrappers
  import opened Ledgers
  import opened MapSums
  import opened Perbills
  import opened Vesting
  import opened Claims
  import opened Betanet
  import opened RewardTerms
  import opened RewardPool

  // ---------- locks ----------

  function Max(a: nat, b: nat): nat { if a < b then b else a }

  /** The lock top-up of a leftover claim: afterwards exactly the larger of desired and already locked is locked. */
  lemma {:induction false} LeftoverLock(c: Config, s: State, address: EthereumAddress, reward: nat)
    ensures var s' := ProcessLeftover(c, s, address, reward);
      TotalLocked(Lookup(s'.vesting, address).GetOr([]), c.enactment) ==
        Max(LeftoverLocked(Lookup(s'.claims, address).GetOr(0), reward),
          TotalLocked(Lookup(s.vesting, address).GetOr([]), c.enactment))
  {
    var claim := Lookup(RewardedClaims(s.claims, address, reward), address).GetOr(0);
    LeftoverPromised(c, Lookup(s.vesting, address), claim, reward);
    LeftoverTotal(c, Lookup(s.vesting, address), claim, reward);
    LeftoverParts(c, s, address, reward);
  }

  lemma {:induction false} LeftoverParts(c: Config, s: State, address: EthereumAddress, reward: nat)
    ensures var s' := ProcessLeftover(c, s, address, reward);
      var claims := RewardedClaims(s.claims, address, reward);
      && s'.claims == claims
      && Lookup(s'.vesting, address) == LeftoverEntry(c, Lookup(s.vesting, address),
           LeftoverDesired(Lookup(claims, address).GetOr(0), reward))
  {
  }

  lemma {:induction false} LeftoverTotal(c: Config, existing: Option<seq<Schedule>>, claim: nat, reward: nat)
    ensures TotalLocked(LeftoverToppedUp(c, existing, claim, reward).GetOr([]), c.enactment) ==
      Max(LeftoverLocked(claim, reward), TotalLocked(existing.GetOr([]), c.enactment))
  {
    var schedules := existing.GetOr([]);
    var missing := SatSub(LeftoverLocked(claim, reward), TotalLocked(schedules, c.enactment));
    if missing > 0 {
      TotalLockedSnoc(schedules, Schedule(missing, missing / (180 * 14_400), c.enactment), c.enactment);
    }
  }

  /** So it is at least four fifths of the original claim, plus the reward. */
  lemma {:induction false} LeftoverLockPromise(c: Config, s: State, address: EthereumAddress, reward: nat)
    ensures var s' := ProcessLeftover(c, s, address, reward);
      TotalLocked(Lookup(s'.vesting, address).GetOr([]), c.enactment) >=
        Percent(80, Lookup(s.claims, address).GetOr(0)) + reward
  {
    LeftoverLock(c, s, address, reward);
    LeftoverParts(c, s, address, reward);
    var claim, claim' := Lookup(s.claims, address).GetOr(0), Lookup(RewardedClaims(s.claims, address, reward), address).GetOr(0);
    DivMono(80 * claim + 49, 80 * claim' + 49, 100);
  }

  /**
   The lock top-up of an account: its option's lock is in place afterwards exactly when it already was, or
   when what is missing unlocks a unit per block and there is room for one more schedule.
   */
  lemma {:induction false} AccountLock(c: Config, free: nat, existing: Option<seq<Schedule>>, info: UserInfo)
    requires !info.option.NoVesting?
    ensures var locked := TotalLocked(existing.GetOr([]), c.enactment);
      var missing := SatSub(PromisedLock(info), if existing.None? then 0 else Least(free, locked));
      var locked' := TotalLocked(LockEntry(c, free, existing, info, c.enactment).GetOr([]), c.enactment);
      var accepted := missing >= Period(info.option) && |existing.GetOr([])| < c.maxSchedules;
      && (locked' >= PromisedLock(info) <==> locked >= PromisedLock(info) || accepted)
      && (accepted && locked <= free ==> locked' == Max(PromisedLock(info), locked))
  {
    var schedules := existing.GetOr([]);
    var missing := SatSub(PromisedLock(info), if existing.None? then 0 else Least(free, TotalLocked(schedules, c.enactment)));
    EntryPromised(c, free, existing, info, c.enactment);
    AddedLock(c, schedules, missing, Period(info.option));
    AccountTotal(c, free, existing, info, missing);
  }

  lemma {:induction false} AddedLock(c: Config, schedules: seq<Schedule>, missing: nat, period: nat)
    requires period > 0
    ensures TotalLocked(schedules + [Schedule(missing, missing / period, c.enactment)], c.enactment) ==
      TotalLocked(schedules, c.enactment) + missing
  {
    TotalLockedSnoc(schedules, Schedule(missing, missing / period, c.enactment), c.enactment);
  }

  lemma {:induction false} AccountTotal(c: Config, free: nat, existing: Option<seq<Schedule>>, info: UserInfo, missing: nat)
    requires !info.option.NoVesting?
    requires var locked := TotalLocked(existing.GetOr([]), c.enactment);
      missing == SatSub(PromisedLock(info), if existing.None? then 0 else Least(free, locked))
    ensures ToppedUp(c, free, existing, info, c.enactment).GetOr([]) ==
      if missing >= Period(info.option) && |existing.GetOr([])| < c.maxSchedules
      then existing.GetOr([]) + [Schedule(missing, missing / Period(info.option), c.enactment)]
      else existing.GetOr([])
  {
  }

  /** A schedule is accepted when there is room for it and the lock is at least one unit per block. */
  lemma {:induction false} SpreadAccepted(c: Config, existing: seq<Schedule>, o: RewardOption, lock: nat)
    requires !o.NoVesting? && |existing| < c.maxSchedules
    ensures Accepts(c, existing, Spread(lock, VestingPeriod(o), c.enactment)) <==> lock >= Period(o)
  {
    PeriodPromised(o);
    StepPositive(lock, Period(o));
  }

  // ---------- one account ----------

  /** The pool can be drawn on, money is accounted for, and there is no dust. */
  ghost predicate Ready(l: Ledger, pool: AccountId) {
    NoDustLedger(l) && Backed(l) && Liquid(l, pool)
  }

  /** l' is l after rewards of a total amount: the pool pays what it can and the rest is minted. */
  ghost predicate Drawn(l: Ledger, l': Ledger, pool: AccountId, amount: nat) {
    && Ready(l', pool)
    && l'.Free(pool) == SatSub(l.Free(pool), amount)
    && l'.issuance == l.issuance + SatSub(amount, l.Free(pool))
  }

  lemma {:induction false} ReadyPayable(l: Ledger, pool: AccountId, who: AccountId, amount: nat)
    requires Ready(l, pool) && who != pool
    ensures Payable(l, pool, ToAccount(who, amount))
  {
  }

  lemma {:induction false} PayDraws(l: Ledger, pool: AccountId, who: AccountId, amount: nat, x: AccountId)
    requires Ready(l, pool) && who != pool && x != pool
    ensures var l' := Pay(l, pool, ToAccount(who, amount));
      && Drawn(l, l', pool, amount)
      && l'.Get(x) == (if x == who then l.Get(x).Credit(amount) else l.Get(x))
  {
    var p := ToAccount(who, amount);
    ReadyPayable(l, pool, who, amount);
    PayEffect(l, pool, p);
    PayLive(l, pool, p);
    NoPoolDust(l, pool, amount);
    if x != who {
      PayElsewhere(l, pool, p, x);
    }
  }

  lemma {:induction false} NoPoolDust(l: Ledger, pool: AccountId, amount: nat)
    requires l.ed <= 1
    ensures PoolDust(l, pool, amount) == 0
  {
  }

  // ---------- the drain of the accounts ----------

  function PaidTo(s: State, order: seq<AccountId>): nat
    requires forall who :: who in order ==> who in s.accounts
  {
    if order == [] then 0 else Promised(s.accounts[order[0]]) + PaidTo(s, order[1..])
  }

  predicate Distinct<T(==)>(order: seq<T>) {
    forall i, j :: 0 <= i < j < |order| ==> order[i] != order[j]
  }

  /** An account after the drain, given whether its turn came. */
  predicate AccountAfter(c: Config, s: State, s': State, x: AccountId, paid: bool) {
    if paid && x in s.accounts then
      var info := s.accounts[x];
      && s'.ledger.Get(x) == s.ledger.Get(x).Credit(Promised(info))
      && Lookup(s'.schedules, x) ==
           ToppedUp(c, s.ledger.Free(x) + Promised(info), Lookup(s.schedules, x), info, s.block)
    else s'.ledger.Get(x) == s.ledger.Get(x) && Lookup(s'.schedules, x) == Lookup(s.schedules, x)
  }

  lemma {:induction false} OneAccount(c: Config, s: State, who: AccountId, x: AccountId)
    requires Ready(s.ledger, c.pool) && who in s.accounts && who != c.pool && x != c.pool
    ensures var s' := ProcessAccount(c, s, who, s.accounts[who]);
      && Drawn(s.ledger, s'.ledger, c.pool, Promised(s.accounts[who]))
      && AccountAfter(c, s, s', x, x == who)
      && s'.accounts == s.accounts && s'.block == s.block
  {
    var amount := Promised(s.accounts[who]);
    RewardPromised(s.accounts[who]);
    EntryPromised(c, s.ledger.Free(who) + amount, Lookup(s.schedules, who), s.accounts[who], s.block);
    PayDraws(s.ledger, c.pool, who, amount, x);
    PayDraws(s.ledger, c.pool, who, amount, who);
  }

  /** After the drain of the accounts, seen from one account: the order left no trace. */
  lemma {:induction false} AccountsDrained(c: Config, s: State, order: seq<AccountId>, x: AccountId)
    requires Ready(s.ledger, c.pool) && Distinct(order) && c.pool !in order && x != c.pool
    requires forall who :: who in order ==> who in s.accounts
    ensures var s' := DrainAccounts(c, s, order);
      && Drawn(s.ledger, s'.ledger, c.pool, PaidTo(s, order))
      && AccountAfter(c, s, s', x, x in order)
    decreases |order|
  {
    if order != [] {
      var who, rest := order[0], order[1..];
      var s1 := ProcessAccount(c, s, who, s.accounts[who]);
      OneAccount(c, s, who, x);
      assert who !in rest;
      AccountsDrained(c, s1, rest, x);
      PaidToSame(s, s1, rest);
      AccountSteps(c, s, s1, DrainAccounts(c, s1, rest), x, x == who, x in rest,
        Promised(s.accounts[who]), PaidTo(s, rest));
    }
  }

  /** Two stretches of the drain, at most one of which pays x, make one. */
  lemma {:induction false} AccountSteps(
      c: Config, s: State, s1: State, s2: State, x: AccountId, first: bool, second: bool, a: nat, b: nat)
    requires s1.accounts == s.accounts && s1.block == s.block && !(first && second)
    requires Drawn(s.ledger, s1.ledger, c.pool, a) && Drawn(s1.ledger, s2.ledger, c.pool, b)
    requires AccountAfter(c, s, s1, x, first) && AccountAfter(c, s1, s2, x, second)
    ensures Drawn(s.ledger, s2.ledger, c.pool, a + b) && AccountAfter(c, s, s2, x, first || second)
  {
  }

  lemma {:induction false} PaidToSame(s: State, s': State, order: seq<AccountId>)
    requires forall who :: who in order ==> who in s.accounts
    requires s'.accounts == s.accounts
    ensures PaidTo(s', order) == PaidTo(s, order)
  {
    if order != [] {
      PaidToSame(s, s', order[1..]);
    }
  }

  // ---------- one leftover claim ----------

  lemma {:induction false} BurnIssue(l: Ledger, amount: nat)
    ensures var l1 := l.Burn(amount).Issue(amount);
      && l1.accounts == l.accounts && l1.ed == l.ed
      && l1.issuance == (if amount <= l.issuance then l.issuance else amount)
      && l.Burned(amount) == Min(amount, l.issuance)
  {
  }

  /** A leftover reward only moves the pool's part out of the accounts and out of issuance. */
  lemma {:induction false} LeftoverDraws(l: Ledger, l1: Ledger, pool: AccountId, amount: nat)
    requires Ready(l, pool)
    requires l1.accounts == l.accounts && l1.ed == l.ed
    requires l1.issuance == (if amount <= l.issuance then l.issuance else amount)
    ensures var l' := OnPositive(l1, pool, Min(amount, l.issuance)).DropNegative(amount);
      && l'.Free(pool) == SatSub(l.Free(pool), amount) && Liquid(l', pool)
      && l'.issuance == l.issuance - Min(amount, l.Free(pool))
      && Backed(l')
  {
    var debit := Min(amount, l.issuance);
    HeldCovers(l, pool);
    SameAccounts(l, l1, pool);
    OnPositiveEffect(l1, pool, debit);
    NoPoolDust(l1, pool, debit);
    DropHeld(OnPositive(l1, pool, debit), amount);
  }

  lemma {:induction false} SameAccounts(l: Ledger, l1: Ledger, pool: AccountId)
    requires l1.accounts == l.accounts && l1.ed == l.ed
    ensures Held(l1) == Held(l) && l1.Get(pool) == l.Get(pool)
  {
  }

  lemma {:induction false} LeftoverElsewhere(l: Ledger, l1: Ledger, pool: AccountId, debit: nat, amount: nat, x: AccountId)
    requires x != pool && l1.accounts == l.accounts && l1.ed == l.ed && Live(l)
    ensures var l' := OnPositive(l1, pool, debit).DropNegative(amount);
      && l'.Get(x) == l.Get(x) && Live(l') && l'.ed == l.ed
  {
    OnPositiveElsewhere(l1, pool, debit, x);
    SettleLive(l1, pool, FromPool(l1, pool, debit));
  }

  /** l' is l after rewards of a total amount went into claims: only what the pool paid has left the accounts. */
  ghost predicate Earmarked(l: Ledger, l': Ledger, pool: AccountId, amount: nat) {
    && Ready(l', pool)
    && l'.Free(pool) == SatSub(l.Free(pool), amount)
    && l'.issuance == l.issuance - Min(amount, l.Free(pool))
  }

  lemma {:induction false} LeftoverLedgerEffect(l: Ledger, pool: AccountId, amount: nat, x: AccountId)
    requires Ready(l, pool) && x != pool
    ensures Earmarked(l, LeftoverLedger(l, pool, amount), pool, amount)
    ensures LeftoverLedger(l, pool, amount).Get(x) == l.Get(x)
  {
    var l1 := l.Burn(amount).Issue(amount);
    BurnIssue(l, amount);
    LeftoverDraws(l, l1, pool, amount);
    LeftoverElsewhere(l, l1, pool, Min(amount, l.issuance), amount, x);
    assert LeftoverLedger(l, pool, amount) == OnPositive(l1, pool, Min(amount, l.issuance)).DropNegative(amount);
  }

  // ---------- the drain of the rewards ----------

  function RewardsIn(s: State, order: seq<EthereumAddress>): nat
    requires forall a :: a in order ==> a in s.rewards
  {
    if order == [] then 0 else s.rewards[order[0]] + RewardsIn(s, order[1..])
  }

  /** An address after the drain, given whether its turn came. */
  predicate AddressAfter(c: Config, s: State, s': State, a: EthereumAddress, paid: bool) {
    if paid && a in s.rewards then
      var reward := s.rewards[a];
      && Lookup(s'.claims, a) == (if a in s.claims then Some(s.claims[a] + reward) else None)
      && Lookup(s'.vesting, a) == LeftoverToppedUp(c, Lookup(s.vesting, a),
           if a in s.claims then s.claims[a] + reward else 0, reward)
    else Lookup(s'.claims, a) == Lookup(s.claims, a) && Lookup(s'.vesting, a) == Lookup(s.vesting, a)
  }

  lemma {:induction false} OneAddress(c: Config, s: State, address: EthereumAddress, a: EthereumAddress)
    requires address in s.rewards
    ensures var s' := ProcessLeftover(c, s, address, s.rewards[address]);
      && AddressAfter(c, s, s', a, a == address)
      && s'.rewards == s.rewards && s'.schedules == s.schedules
      && s'.total == s.total + s.rewards[address]
  {
    var reward := s.rewards[address];
    LeftoverFrame(c, s, address, reward, a);
    LeftoverParts(c, s, address, reward);
    LeftoverPromised(c, Lookup(s.vesting, address),
      Lookup(RewardedClaims(s.claims, address, reward), address).GetOr(0), reward);
    TheAddress(c, s, ProcessLeftover(c, s, address, reward), address, reward, a);
  }

  lemma {:induction false} LeftoverFrame(c: Config, s: State, address: EthereumAddress, reward: nat, a: EthereumAddress)
    ensures var s' := ProcessLeftover(c, s, address, reward);
      && (a != address ==> Lookup(s'.claims, a) == Lookup(s.claims, a) && Lookup(s'.vesting, a) == Lookup(s.vesting, a))
      && s'.rewards == s.rewards && s'.schedules == s.schedules
      && s'.total == s.total + reward
  {
  }

  lemma {:induction false} TheAddress(
      c: Config, s: State, s': State, address: EthereumAddress, reward: nat, a: EthereumAddress)
    requires address in s.rewards && reward == s.rewards[address]
    requires s'.claims == RewardedClaims(s.claims, address, reward)
    requires Lookup(s'.vesting, address) == LeftoverToppedUp(c, Lookup(s.vesting, address),
      Lookup(s'.claims, address).GetOr(0), reward)
    requires a != address ==> Lookup(s'.vesting, a) == Lookup(s.vesting, a)
    ensures AddressAfter(c, s, s', a, a == address)
  {
  }

  /** The ledger side of the drain alone. */
  function DrainLedger(l: Ledger, pool: AccountId, amounts: seq<nat>): Ledger
    decreases |amounts|
  {
    if amounts == [] then l else DrainLedger(LeftoverLedger(l, pool, amounts[0]), pool, amounts[1..])
  }

  function AmountsIn(s: State, order: seq<EthereumAddress>): (r: seq<nat>)
    requires forall a :: a in order ==> a in s.rewards
    ensures |r| == |order|
  {
    if order == [] then [] else [s.rewards[order[0]]] + AmountsIn(s, order[1..])
  }

  lemma {:induction false} RewardsInSame(s: State, s': State, order: seq<EthereumAddress>)
    requires forall a :: a in order ==> a in s.rewards
    requires s'.rewards == s.rewards
    ensures RewardsIn(s', order) == RewardsIn(s, order) && AmountsIn(s', order) == AmountsIn(s, order)
  {
    if order != [] {
      RewardsInSame(s, s', order[1..]);
    }
  }

  /** What the drain of the rewards leaves alone, and the pot it fills. */
  lemma {:induction false} DrainRewardsFrame(c: Config, s: State, order: seq<EthereumAddress>)
    requires forall a :: a in order ==> a in s.rewards
    ensures var s' := DrainRewards(c, s, order);
      && s'.ledger == DrainLedger(s.ledger, c.pool, AmountsIn(s, order))
      && s'.schedules == s.schedules && s'.rewards == s.rewards
      && s'.total == s.total + RewardsIn(s, order)
    decreases |order|
  {
    if order != [] {
      var s1 := ProcessLeftover(c, s, order[0], s.rewards[order[0]]);
      OneAddress(c, s, order[0], order[0]);
      DrainRewardsFrame(c, s1, order[1..]);
      RewardsInSame(s, s1, order[1..]);
      var amounts := AmountsIn(s, order);
      assert amounts[1..] == AmountsIn(s, order[1..]);
    }
  }

  lemma {:induction false} DrainLedgerEffect(l: Ledger, pool: AccountId, amounts: seq<nat>, x: AccountId)
    requires Ready(l, pool) && x != pool
    ensures var l' := DrainLedger(l, pool, amounts);
      Earmarked(l, l', pool, SumOf(amounts)) && l'.Get(x) == l.Get(x)
    decreases |amounts|
  {
    if amounts != [] {
      var l1 := LeftoverLedger(l, pool, amounts[0]);
      LeftoverLedgerEffect(l, pool, amounts[0], x);
      DrainLedgerEffect(l1, pool, amounts[1..], x);
      EarmarkedTwice(l, l1, DrainLedger(l1, pool, amounts[1..]), pool, amounts[0], SumOf(amounts[1..]));
    }
  }

  function SumOf(amounts: seq<nat>): nat {
    if amounts == [] then 0 else amounts[0] + SumOf(amounts[1..])
  }

  lemma {:induction false} AmountsAddUp(s: State, order: seq<EthereumAddress>)
    requires forall a :: a in order ==> a in s.rewards
    ensures SumOf(AmountsIn(s, order)) == RewardsIn(s, order)
  {
    if order != [] {
      AmountsAddUp(s, order[1..]);
      assert AmountsIn(s, order)[1..] == AmountsIn(s, order[1..]);
    }
  }

  lemma {:induction false} EarmarkedTwice(l: Ledger, l1: Ledger, l2: Ledger, pool: AccountId, a: nat, b: nat)
    requires Earmarked(l, l1, pool, a) && Earmarked(l1, l2, pool, b)
    ensures Earmarked(l, l2, pool, a + b)
  {
  }

  /** What the drain of the rewards does to money, seen from one account. */
  ghost predicate SetAside(s: State, s': State, pool: AccountId, amount: nat, x: AccountId) {
    && Earmarked(s.ledger, s'.ledger, pool, amount)
    && s'.ledger.Get(x) == s.ledger.Get(x)
    && s'.total == s.total + amount
    && s'.schedules == s.schedules && s'.rewards == s.rewards
  }

  lemma {:induction false} RewardsSetAside(c: Config, s: State, order: seq<EthereumAddress>, x: AccountId)
    requires Ready(s.ledger, c.pool) && x != c.pool
    requires forall k :: k in order ==> k in s.rewards
    ensures SetAside(s, DrainRewards(c, s, order), c.pool, RewardsIn(s, order), x)
  {
    DrainRewardsFrame(c, s, order);
    AmountsAddUp(s, order);
    DrainLedgerEffect(s.ledger, c.pool, AmountsIn(s, order), x);
  }

  /** After the drain of the rewards, seen from one address: the order left no trace. */
  lemma {:induction false} RewardsDrained(c: Config, s: State, order: seq<EthereumAddress>, a: EthereumAddress)
    requires Distinct(order)
    requires forall k :: k in order ==> k in s.rewards
    ensures AddressAfter(c, s, DrainRewards(c, s, order), a, a in order)
    decreases |order|
  {
    if order != [] {
      var address, rest := order[0], order[1..];
      var s1 := ProcessLeftover(c, s, address, s.rewards[address]);
      OneAddress(c, s, address, a);
      assert address !in rest;
      RewardsDrained(c, s1, rest, a);
      AddressSteps(c, s, s1, DrainRewards(c, s1, rest), a, a == address, a in rest);
    }
  }

  lemma {:induction false} AddressSteps(
      c: Config, s: State, s1: State, s2: State, a: EthereumAddress, first: bool, second: bool)
    requires s1.rewards == s.rewards && !(first && second)
    requires AddressAfter(c, s, s1, a, first) && AddressAfter(c, s1, s2, a, second)
    ensures AddressAfter(c, s, s2, a, first || second)
  {
  }

  // ---------- the whole enactment ----------

  function RewardOf(info: UserInfo): int { Promised(info) }

  function Proposed(n: nat): int { n }

  /** All rewards of accounts. */
  ghost function AccountRewards(s: State): int { Sum(s.accounts, RewardOf) }

  /** All rewards of addresses. */
  ghost function LeftoverRewards(s: State): int { Sum(s.rewards, Proposed) }

  /** Adding up along any order that enumerates a map gives the sum of the map. */
  lemma {:induction false} PaidToAll(s: State, accounts: map<AccountId, UserInfo>, order: seq<AccountId>)
    requires Enumerates(order, accounts.Keys)
    requires forall who :: who in order ==> who in s.accounts && s.accounts[who] == accounts[who]
    ensures PaidTo(s, order) == Sum(accounts, RewardOf)
    decreases |order|
  {
    if order == [] {
      assert accounts == map[];
    } else {
      var who, rest := order[0], order[1..];
      assert who in order;
      SumRemove(accounts, RewardOf, who);
      EnumeratesRest(order, accounts.Keys);
      assert (accounts - {who}).Keys == accounts.Keys - {who};
      PaidToAll(s, accounts - {who}, rest);
    }
  }

  lemma {:induction false} EnumeratesRest<K>(order: seq<K>, keys: set<K>)
    requires order != [] && Enumerates(order, keys)
    ensures Enumerates(order[1..], keys - {order[0]})
  {
    var rest := order[1..];
    forall k | k in rest
      ensures k in keys - {order[0]}
    {
      var i :| 0 <= i < |rest| && rest[i] == k;
      assert order[i + 1] == k && order[0] != order[i + 1];
    }
  }

  lemma {:induction false} RewardsInAll(s: State, rewards: map<EthereumAddress, nat>, order: seq<EthereumAddress>)
    requires Enumerates(order, rewards.Keys)
    requires forall a :: a in order ==> a in s.rewards && s.rewards[a] == rewards[a]
    ensures RewardsIn(s, order) == Sum(rewards, Proposed)
    decreases |order|
  {
    if order == [] {
      assert rewards == map[];
    } else {
      var a, rest := order[0], order[1..];
      assert a in order;
      SumRemove(rewards, Proposed, a);
      EnumeratesRest(order, rewards.Keys);
      assert (rewards - {a}).Keys == rewards.Keys - {a};
      RewardsInAll(s, rewards - {a}, rest);
    }
  }

  /** The promise of the program for one account. */
  predicate AccountPromise(c: Config, s: State, s': State, x: AccountId) {
    AccountAfter(c, s, s', x, true)
  }

  predicate AddressPromise(c: Config, s: State, s': State, a: EthereumAddress) {
    AddressAfter(c, s, s', a, true)
  }

  /** The accounting of an enactment that pays amounts to accounts and to leftover claims. */
  ghost predicate Accounted(s: State, s': State, pool: AccountId, accounts: int, leftovers: int) {
    && Ready(s'.ledger, pool)
    && s'.ledger.Free(pool) == (if s.ledger.Free(pool) < accounts + leftovers then 0
                                else s.ledger.Free(pool) - accounts - leftovers)
    && s'.total == s.total + leftovers
    && s'.ledger.issuance + s'.total ==
         s.ledger.issuance + s.total + accounts + leftovers - (s.ledger.Free(pool) - s'.ledger.Free(pool))
    && s'.accounts == map[] && s'.rewards == map[]
  }

  lemma {:induction false} BothDrained(
      s: State, s1: State, s2: State, pool: AccountId, accounts: nat, leftovers: nat, x: AccountId)
    requires Drawn(s.ledger, s1.ledger, pool, accounts) && SetAside(s1, s2, pool, leftovers, x)
    requires s1.total == s.total
    ensures Accounted(s, Emptied(s2), pool, accounts, leftovers)
  {
  }

  /**
   Enactment, whatever the orders: the pool falls by the smaller of its balance and all rewards together;
   issuance and the pot of claims together rise by exactly what the pool did not pay; issuance still counts
   what accounts hold; and every account and every address gets exactly what its own entry promises.
   */
  lemma {:induction false} EnactmentAccounting(
      c: Config, s: State, accountOrder: seq<AccountId>, rewardOrder: seq<EthereumAddress>,
      x: AccountId, a: EthereumAddress)
    requires Enumerates(accountOrder, s.accounts.Keys) && Enumerates(rewardOrder, s.rewards.Keys)
    requires Ready(s.ledger, c.pool) && c.pool !in s.accounts && x != c.pool
    ensures var s' := Enact(c, s, accountOrder, rewardOrder);
      && Accounted(s, s', c.pool, AccountRewards(s), LeftoverRewards(s))
      && AccountPromise(c, s, s', x) && AddressPromise(c, s, s', a)
  {
    var s1 := DrainAccounts(c, s, accountOrder);
    DrainedKeeps(c, s, accountOrder);
    AccountsDrained(c, s, accountOrder, x);
    PaidToAll(s, s.accounts, accountOrder);
    RewardsSetAside(c, s1, rewardOrder, x);
    RewardsDrained(c, s1, rewardOrder, a);
    RewardsInAll(s1, s.rewards, rewardOrder);
    var s2 := DrainRewards(c, s1, rewardOrder);
    BothDrained(s, s1, s2, c.pool, PaidTo(s, accountOrder), RewardsIn(s1, rewardOrder), x);
    Promises(c, s, s1, s2, x, a, x in accountOrder, a in rewardOrder, PaidTo(s, accountOrder), RewardsIn(s1, rewardOrder));
    assert Enact(c, s, accountOrder, rewardOrder) == Emptied(s2);
  }

  /** A part is a percentage of a whole, to the nearest unit. */
  predicate Near(part: int, pct: nat, whole: nat) {
    pct * whole - 50 <= 100 * part <= pct * whole + 50
  }

  /**
   An account that had no schedules has one afterwards, for what it was paid and a percentage of its principal
   over a period; none if that does not unlock a unit per block.
   */
  predicate Locks(c: Config, after: Option<seq<Schedule>>, info: UserInfo, paid: int, pct: nat, period: nat)
    requires period > 0
  {
    match after
    case None => 100 * paid + pct * info.principal < 100 * period + 50
    case Some(schedules) =>
      && |schedules| == 1
      && schedules[0].start == c.enactment
      && Near(schedules[0].locked - paid, pct, info.principal)
      && schedules[0].perBlock == schedules[0].locked / period > 0
  }

  /** The terms of the five options: percent of the reward paid, percent of the principal locked, days to unlock. */
  predicate Terms(c: Config, after: Option<seq<Schedule>>, info: UserInfo, paid: int) {
    match info.option
    case NoVesting => Near(paid, 2, info.reward) && after.None?
    case Vesting1Month => Near(paid, 12, info.reward) && Locks(c, after, info, paid, 100, 30 * 14_400)
    case Vesting3Month => Near(paid, 45, info.reward) && Locks(c, after, info, paid, 90, 90 * 14_400)
    case Vesting6Month => Near(paid, 100, info.reward) && Locks(c, after, info, paid, 80, 180 * 14_400)
    case Vesting9Month => Near(paid, 120, info.reward) && Locks(c, after, info, paid, 100, 270 * 14_400)
  }

  lemma {:induction false} PromisedTerms(c: Config, free: nat, info: UserInfo, block: nat)
    requires c.maxSchedules > 0
    ensures Terms(c, ToppedUp(c, free, None, info, block), info, Promised(info))
  {
    PercentWithinHalf(2, info.reward);
    PercentWithinHalf(12, info.reward);
    PercentWithinHalf(45, info.reward);
    PercentWithinHalf(20, info.reward);
    PercentWithinHalf(90, info.principal);
    PercentWithinHalf(80, info.principal);
    StepPositive(PromisedLock(info), if info.option.NoVesting? then 1 else Period(info.option));
  }

  /** What enactment does for an account without schedules, in the terms of its option. */
  lemma {:induction false} EnactTerms(
      c: Config, s: State, accountOrder: seq<AccountId>, rewardOrder: seq<EthereumAddress>, x: AccountId)
    requires Enumerates(accountOrder, s.accounts.Keys) && Enumerates(rewardOrder, s.rewards.Keys)
    requires Ready(s.ledger, c.pool) && c.pool !in s.accounts
    requires x in s.accounts && x !in s.schedules && c.maxSchedules > 0
    ensures var s' := Enact(c, s, accountOrder, rewardOrder);
      Terms(c, Lookup(s'.schedules, x), s.accounts[x], s'.ledger.Free(x) - s.ledger.Free(x))
  {
    var info := s.accounts[x];
    EnactmentAccounting(c, s, accountOrder, rewardOrder, x, EthereumAddress(0));
    PromisedTerms(c, s.ledger.Free(x) + Promised(info), info, s.block);
    PaidTerms(c, s, Enact(c, s, accountOrder, rewardOrder), x);
  }

  lemma {:induction false} PaidTerms(c: Config, s: State, s': State, x: AccountId)
    requires AccountPromise(c, s, s', x) && x in s.accounts && x !in s.schedules
    ensures s'.ledger.Free(x) - s.ledger.Free(x) == Promised(s.accounts[x])
    ensures Lookup(s'.schedules, x) ==
      ToppedUp(c, s.ledger.Free(x) + Promised(s.accounts[x]), None, s.accounts[x], s.block)
  {
  }

  lemma {:induction false} Promises(
      c: Config, s: State, s1: State, s2: State, x: AccountId, a: EthereumAddress,
      paid: bool, rewarded: bool, accounts: nat, leftovers: nat)
    requires AccountAfter(c, s, s1, x, paid) && (paid <==> x in s.accounts)
    requires SetAside(s1, s2, c.pool, leftovers, x)
    requires s1.claims == s.claims && s1.vesting == s.vesting && s1.rewards == s.rewards
    requires AddressAfter(c, s1, s2, a, rewarded) && (rewarded <==> a in s.rewards)
    ensures AccountPromise(c, s, Emptied(s2), x) && AddressPromise(c, s, Emptied(s2), a)
  {
  }

  /** Two drain orders end in the same place, seen from any account and any address. */
  lemma {:induction false} OrderIndependent(
      c: Config, s: State, a1: seq<AccountId>, r1: seq<EthereumAddress>, a2: seq<AccountId>, r2: seq<EthereumAddress>,
      x: AccountId, a: EthereumAddress)
    requires Enumerates(a1, s.accounts.Keys) && Enumerates(r1, s.rewards.Keys)
    requires Enumerates(a2, s.accounts.Keys) && Enumerates(r2, s.rewards.Keys)
    requires Ready(s.ledger, c.pool) && c.pool !in s.accounts && x != c.pool
    ensures var s1, s2 := Enact(c, s, a1, r1), Enact(c, s, a2, r2);
      && s1.ledger.Free(c.pool) == s2.ledger.Free(c.pool)
      && s1.ledger.issuance == s2.ledger.issuance && s1.total == s2.total
      && s1.ledger.Get(x) == s2.ledger.Get(x) && Lookup(s1.schedules, x) == Lookup(s2.schedules, x)
      && Lookup(s1.claims, a) == Lookup(s2.claims, a) && Lookup(s1.vesting, a) == Lookup(s2.vesting, a)
  {
    EnactmentAccounting(c, s, a1, r1, x, a);
    EnactmentAccounting(c, s, a2, r2, x, a);
    SamePromises(c, s, Enact(c, s, a1, r1), Enact(c, s, a2, r2), x, a);
  }

  lemma {:induction false} SamePromises(c: Config, s: State, s1: State, s2: State, x: AccountId, a: EthereumAddress)
    requires AccountPromise(c, s, s1, x) && AccountPromise(c, s, s2, x)
    requires AddressPromise(c, s, s1, a) && AddressPromise(c, s, s2, a)
    ensures s1.ledger.Get(x) == s2.ledger.Get(x) && Lookup(s1.schedules, x) == Lookup(s2.schedules, x)
    ensures Lookup(s1.claims, a) == Lookup(s2.claims, a) && Lookup(s1.vesting, a) == Lookup(s2.vesting, a)
  {
  }
}
