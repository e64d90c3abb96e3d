/**
 Betanet staking rewards: at the enactment block an approved program pays every account that has a proposed
 reward, and adds the rewards of the addresses that have not claimed yet to their claims. Both storage maps
 are drained in an order nobody controls.
 */
module Betanet {
  import opened Wrappers
  import opened Ledgers
  import opened Perbills
  import opened Vesting
  import opened Claims
  import RewardPool

  // ---------- the option tables ----------

  /** The vesting period in six-second blocks. */
  function VestingPeriod(o: RewardOption): nat {
    match o
    case NoVesting => 0
    case Vesting1Month => 432_000
    case Vesting3Month => 1_296_000
    case Vesting6Month => 2_592_000
    case Vesting9Month => 3_888_000
  }

  function PrincipalLock(o: RewardOption): Perbill {
    match o
    case NoVesting => 0
    case Vesting1Month => FromRational(1, 1)
    case Vesting3Month => FromRational(9, 10)
    case Vesting6Month => FromRational(8, 10)
    case Vesting9Month => FromRational(1, 1)
  }

  function RewardShare(o: RewardOption): Perbill {
    match o
    case NoVesting => FromRational(2, 100)
    case Vesting1Month => FromRational(12, 100)
    case Vesting3Month => FromRational(45, 100)
    case Vesting6Month => FromRational(1, 1)
    case Vesting9Month => FromRational(1, 1)
  }

  function ExtraShare(o: RewardOption): Perbill {
    if o.Vesting9Month? then FromRational(2, 10) else 0
  }

  /** What an account is paid under its option. */
  function RewardAmount(info: UserInfo): nat {
    Of(RewardShare(info.option), info.reward)
    + (if ExtraShare(info.option) == 0 then 0 else Of(ExtraShare(info.option), info.reward))
  }

  /** How much an account should have locked under its option. */
  function DesiredLock(info: UserInfo): nat {
    Of(PrincipalLock(info.option), info.principal) + RewardAmount(info)
  }

  // ---------- one account ----------

  function Lookup<K, V>(m: map<K, V>, k: K): Option<V> {
    if k in m then Some(m[k]) else None
  }

  /** Store an entry if there is one. */
  function Update<K, V>(m: map<K, V>, k: K, entry: Option<V>): map<K, V> {
    if entry.Some? then m[k := entry.value] else m
  }

  /** What the vesting pallet reports as locked: never more than the balance, and nothing without schedules. */
  function VestingBalance(free: nat, existing: Option<seq<Schedule>>, block: nat): nat {
    if existing.None? then 0 else RewardPool.Min(free, TotalLocked(existing.value, block))
  }

  /** The lock still to be added for an account, given its balance after the reward. */
  function MissingLock(free: nat, existing: Option<seq<Schedule>>, info: UserInfo, block: nat): nat {
    SatSub(DesiredLock(info), VestingBalance(free, existing, block))
  }

  /** The schedules of an account after its lock has been topped up, if that is possible. */
  function LockEntry(c: Config, free: nat, existing: Option<seq<Schedule>>, info: UserInfo, block: nat)
    : Option<seq<Schedule>>
  {
    if info.option.NoVesting? then existing
    else
      var lock := MissingLock(free, existing, info, block);
      if lock == 0 then existing
      else
        var v := Spread(lock, VestingPeriod(info.option), c.enactment);
        if Accepts(c, existing.GetOr([]), v) then Some(existing.GetOr([]) + [v]) else existing
  }

  function WithLedger(s: State, l: Ledger, schedules: map<AccountId, seq<Schedule>>): State {
    State(l, s.claims, s.total, s.vesting, s.signing, s.preclaims, s.rewards, s.accounts, s.approved, schedules, s.block)
  }

  /** Pay one account and lock what its option asks for. */
  function ProcessAccount(c: Config, s: State, who: AccountId, info: UserInfo): State {
    var l := RewardPool.Pay(s.ledger, c.pool, RewardPool.ToAccount(who, RewardAmount(info)));
    WithLedger(s, l,
      Update(s.schedules, who, LockEntry(c, l.Free(who), Lookup(s.schedules, who), info, s.block)))
  }

  // ---------- one leftover claim ----------

  /** Burn and issue the reward, pay the burn from the pool, and drop the rest: the reward leaves issuance. */
  function LeftoverLedger(l: Ledger, pool: AccountId, reward: nat): Ledger {
    RewardPool.OnPositive(l.Burn(reward).Issue(reward), pool, l.Burned(reward)).DropNegative(reward)
  }

  /** The lock a leftover claim should have; the claim already includes the reward. */
  function LeftoverDesired(claim: nat, reward: nat): nat {
    Of(PrincipalLock(Vesting6Month), claim) + reward
  }

  function LeftoverEntry(c: Config, existing: Option<seq<Schedule>>, desired: nat): Option<seq<Schedule>> {
    var lock := Remaining(existing.GetOr([]), desired, c.enactment);
    if lock == 0 then existing
    else Some(existing.GetOr([]) + [Spread(lock, VestingPeriod(Vesting6Month), c.enactment)])
  }

  /** The claims after a reward: an address without a claim gets none. */
  function RewardedClaims(claims: map<EthereumAddress, nat>, address: EthereumAddress, reward: nat): map<EthereumAddress, nat> {
    if address in claims then claims[address := claims[address] + reward] else claims
  }

  function ProcessLeftover(c: Config, s: State, address: EthereumAddress, reward: nat): State {
    var claims := RewardedClaims(s.claims, address, reward);
    State(LeftoverLedger(s.ledger, c.pool, reward), claims, s.total + reward,
      Update(s.vesting, address,
        LeftoverEntry(c, Lookup(s.vesting, address), LeftoverDesired(Lookup(claims, address).GetOr(0), reward))),
      s.signing, s.preclaims, s.rewards, s.accounts, s.approved, s.schedules, s.block)
  }

  // ---------- the two drains ----------

  function DrainAccounts(c: Config, s: State, order: seq<AccountId>): State
    requires forall who :: who in order ==> who in s.accounts
    decreases |order|
  {
    if order == [] then s
    else DrainAccounts(c, ProcessAccount(c, s, order[0], s.accounts[order[0]]), order[1..])
  }

  function DrainRewards(c: Config, s: State, order: seq<EthereumAddress>): State
    requires forall a :: a in order ==> a in s.rewards
    decreases |order|
  {
    if order == [] then s
    else DrainRewards(c, ProcessLeftover(c, s, order[0], s.rewards[order[0]]), order[1..])
  }

  function Emptied(s: State): State {
    State(s.ledger, s.claims, s.total, s.vesting, s.signing, s.preclaims, map[], map[], s.approved, s.schedules, s.block)
  }

  /** An order in which every key of a map comes up exactly once. */
  predicate Enumerates<K(==)>(order: seq<K>, keys: set<K>) {
    && (forall i, j :: 0 <= i < j < |order| ==> order[i] != order[j])
    && (forall k :: k in order ==> k in keys)
    && (forall k :: k in keys ==> k in order)
  }

  function Enact(c: Config, s: State, accountOrder: seq<AccountId>, rewardOrder: seq<EthereumAddress>): State
    requires Enumerates(accountOrder, s.accounts.Keys) && Enumerates(rewardOrder, s.rewards.Keys)
  {
    var paid := DrainAccounts(c, s, accountOrder);
    DrainedKeeps(c, s, accountOrder);
    Emptied(DrainRewards(c, paid, rewardOrder))
  }

  lemma {:induction false} DrainedKeeps(c: Config, s: State, order: seq<AccountId>)
    requires forall who :: who in order ==> who in s.accounts
    ensures var s' := DrainAccounts(c, s, order);
      && s'.claims == s.claims && s'.total == s.total && s'.vesting == s.vesting && s'.rewards == s.rewards
      && s'.signing == s.signing && s'.preclaims == s.preclaims && s'.accounts == s.accounts
      && s'.approved == s.approved && s'.block == s.block
    decreases |order|
  {
    if order != [] {
      DrainedKeeps(c, ProcessAccount(c, s, order[0], s.accounts[order[0]]), order[1..]);
    }
  }

  // ---------- runs ----------

  /** A call, or the next block; the orders matter at the enactment block only. */
  datatype Step =
    | Extrinsic(call: Call)
    | NextBlock(accountOrder: seq<AccountId>, rewardOrder: seq<EthereumAddress>)

  function AtBlock(s: State, block: nat): State {
    State(s.ledger, s.claims, s.total, s.vesting, s.signing, s.preclaims, s.rewards,
      s.accounts, s.approved, s.schedules, block)
  }

  predicate Enacts(c: Config, s: State) {
    s.block + 1 == c.enactment && s.approved
  }

  predicate OrdersOk(c: Config, s: State, step: Step) {
    step.NextBlock? && Enacts(c, s) ==>
      Enumerates(step.accountOrder, s.accounts.Keys) && Enumerates(step.rewardOrder, s.rewards.Keys)
  }

  function Next(c: Config, s: State, step: Step): State
    requires OrdersOk(c, s, step)
  {
    match step
    case Extrinsic(call) =>
      var r := Dispatch(c, s, call);
      if r.Ok? then r.value else s
    case NextBlock(accountOrder, rewardOrder) =>
      var now := AtBlock(s, s.block + 1);
      if Enacts(c, s) then Enact(c, now, accountOrder, rewardOrder) else now
  }

  /** Every drain along the run enumerates its map. */
  predicate RunOk(c: Config, s: State, steps: seq<Step>)
    decreases |steps|
  {
    steps == [] || (OrdersOk(c, s, steps[0]) && RunOk(c, Next(c, s, steps[0]), steps[1..]))
  }

  function Run(c: Config, s: State, steps: seq<Step>): State
    requires RunOk(c, s, steps)
    decreases |steps|
  {
    if steps == [] then s else Run(c, Next(c, s, steps[0]), steps[1..])
  }
}
