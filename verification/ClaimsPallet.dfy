/**
 The storage of the claims and betanet rewards pallets and the code that updates it in place. The order in
 which a storage map is drained is whatever its hashing makes it; it comes in as an argument.
 */
module ClaimsPallet {
  import opened Wrappers
  import opened Ledgers
  import opened Perbills
  import opened Vesting
  import opened Claims
  import opened Betanet
  import opened Enactment
  import RewardPool
  import ClaimsSolvency

  class Pallet {
    const c: Config
    var ledger: Ledger
    var claims: map<EthereumAddress, nat>
    var total: nat
    var vesting: map<EthereumAddress, seq<Schedule>>
    var signing: map<EthereumAddress, StatementKind>
    var preclaims: map<AccountId, EthereumAddress>
    var rewards: map<EthereumAddress, nat>
    var accounts: map<AccountId, UserInfo>
    var approved: bool
    var schedules: map<AccountId, seq<Schedule>>
    var block: nat

    function Snapshot(): State
      reads this
    {
      State(ledger, claims, total, vesting, signing, preclaims, rewards, accounts, approved, schedules, block)
    }

    /** A method did what a dispatch says: the new state on success, nothing on failure. */
    ghost predicate Did(s: State, spec: Result<State, Error>, r: Result<Done, Error>)
      reads this
    {
      && (r.Ok? <==> spec.Ok?)
      && (r.Err? ==> r.error == spec.error)
      && Snapshot() == (if spec.Ok? then spec.value else s)
    }

    constructor (config: Config, s: State)
      ensures c == config && Snapshot() == s
    {
      c := config;
      ledger, claims, total, vesting, signing := s.ledger, s.claims, s.total, s.vesting, s.signing;
      preclaims, rewards, accounts, approved := s.preclaims, s.rewards, s.accounts, s.approved;
      schedules, block := s.schedules, s.block;
    }

    // ---------- claims ----------

    method AddVestingSchedules(dest: AccountId, vs: seq<Schedule>)
      modifies this`schedules
      ensures schedules == AddSchedules(c, old(schedules), dest, vs)
    {
      for i := 0 to |vs|
        invariant schedules == AddSchedules(c, old(schedules), dest, vs[..i])
      {
        assert vs[..i + 1][..i] == vs[..i];
        if Accepts(c, SchedulesOf(schedules, dest), vs[i]) {
          schedules := schedules[dest := SchedulesOf(schedules, dest) + [vs[i]]];
        }
      }
      assert vs[..|vs|] == vs;
    }

    method AddClaimed(dest: AccountId, claim: nat, reward: nat)
      modifies this`accounts
      ensures accounts == Claims.AddClaimed(c, old(Snapshot()), dest, claim, reward)
    {
      if block >= c.enactment {
        return;
      }
      accounts := accounts[dest := UserInfo(claim, reward, Vesting6Month)];
    }

    method DepositCreating(who: AccountId, amount: nat)
      modifies this`ledger
      ensures ledger == Claims.Deposit(old(ledger), who, amount)
    {
      var imbalance := ledger.Deposited(who, amount);
      ledger := ledger.DepositCreating(who, amount);
      ledger := ledger.DropPositive(imbalance);
    }

    method ProcessClaim(signer: EthereumAddress, dest: AccountId) returns (r: Result<Done, Error>)
      modifies this
      ensures Did(old(Snapshot()), Claims.ProcessClaim(c, old(Snapshot()), signer, dest), r)
    {
      if signer !in claims {
        return Err(SignerHasNoClaim);
      }
      var balanceDue := claims[signer];
      if total < balanceDue {
        return Err(PotUnderflow);
      }
      var newTotal := total - balanceDue;
      if signer in vesting && dest in schedules {
        return Err(VestedBalanceExists);
      }
      PayOut(signer, dest, balanceDue, newTotal);
      r := Ok(Done);
    }

    method PayOut(signer: EthereumAddress, dest: AccountId, balanceDue: nat, newTotal: nat)
      requires newTotal + balanceDue == total
      modifies this
      ensures Snapshot() == Claimed(c, old(Snapshot()), signer, dest, balanceDue)
    {
      PayDest(signer, dest, balanceDue);
      total := newTotal;
      claims := claims - {signer};
      vesting := vesting - {signer};
      signing := signing - {signer};
    }

    /** What the account that claims gets: money, schedules, and the reward on file. */
    method PayDest(signer: EthereumAddress, dest: AccountId, balanceDue: nat)
      modifies this`ledger, this`schedules, this`rewards, this`accounts
      ensures ledger == Claims.Deposit(old(ledger), dest, balanceDue)
      ensures schedules == SchedulesAfterClaim(c, old(Snapshot()), signer, dest)
      ensures rewards == old(rewards) - {signer}
      ensures accounts == AccountsAfterClaim(c, old(Snapshot()), signer, dest, balanceDue)
    {
      DepositCreating(dest, balanceDue);
      MoveSchedules(signer, dest);
      TakeReward(signer, dest, balanceDue);
    }

    method MoveSchedules(signer: EthereumAddress, dest: AccountId)
      modifies this`schedules
      ensures schedules == SchedulesAfterClaim(c, old(Snapshot()), signer, dest)
    {
      if signer in vesting {
        AddVestingSchedules(dest, vesting[signer]);
      }
    }

    /** Take the reward of a claimed address and file it under the account. */
    method TakeReward(signer: EthereumAddress, dest: AccountId, due: nat)
      modifies this`rewards, this`accounts
      ensures rewards == old(rewards) - {signer}
      ensures accounts == (if signer in old(rewards) && block < c.enactment
                           then old(accounts)[dest := UserInfo(due, old(rewards)[signer], Vesting6Month)]
                           else old(accounts))
    {
      if signer in rewards {
        var reward := rewards[signer];
        rewards := rewards - {signer};
        AddClaimed(dest, due, reward);
      } else {
        rewards := rewards - {signer};
      }
    }

    method Claim(dest: AccountId, signature: Signature) returns (r: Result<Done, Error>)
      modifies this
      ensures Did(old(Snapshot()), Dispatch(c, old(Snapshot()), Call.Claim(dest, signature)), r)
      ensures ClaimsSolvency.Solvent(old(Snapshot())) ==> ClaimsSolvency.Solvent(Snapshot())
    {
      CallKeepsSolvent(c, Snapshot(), Call.Claim(dest, signature));
      var signer := Signer(c, signature, dest, []);
      if signer.None? {
        return Err(InvalidEthereumSignature);
      }
      if signer.value in signing {
        return Err(InvalidStatement);
      }
      r := ProcessClaim(signer.value, dest);
    }

    method ClaimAttest(dest: AccountId, signature: Signature, statement: Bytes) returns (r: Result<Done, Error>)
      modifies this
      ensures Did(old(Snapshot()), Dispatch(c, old(Snapshot()), Call.ClaimAttest(dest, signature, statement)), r)
      ensures ClaimsSolvency.Solvent(old(Snapshot())) ==> ClaimsSolvency.Solvent(Snapshot())
    {
      CallKeepsSolvent(c, Snapshot(), Call.ClaimAttest(dest, signature, statement));
      var signer := Signer(c, signature, dest, statement);
      if signer.None? {
        return Err(InvalidEthereumSignature);
      }
      if signer.value in signing && c.text(signing[signer.value]) != statement {
        return Err(InvalidStatement);
      }
      r := ProcessClaim(signer.value, dest);
    }

    method Attest(who: AccountId, statement: Bytes) returns (r: Result<Done, Error>)
      modifies this
      ensures Did(old(Snapshot()), Dispatch(c, old(Snapshot()), Call.Attest(who, statement)), r)
      ensures ClaimsSolvency.Solvent(old(Snapshot())) ==> ClaimsSolvency.Solvent(Snapshot())
    {
      CallKeepsSolvent(c, Snapshot(), Call.Attest(who, statement));
      if who !in preclaims {
        return Err(SenderHasNoClaim);
      }
      var signer := preclaims[who];
      if signer in signing && c.text(signing[signer]) != statement {
        return Err(InvalidStatement);
      }
      r := ProcessClaim(signer, who);
      if r.Ok? {
        preclaims := preclaims - {who};
      }
    }

    method MintClaim(address: EthereumAddress, value: nat, vs: Option<seq<Schedule>>, kind: Option<StatementKind>)
      modifies this
      ensures Snapshot() == Minted(old(Snapshot()), Call.MintClaim(address, value, vs, kind))
      ensures ClaimsSolvency.Solvent(old(Snapshot())) ==> ClaimsSolvency.Solvent(Snapshot())
    {
      CallKeepsSolvent(c, Snapshot(), Call.MintClaim(address, value, vs, kind));
      total := total + value;
      claims := claims[address := value];
      if vs.Some? {
        vesting := vesting[address := vs.value];
      }
      if kind.Some? {
        signing := signing[address := kind.value];
      }
    }

    method MoveClaim(from: EthereumAddress, to: EthereumAddress, preclaim: Option<AccountId>)
      modifies this
      ensures Snapshot() == Moved(old(Snapshot()), Call.MoveClaim(from, to, preclaim))
      ensures ClaimsSolvency.Solvent(old(Snapshot())) ==> ClaimsSolvency.Solvent(Snapshot())
    {
      CallKeepsSolvent(c, Snapshot(), Call.MoveClaim(from, to, preclaim));
      MoveEntries(from, to, preclaim);
    }

    /** Re-key what is stored under the old address, and redirect a preclaim that points to it. */
    method MoveEntries(from: EthereumAddress, to: EthereumAddress, preclaim: Option<AccountId>)
      modifies this
      ensures Snapshot() == Moved(old(Snapshot()), Call.MoveClaim(from, to, preclaim))
    {
      if from in claims {
        var claim := claims[from];
        claims := claims - {from};
        claims := claims[to := claim];
      }
      if from in vesting {
        var vs := vesting[from];
        vesting := vesting - {from};
        vesting := vesting[to := vs];
      }
      if from in signing {
        var kind := signing[from];
        signing := signing - {from};
        signing := signing[to := kind];
      }
      if preclaim.Some? && preclaim.value in preclaims && preclaims[preclaim.value] == from {
        preclaims := preclaims[preclaim.value := to];
      }
    }

    // ---------- betanet rewards ----------

    /** An option can be chosen until the enactment block. */
    method SelectOption(who: AccountId, option: RewardOption) returns (r: Result<Done, Error>)
      modifies this
      ensures Did(old(Snapshot()), Dispatch(c, old(Snapshot()), Call.SelectOption(who, option)), r)
      ensures ClaimsSolvency.Solvent(old(Snapshot())) ==> ClaimsSolvency.Solvent(Snapshot())
    {
      CallKeepsSolvent(c, Snapshot(), Call.SelectOption(who, option));
      if who !in accounts {
        return Err(NoRewards);
      }
      if block >= c.enactment {
        return Err(EnactmentBlockHasPassed);
      }
      var info := accounts[who];
      accounts := accounts[who := UserInfo(info.principal, info.reward, option)];
      r := Ok(Done);
    }

    method ApproveProgram() returns (r: Result<Done, Error>)
      modifies this
      ensures Did(old(Snapshot()), Dispatch(c, old(Snapshot()), Approve), r)
      ensures ClaimsSolvency.Solvent(old(Snapshot())) ==> ClaimsSolvency.Solvent(Snapshot())
    {
      CallKeepsSolvent(c, Snapshot(), Approve);
      if block >= c.enactment {
        return Err(EnactmentBlockHasPassed);
      }
      approved := true;
      r := Ok(Done);
    }

    /** Credit the reward, let the pool or the mint stand for it, and top up the lock. */
    method ProcessAccount(who: AccountId, info: UserInfo)
      modifies this`ledger, this`schedules
      ensures Snapshot() == Betanet.ProcessAccount(c, old(Snapshot()), who, info)
    {
      var rewardAmount := RewardAmount(info);
      var imbalance := ledger.Deposited(who, rewardAmount);
      ledger := ledger.DepositCreating(who, rewardAmount);
      ledger := RewardPool.OnPositive(ledger, c.pool, imbalance);
      TopUpLock(who, info);
    }

    method TopUpLock(who: AccountId, info: UserInfo)
      modifies this`schedules
      ensures schedules ==
        Update(old(schedules), who, LockEntry(c, ledger.Free(who), Lookup(old(schedules), who), info, block))
    {
      if info.option.NoVesting? {
        assert Update(schedules, who, Lookup(schedules, who)) == schedules;
        return;
      }
      var lock := MissingLock(ledger.Free(who), Lookup(schedules, who), info, block);
      if lock != 0 {
        var v := Schedule(lock, lock / VestingPeriod(info.option), c.enactment);
        if Accepts(c, SchedulesOf(schedules, who), v) {
          schedules := schedules[who := SchedulesOf(schedules, who) + [v]];
          return;
        }
      }
      assert Update(schedules, who, Lookup(schedules, who)) == schedules;
    }

    /** Credit each existing schedule of an address against the desired lock. */
    method ComputeClaimsVestingLock(who: EthereumAddress, desired: nat) returns (lock: nat)
      ensures lock == Remaining(Lookup(vesting, who).GetOr([]), desired, c.enactment)
    {
      lock := desired;
      if who in vesting {
        var vs := vesting[who];
        for i := 0 to |vs|
          invariant Remaining(vs[i..], lock, c.enactment) == Remaining(vs, desired, c.enactment)
        {
          var blocks := SatSub(c.enactment, vs[i].start);
          lock := SatSub(lock, SatSub(vs[i].locked, vs[i].perBlock * blocks));
          assert vs[i..][1..] == vs[i + 1..];
        }
      }
    }

    /** The reward goes into the claim: a pair of imbalances lets the pool pay and takes the rest out of issuance. */
    method ProcessLeftoverClaim(address: EthereumAddress, reward: nat)
      modifies this
      ensures Snapshot() == ProcessLeftover(c, old(Snapshot()), address, reward)
    {
      AddToClaim(address, reward);
      var principal := if address in claims then claims[address] else 0;
      TopUpClaimLock(address, LeftoverDesired(principal, reward));
    }

    method AddToClaim(address: EthereumAddress, reward: nat)
      modifies this`ledger, this`claims, this`total
      ensures ledger == LeftoverLedger(old(ledger), c.pool, reward)
      ensures claims == RewardedClaims(old(claims), address, reward)
      ensures total == old(total) + reward
    {
      var debit := ledger.Burned(reward);
      ledger := ledger.Burn(reward);
      ledger := ledger.Issue(reward);
      var credit := reward;
      ledger := RewardPool.OnPositive(ledger, c.pool, debit);
      if address in claims {
        claims := claims[address := claims[address] + reward];
      }
      total := total + reward;
      ledger := ledger.DropNegative(credit);
    }

    method TopUpClaimLock(address: EthereumAddress, desired: nat)
      modifies this`vesting
      ensures vesting == Update(old(vesting), address, LeftoverEntry(c, Lookup(old(vesting), address), desired))
    {
      var lock := ComputeClaimsVestingLock(address, desired);
      if lock != 0 {
        var perBlock := lock / VestingPeriod(Vesting6Month);
        vesting := vesting[address := Lookup(vesting, address).GetOr([]) + [Schedule(lock, perBlock, c.enactment)]];
      } else {
        assert Update(vesting, address, Lookup(vesting, address)) == vesting;
      }
    }

    /** The state with the drained maps as they were before the drains. */
    ghost function Undrained(s: State): State
      reads this
    {
      State(ledger, claims, total, vesting, signing, preclaims, s.rewards, s.accounts, approved, schedules, block)
    }

    /** Part way through the first drain: these accounts are left, and draining them leads to the goal. */
    ghost predicate AccountsLeft(s: State, order: seq<AccountId>, goal: State)
      reads this
    {
      && Enumerates(order, accounts.Keys)
      && (forall k :: k in accounts ==> k in s.accounts && accounts[k] == s.accounts[k])
      && rewards == s.rewards
      && DrainAccounts(c, Undrained(s), order) == goal
    }

    /** Drain the accounts; each entry leaves the map before it is processed. */
    method ProcessRewards(order: seq<AccountId>)
      requires Enumerates(order, accounts.Keys)
      modifies this
      ensures Undrained(old(Snapshot())) == DrainAccounts(c, old(Snapshot()), order)
      ensures accounts == map[] && rewards == old(rewards)
    {
      ghost var s := Snapshot();
      ghost var goal := DrainAccounts(c, s, order);
      DrainAllAccounts(order, s, goal);
    }

    method DrainAllAccounts(order: seq<AccountId>, ghost s: State, ghost goal: State)
      requires AccountsLeft(s, order, goal)
      modifies this`ledger, this`schedules, this`accounts
      ensures Undrained(s) == goal && accounts == map[] && rewards == s.rewards
    {
      for i := 0 to |order|
        invariant AccountsLeft(s, order[i..], goal)
      {
        DrainOne(order[i], s, order[i..], goal);
        assert order[i..][1..] == order[i + 1..];
      }
      AccountsDone(s, order[|order|..], goal);
    }

    lemma AccountsDone(s: State, order: seq<AccountId>, goal: State)
      requires order == [] && AccountsLeft(s, order, goal)
      ensures Undrained(s) == goal && accounts == map[] && rewards == s.rewards
    {
      assert accounts.Keys == {};
    }

    method DrainOne(who: AccountId, ghost s: State, ghost order: seq<AccountId>, ghost goal: State)
      requires order != [] && order[0] == who && AccountsLeft(s, order, goal)
      modifies this`ledger, this`schedules, this`accounts
      ensures AccountsLeft(s, order[1..], goal)
    {
      EnumeratesRest(order, accounts.Keys);
      assert who in order;
      var info := accounts[who];
      ghost var before := Undrained(s);
      accounts := accounts - {who};
      ProcessAccount(who, info);
      ghost var after := Undrained(s);
      DrainAccountsStep(c, before, after, order);
    }

    ghost predicate RewardsListed(s: State, order: seq<EthereumAddress>)
      reads this`rewards, this`accounts
    {
      && Enumerates(order, rewards.Keys)
      && (forall k :: k in rewards ==> k in s.rewards && rewards[k] == s.rewards[k])
      && accounts == s.accounts
    }

    /** Part way through the second drain. */
    ghost predicate RewardsLeft(s: State, order: seq<EthereumAddress>, goal: State)
      reads this
    {
      && RewardsListed(s, order)
      && DrainRewards(c, Undrained(s), order) == goal
    }

    /** Drain the rewards of addresses that have not claimed. */
    method ProcessClaims(order: seq<EthereumAddress>)
      requires Enumerates(order, rewards.Keys)
      modifies this
      ensures Undrained(old(Snapshot())) == DrainRewards(c, old(Snapshot()), order)
      ensures rewards == map[] && accounts == old(accounts)
    {
      ghost var s := Snapshot();
      ghost var goal := DrainRewards(c, s, order);
      DrainAllRewards(order, s, goal);
    }

    method DrainAllRewards(order: seq<EthereumAddress>, ghost s: State, ghost goal: State)
      requires RewardsLeft(s, order, goal)
      modifies this
      ensures Undrained(s) == goal && rewards == map[] && accounts == s.accounts
    {
      for i := 0 to |order|
        invariant RewardsLeft(s, order[i..], goal)
      {
        DrainOneClaim(order[i], s, order[i..], goal);
        assert order[i..][1..] == order[i + 1..];
      }
      RewardsDone(s, order[|order|..], goal);
    }

    lemma RewardsDone(s: State, order: seq<EthereumAddress>, goal: State)
      requires order == [] && RewardsLeft(s, order, goal)
      ensures Undrained(s) == goal && rewards == map[] && accounts == s.accounts
    {
      assert rewards.Keys == {};
    }

    method DrainOneClaim(address: EthereumAddress, ghost s: State, ghost order: seq<EthereumAddress>, ghost goal: State)
      requires order != [] && order[0] == address && RewardsLeft(s, order, goal)
      modifies this
      ensures RewardsLeft(s, order[1..], goal)
    {
      ghost var before := Undrained(s);
      var reward := TakeEntry(address, s, order);
      CreditTaken(address, reward, before, order, goal);
    }

    method TakeEntry(address: EthereumAddress, ghost s: State, ghost order: seq<EthereumAddress>) returns (reward: nat)
      requires order != [] && order[0] == address && RewardsListed(s, order)
      modifies this`rewards
      ensures address in s.rewards && reward == s.rewards[address]
      ensures RewardsListed(s, order[1..])
    {
      EnumeratesRest(order, rewards.Keys);
      assert address in order;
      reward := rewards[address];
      rewards := rewards - {address};
    }

    /** Credit the reward of an entry that has left the map. */
    method CreditTaken(
        address: EthereumAddress, reward: nat, ghost before: State, ghost order: seq<EthereumAddress>, ghost goal: State)
      requires order != [] && (forall a :: a in order ==> a in before.rewards)
      requires DrainRewards(c, before, order) == goal
      requires Snapshot() == WithRewards(before, rewards, accounts)
      requires order[0] == address && address in before.rewards && reward == before.rewards[address]
      modifies this
      ensures rewards == old(rewards) && accounts == old(accounts)
      ensures DrainRewards(c, WithRewards(Snapshot(), before.rewards, before.accounts), order[1..]) == goal
    {
      ghost var taken := Snapshot();
      ProcessLeftoverClaim(address, reward);
      ghost var after := Snapshot();
      DrainRewardsStep(c, before, taken, after, order);
    }

    method EnactProgram(accountOrder: seq<AccountId>, rewardOrder: seq<EthereumAddress>)
      requires Enumerates(accountOrder, accounts.Keys) && Enumerates(rewardOrder, rewards.Keys)
      modifies this
      ensures Snapshot() == Enact(c, old(Snapshot()), accountOrder, rewardOrder)
    {
      ghost var s := Snapshot();
      ghost var paid := DrainAccounts(c, s, accountOrder);
      DrainedKeeps(c, s, accountOrder);
      ProcessRewards(accountOrder);
      ghost var s1 := Snapshot();
      DrainIgnoresAccounts(c, paid, s1, rewardOrder);
      ProcessClaims(rewardOrder);
    }

    /** A new block; at the enactment block an approved program is enacted. */
    method OnInitialize(accountOrder: seq<AccountId>, rewardOrder: seq<EthereumAddress>)
      requires OrdersOk(c, Snapshot(), NextBlock(accountOrder, rewardOrder))
      modifies this
      ensures Snapshot() == Next(c, old(Snapshot()), NextBlock(accountOrder, rewardOrder))
      ensures ClaimsSolvency.Solvent(old(Snapshot())) ==> ClaimsSolvency.Solvent(Snapshot())
    {
      StepKeepsSolvent(c, Snapshot(), NextBlock(accountOrder, rewardOrder));
      EnterBlock(accountOrder, rewardOrder);
    }

    method EnterBlock(accountOrder: seq<AccountId>, rewardOrder: seq<EthereumAddress>)
      requires OrdersOk(c, Snapshot(), NextBlock(accountOrder, rewardOrder))
      modifies this
      ensures Snapshot() == Next(c, old(Snapshot()), NextBlock(accountOrder, rewardOrder))
    {
      block := block + 1;
      if block == c.enactment {
        if approved {
          EnactProgram(accountOrder, rewardOrder);
        }
      }
    }
  }

  /** The pot covers the claims after any step if it did before. */
  lemma {:induction false} StepKeepsSolvent(c: Config, s: State, step: Step)
    requires OrdersOk(c, s, step)
    ensures ClaimsSolvency.Solvent(s) ==> ClaimsSolvency.Solvent(Next(c, s, step))
  {
    ClaimsSolvency.StepGap(c, s, step);
  }

  lemma {:induction false} CallKeepsSolvent(c: Config, s: State, call: Call)
    ensures var r := Dispatch(c, s, call);
      ClaimsSolvency.Solvent(s) && r.Ok? ==> ClaimsSolvency.Solvent(r.value)
  {
    if Dispatch(c, s, call).Ok? {
      ClaimsSolvency.DispatchGap(c, s, call);
    }
  }

  /** The rewards drain does not look at the accounts map. */
  lemma {:induction false} DrainIgnoresAccounts(c: Config, s: State, s': State, order: seq<EthereumAddress>)
    requires forall a :: a in order ==> a in s.rewards
    requires s' == State(s.ledger, s.claims, s.total, s.vesting, s.signing, s.preclaims, s.rewards,
      s'.accounts, s.approved, s.schedules, s.block)
    ensures Emptied(DrainRewards(c, s', order)) == Emptied(DrainRewards(c, s, order))
    decreases |order|
  {
    if order != [] {
      DrainIgnoresAccounts(c, ProcessLeftover(c, s, order[0], s.rewards[order[0]]),
        ProcessLeftover(c, s', order[0], s.rewards[order[0]]), order[1..]);
    }
  }

  lemma {:induction false} DrainAccountsStep(c: Config, s: State, s': State, order: seq<AccountId>)
    requires order != [] && (forall who :: who in order ==> who in s.accounts)
    requires s' == Betanet.ProcessAccount(c, s, order[0], s.accounts[order[0]])
    ensures s'.accounts == s.accounts
    ensures DrainAccounts(c, s, order) == DrainAccounts(c, s', order[1..])
  {
  }

  /** The state with other reward maps. */
  function WithRewards(s: State, rewards: map<EthereumAddress, nat>, accounts: map<AccountId, UserInfo>): State {
    State(s.ledger, s.claims, s.total, s.vesting, s.signing, s.preclaims, rewards, accounts, s.approved, s.schedules, s.block)
  }

  /** Crediting a leftover claim does not look at the maps that are drained. */
  lemma {:induction false} LeftoverIgnoresRewards(
      c: Config, s: State, taken: State, address: EthereumAddress, reward: nat)
    requires taken == WithRewards(s, taken.rewards, taken.accounts)
    ensures var after := ProcessLeftover(c, taken, address, reward);
      && after.rewards == taken.rewards && after.accounts == taken.accounts
      && ProcessLeftover(c, s, address, reward) == WithRewards(after, s.rewards, s.accounts)
  {
  }

  lemma {:induction false} DrainRewardsStep(
      c: Config, s: State, taken: State, after: State, order: seq<EthereumAddress>)
    requires order != [] && (forall a :: a in order ==> a in s.rewards)
    requires taken == WithRewards(s, taken.rewards, taken.accounts)
    requires after == ProcessLeftover(c, taken, order[0], s.rewards[order[0]])
    ensures after.rewards == taken.rewards && after.accounts == taken.accounts
    ensures DrainRewards(c, s, order) == DrainRewards(c, WithRewards(after, s.rewards, s.accounts), order[1..])
  {
    LeftoverIgnoresRewards(c, s, taken, order[0], s.rewards[order[0]]);
  }
}
