/**
 Money over whole runs of claims and rewards. Issuance plus the pot of claims changes only when a claim is
 minted and when the enacted rewards exceed the pool; issuance always counts what the accounts hold.
 */
module ClaimsMoney {
  import opened Wrappers
  import opened Ledgers
  import opened Perbills
  import opened Claims
  import opened Betanet
  import opened Enactment
  import opened RewardPool

  /** What exists plus what is promised. */
  function Money(s: State): nat { s.ledger.issuance + s.total }

  lemma {:induction false} DepositReady(l: Ledger, pool: AccountId, who: AccountId, amount: nat)
    requires Ready(l, pool)
    ensures var l' := Claims.Deposit(l, who, amount);
      Ready(l', pool) && l'.issuance == l.issuance + amount
  {
    DepositEffect(l, who, amount, pool);
    DepositLive(l, who, amount);
    DepositedAll(l, who, amount);
    DropHeld(l.DepositCreating(who, amount), amount);
    assert Claims.Deposit(l, who, amount) == l.DepositCreating(who, amount).DropPositive(amount);
  }

  lemma {:induction false} DepositedAll(l: Ledger, who: AccountId, amount: nat)
    requires l.ed <= 1
    ensures l.Deposited(who, amount) == amount
  {
  }

  lemma {:induction false} ProcessClaimMoney(c: Config, s: State, signer: EthereumAddress, dest: AccountId)
    requires Ready(s.ledger, c.pool) && ProcessClaim(c, s, signer, dest).Ok?
    ensures var s' := ProcessClaim(c, s, signer, dest).value;
      Ready(s'.ledger, c.pool) && Money(s') == Money(s)
  {
    DepositReady(s.ledger, c.pool, dest, s.claims[signer]);
  }

  /** The money a call adds. */
  function MintedBy(call: Call): nat {
    if call.MintClaim? then call.value else 0
  }

  lemma {:induction false} DispatchMoney(c: Config, s: State, call: Call)
    requires Ready(s.ledger, c.pool) && Dispatch(c, s, call).Ok?
    ensures var s' := Dispatch(c, s, call).value;
      Ready(s'.ledger, c.pool) && Money(s') == Money(s) + MintedBy(call)
  {
    match call
    case Claim(dest, signature) => ProcessClaimMoney(c, s, Signer(c, signature, dest, []).value, dest);
    case ClaimAttest(dest, signature, statement) =>
      ProcessClaimMoney(c, s, Signer(c, signature, dest, statement).value, dest);
    case Attest(who, _) => ProcessClaimMoney(c, s, s.preclaims[who], who);
    case _ =>
  }

  /** The rewards the pool cannot cover at an enactment. */
  ghost function Uncovered(c: Config, s: State): int {
    var rewards := AccountRewards(s) + LeftoverRewards(s);
    if rewards < s.ledger.Free(c.pool) then 0 else rewards - s.ledger.Free(c.pool)
  }

  ghost function Added(c: Config, s: State, step: Step): int {
    match step
    case Extrinsic(call) => if Dispatch(c, s, call).Ok? then MintedBy(call) else 0
    case NextBlock(_, _) => if Enacts(c, s) then Uncovered(c, s) else 0
  }

  lemma {:induction false} ExtrinsicMoney(c: Config, s: State, call: Call)
    requires Ready(s.ledger, c.pool)
    ensures var s' := Next(c, s, Extrinsic(call));
      Ready(s'.ledger, c.pool) && Money(s') == Money(s) + Added(c, s, Extrinsic(call))
  {
    if Dispatch(c, s, call).Ok? {
      DispatchMoney(c, s, call);
    }
  }

  lemma {:induction false} BlockMoney(
      c: Config, s: State, accountOrder: seq<AccountId>, rewardOrder: seq<EthereumAddress>)
    requires Ready(s.ledger, c.pool) && OrdersOk(c, s, NextBlock(accountOrder, rewardOrder))
    requires Enacts(c, s) ==> c.pool !in s.accounts
    ensures var s' := Next(c, s, NextBlock(accountOrder, rewardOrder));
      Ready(s'.ledger, c.pool) && Money(s') == Money(s) + Added(c, s, NextBlock(accountOrder, rewardOrder))
  {
    if Enacts(c, s) {
      var now := AtBlock(s, s.block + 1);
      EnactMoney(c, now, accountOrder, rewardOrder);
      assert Next(c, s, NextBlock(accountOrder, rewardOrder)) == Enact(c, now, accountOrder, rewardOrder);
      assert Uncovered(c, now) == Uncovered(c, s);
    }
  }

  lemma {:induction false} EnactMoney(
      c: Config, s: State, accountOrder: seq<AccountId>, rewardOrder: seq<EthereumAddress>)
    requires Enumerates(accountOrder, s.accounts.Keys) && Enumerates(rewardOrder, s.rewards.Keys)
    requires Ready(s.ledger, c.pool) && c.pool !in s.accounts
    ensures var s' := Enact(c, s, accountOrder, rewardOrder);
      Ready(s'.ledger, c.pool) && Money(s') == Money(s) + Uncovered(c, s)
  {
    var x := if c.pool.User? then Pallet("") else User(0);
    EnactmentAccounting(c, s, accountOrder, rewardOrder, x, EthereumAddress(0));
    AccountedMoney(c, s, Enact(c, s, accountOrder, rewardOrder));
  }

  lemma {:induction false} AccountedMoney(c: Config, s: State, s': State)
    requires Accounted(s, s', c.pool, AccountRewards(s), LeftoverRewards(s))
    ensures Money(s') == Money(s) + Uncovered(c, s)
  {
  }

  /** The pool account has no proposed reward when the program is enacted. */
  predicate PoolApart(c: Config, s: State, steps: seq<Step>)
    requires RunOk(c, s, steps)
    decreases |steps|
  {
    steps == [] ||
      ((steps[0].NextBlock? && Enacts(c, s) ==> c.pool !in s.accounts) && PoolApart(c, Next(c, s, steps[0]), steps[1..]))
  }

  ghost function AddedIn(c: Config, s: State, steps: seq<Step>): int
    requires RunOk(c, s, steps)
    decreases |steps|
  {
    if steps == [] then 0 else Added(c, s, steps[0]) + AddedIn(c, Next(c, s, steps[0]), steps[1..])
  }

  /** Over any run, claims move money from the pot into accounts and only mints and uncovered rewards add any. */
  lemma {:induction false} RunMoney(c: Config, s: State, steps: seq<Step>)
    requires RunOk(c, s, steps) && PoolApart(c, s, steps) && Ready(s.ledger, c.pool)
    ensures var s' := Run(c, s, steps);
      Ready(s'.ledger, c.pool) && Money(s') == Money(s) + AddedIn(c, s, steps)
    decreases |steps|
  {
    if steps != [] {
      match steps[0] {
        case Extrinsic(call) => ExtrinsicMoney(c, s, call);
        case NextBlock(accountOrder, rewardOrder) => BlockMoney(c, s, accountOrder, rewardOrder);
      }
      RunMoney(c, Next(c, s, steps[0]), steps[1..]);
    }
  }
}
