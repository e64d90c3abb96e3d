/** The storage of the economics pallet and the code that updates it in place. */
module EconomicsPallet {
  import opened Wrappers
  import opened Ledgers
  import opened Perbills
  import opened Interest
  import opened EraPayout
  import RewardPool

  datatype Event = RewardFromPool(amount: nat) | RewardMinted(amount: nat)

  /** The events of one reward; a part of zero has none. */
  function RewardEvents(fromPool: nat, minted: nat): seq<Event> {
    (if fromPool == 0 then [] else [RewardFromPool(fromPool)]) + (if minted == 0 then [] else [RewardMinted(minted)])
  }

  class Pallet {
    const c: Config
    var params: InflationParams
    var points: seq<Point>
    var idealLiquidityStake: nat
    var liquidity: nat
    var custody: nat
    var ledger: Ledger
    var block: nat
    var events: seq<Event>

    function Snapshot(): State
      reads this
    {
      State(params, points, idealLiquidityStake, liquidity, custody, ledger)
    }

    constructor (config: Config, p: InflationParams, initial: seq<Point>, stake: nat, rewards: nat, l: Ledger)
      ensures c == config && SortedByBlock(points) && multiset(points) == multiset(initial)
      ensures points == SortByBlock(initial)
      ensures params == p && idealLiquidityStake == stake && liquidity == rewards && ledger == l
    {
      c := config;
      params, points, idealLiquidityStake, liquidity := p, SortByBlock(initial), stake, rewards;
      custody, ledger, block, events := 0, l, 0, [];
      SortSorts(initial);
    }

    /** Replace the interest points, sorting them first, once the admin origin has been checked. */
    method SetInterestPoints(replacement: seq<Point>)
      modifies this`points
      ensures points == SortByBlock(replacement)
      ensures SortedByBlock(points) && multiset(points) == multiset(replacement)
      ensures forall b :: AtBlock(points, b) == AtBlock(replacement, b)
    {
      var sorted := SortByBlock(replacement);
      SortSorts(replacement);
      points := sorted;
    }

    method UpdateLiquidityRewards(portion: Perbill, interest: Perbill)
      modifies this`liquidity
      ensures liquidity == SatSub(old(liquidity), Of(portion, Of(interest, idealLiquidityStake)))
    {
      var payout := Of(portion, Of(interest, idealLiquidityStake));
      liquidity := SatSub(liquidity, payout);
    }

    method ComputeTotalStakeable(issuance: nat) returns (r: nat)
      ensures r == Stakeable(c, Snapshot(), issuance)
    {
      var unstakeable := ledger.Free(c.pool) + custody + liquidity;
      for i := 0 to |c.public|
        invariant unstakeable + RewardPool.FreeSum(ledger, c.public[i..]) ==
          RewardPool.Unstakeable(ledger, c.pool, custody, liquidity, c.public)
      {
        assert c.public[i..][1..] == c.public[i + 1..];
        unstakeable := unstakeable + ledger.Free(c.public[i]);
      }
      r := SatSub(issuance, unstakeable);
    }

    /** era_payout; it panics without interest points. */
    method EraPayout(staked: nat, issuance: nat, millis: nat) returns (validator: nat, rest: nat)
      requires points != []
      modifies this`liquidity
      ensures var interest := GetIdealInterest(c.era, points, block);
        && (validator, rest) == Parts(c, old(Snapshot()), interest, staked, issuance, millis)
        && Snapshot() == PayLiquidity(old(Snapshot()), LiquidityPayout(old(Snapshot()), interest, millis))
    {
      var interest := GetIdealInterest(c.era, points, block);
      var max := Times(interest, params.idealStake);
      var stakeable := ComputeTotalStakeable(issuance);
      var stake := RewardPool.Min(staked, stakeable);
      var ratio := FromRational(stake, stakeable);
      var curveValue := c.curve(ratio, params.idealStake, params.falloff);
      var inflation := PerbillAdd(params.minInflation, Times(curveValue, SatSub(max, params.minInflation)));
      var portion := FromRational(millis, MILLISECONDS_PER_YEAR);
      UpdateLiquidityRewards(portion, interest);
      validator := Of(portion, Of(inflation, stakeable));
      var maxPayout := Of(portion, Of(max, stakeable));
      rest := SatSub(maxPayout, validator);
    }

    // ---------- rewards ----------

    /** Settle a positive imbalance from the pool; nothing happens for an empty one. */
    method Withdraw(amount: nat)
      modifies this`ledger, this`events
      ensures ledger == RewardPool.SettleFrom(old(ledger), c.pool, amount)
      ensures events == old(events) + (if amount == 0 then [] else [RewardFromPool(amount)])
    {
      if amount == 0 {
        return;
      }
      var r := ledger.Withdraw(c.pool, amount);
      if r.Ok? {
        ledger := r.value;
      } else {
        ledger := ledger.DropPositive(amount);
      }
      events := events + [RewardFromPool(amount)];
    }

    method MintEvent(amount: nat)
      modifies this`events
      ensures events == old(events) + (if amount == 0 then [] else [RewardMinted(amount)])
    {
      if amount != 0 {
        events := events + [RewardMinted(amount)];
      }
    }

    /** The handler of positive imbalances; the unpaid part is minted when it is dropped at the end. */
    method OnNonzeroUnbalanced(amount: nat)
      modifies this`ledger, this`events
      ensures ledger == RewardPool.OnPositive(old(ledger), c.pool, amount)
      ensures var fromPool := RewardPool.FromPool(old(ledger), c.pool, amount);
        events == old(events) + RewardEvents(fromPool, amount - fromPool)
      ensures var l := old(ledger);
        RewardPool.Liquid(l, c.pool) && l.Free(c.pool) <= l.issuance ==> RewardPool.Rewarded(l, ledger, c.pool, amount)
    {
      ghost var l := ledger;
      if RewardPool.Liquid(l, c.pool) && l.Free(c.pool) <= l.issuance {
        RewardPool.OnPositiveEffect(l, c.pool, amount);
      }
      var balance := ledger.Free(c.pool);
      var withdraw := RewardPool.Min(amount, balance);
      var mint := amount - withdraw;
      Withdraw(withdraw);
      MintEvent(mint);
      ledger := ledger.DropPositive(mint);
    }

    /** A reward for the treasury has been issued on top of l, which can pay it. */
    ghost predicate Owes(l: Ledger, issued: Ledger, amount: nat) {
      issued == l.Issue(amount) && Backed(l) && RewardPool.Payable(l, c.pool, RewardPool.ToTreasury(c.treasury, amount))
    }

    /** The handler of negative imbalances, which end up with the treasury. */
    method OnRewardRemainder(amount: nat)
      modifies this`ledger, this`events
      ensures ledger == RewardPool.OnNegative(old(ledger), c.pool, c.treasury, amount)
      ensures var fromPool := RewardPool.FromPool(old(ledger), c.pool, amount);
        events == old(events) + RewardEvents(old(ledger).Burned(fromPool), amount - fromPool)
      ensures forall l: Ledger :: Owes(l, old(ledger), amount) ==> RewardPool.Paid(l, ledger, c.pool, c.treasury, amount)
    {
      forall l: Ledger | Owes(l, ledger, amount)
        ensures RewardPool.Paid(l, RewardPool.OnNegative(ledger, c.pool, c.treasury, amount), c.pool, c.treasury, amount)
      {
        RewardPool.OnNegativePays(l, ledger, c.pool, c.treasury, amount);
      }
      var balance := ledger.Free(c.pool);
      var withdraw := RewardPool.Min(amount, balance);
      var mint := amount - withdraw;
      var imbalance := ledger.Burned(withdraw);
      ledger := ledger.Burn(withdraw);
      Withdraw(imbalance);
      MintEvent(mint);
      ledger := RewardPool.Resolve(ledger, c.treasury, amount);
    }
  }
}
