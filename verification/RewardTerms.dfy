/**
 The terms of the betanet rewards in plain percentages and blocks: what each option pays, which share of the
 principal it locks, and over how many blocks it unlocks. The tables of the pallet are proved to mean this.
 */
module RewardTerms {
  import opened Wrappers
  import opened Perbills
  import opened Vesting
  import opened Claims
  import opened Betanet

  /** A percentage of an amount, to the nearest unit, ties down. */
  function Percent(pct: nat, x: nat): nat { (pct * x + 49) / 100 }

  /** A rounded percentage is within half a unit of the exact one. */
  lemma {:induction false} PercentWithinHalf(pct: nat, x: nat)
    ensures 2 * pct * x - 100 <= 200 * Percent(pct, x) < 2 * pct * x + 100
  {
    assert 2 * pct * x == 2 * (pct * x);
  }

  /** What an option pays of a proposed reward; nine months add a fifth on top of all of it. */
  function Promised(info: UserInfo): nat {
    match info.option
    case NoVesting => Percent(2, info.reward)
    case Vesting1Month => Percent(12, info.reward)
    case Vesting3Month => Percent(45, info.reward)
    case Vesting6Month => info.reward
    case Vesting9Month => info.reward + Percent(20, info.reward)
  }

  /** What an option locks: its share of the principal, and the reward it pays. */
  function PromisedLock(info: UserInfo): nat {
    Promised(info) +
    match info.option
    case NoVesting => 0
    case Vesting1Month => info.principal
    case Vesting3Month => Percent(90, info.principal)
    case Vesting6Month => Percent(80, info.principal)
    case Vesting9Month => info.principal
  }

  /** The blocks over which it unlocks; a month has 30 days of 14400 blocks. */
  function Period(o: RewardOption): nat {
    match o
    case NoVesting => 0
    case Vesting1Month => 30 * 14_400
    case Vesting3Month => 90 * 14_400
    case Vesting6Month => 180 * 14_400
    case Vesting9Month => 270 * 14_400
  }

  // ---------- the tables mean this ----------

  lemma {:induction false} NearestOfPercent(n: nat)
    ensures Nearest(10_000_000 * n) == (n + 49) / 100
  {
    var q, r := n / 100, n % 100;
    assert 10_000_000 * n == BILLION * q + 10_000_000 * r;
  }

  lemma {:induction false} OfPercent(p: Perbill, pct: nat, x: nat)
    requires p == 10_000_000 * pct
    ensures Of(p, x) == Percent(pct, x)
  {
    NearestOfPercent(pct * x);
    assert p * x == 10_000_000 * (pct * x);
  }

  lemma {:induction false} OfAll(x: nat)
    ensures Of(BILLION, x) == x && Of(0, x) == 0
  {
    OfPercent(BILLION, 100, x);
    OfPercent(0, 0, x);
  }

  /** The reward table pays what is promised. */
  lemma {:induction false} RewardPromised(info: UserInfo)
    ensures RewardAmount(info) == Promised(info)
  {
    OfAll(info.reward);
    match info.option
    case NoVesting => OfPercent(RewardShare(info.option), 2, info.reward);
    case Vesting1Month => OfPercent(RewardShare(info.option), 12, info.reward);
    case Vesting3Month => OfPercent(RewardShare(info.option), 45, info.reward);
    case Vesting6Month =>
    case Vesting9Month => OfPercent(ExtraShare(info.option), 20, info.reward);
  }

  /** The lock table locks what is promised. */
  lemma {:induction false} LockPromised(info: UserInfo)
    ensures DesiredLock(info) == PromisedLock(info)
  {
    RewardPromised(info);
    OfAll(info.principal);
    match info.option
    case Vesting3Month => OfPercent(PrincipalLock(info.option), 90, info.principal);
    case Vesting6Month => OfPercent(PrincipalLock(info.option), 80, info.principal);
    case _ =>
  }

  lemma {:induction false} PeriodPromised(o: RewardOption)
    ensures VestingPeriod(o) == Period(o)
  {
  }

  // ---------- the schedules ----------

  /** The schedules of an account after the top-up: one more if the missing lock unlocks a unit a block and there is room. */
  function ToppedUp(c: Config, free: nat, existing: Option<seq<Schedule>>, info: UserInfo, block: nat)
    : Option<seq<Schedule>>
  {
    if info.option.NoVesting? then existing
    else
      var locked := if existing.None? then 0 else Least(free, TotalLocked(existing.value, block));
      var missing := SatSub(PromisedLock(info), locked);
      if missing < Period(info.option) || |existing.GetOr([])| >= c.maxSchedules then existing
      else Some(existing.GetOr([]) + [Schedule(missing, missing / Period(info.option), c.enactment)])
  }

  function Least(a: nat, b: nat): nat { if a <= b then a else b }

  lemma {:induction false} EntryPromised(c: Config, free: nat, existing: Option<seq<Schedule>>, info: UserInfo, block: nat)
    ensures LockEntry(c, free, existing, info, block) == ToppedUp(c, free, existing, info, block)
  {
    LockPromised(info);
    PeriodPromised(info.option);
    if !info.option.NoVesting? {
      StepPositive(MissingLock(free, existing, info, block), Period(info.option));
    }
  }

  lemma {:induction false} StepPositive(lock: nat, period: nat)
    requires period > 0
    ensures lock / period > 0 <==> lock >= period
  {
    if lock >= period {
      DivMono(period, lock, period);
    }
  }

  /** What a leftover claim should have locked: four fifths of the claim, and the reward. */
  function LeftoverLocked(claim: nat, reward: nat): nat { Percent(80, claim) + reward }

  /** The schedules of an address after the top-up of its leftover claim. */
  function LeftoverToppedUp(c: Config, existing: Option<seq<Schedule>>, claim: nat, reward: nat): Option<seq<Schedule>> {
    var missing := SatSub(LeftoverLocked(claim, reward), TotalLocked(existing.GetOr([]), c.enactment));
    if missing == 0 then existing
    else Some(existing.GetOr([]) + [Schedule(missing, missing / (180 * 14_400), c.enactment)])
  }

  lemma {:induction false} LeftoverPromised(c: Config, existing: Option<seq<Schedule>>, claim: nat, reward: nat)
    ensures LeftoverDesired(claim, reward) == LeftoverLocked(claim, reward)
    ensures LeftoverEntry(c, existing, LeftoverDesired(claim, reward)) == LeftoverToppedUp(c, existing, claim, reward)
  {
    OfPercent(PrincipalLock(Vesting6Month), 80, claim);
    RemainingIsOneSubtraction(existing.GetOr([]), LeftoverDesired(claim, reward), c.enactment);
  }
}
