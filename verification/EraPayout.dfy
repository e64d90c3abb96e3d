/** The payout of one era: what validators get, what is left for the treasury, and the liquidity rewards set aside. */
module EraPayout {
  import opened Ledgers
  import opened Perbills
  import opened Interest
  import RewardPool

  datatype InflationParams = InflationParams(minInflation: Perbill, idealStake: Perbill, falloff: Perbill)

  /** The inflation curve of the staking pallet is some function of stake ratio, ideal stake and falloff. */
  datatype Config = Config(
    era: nat,
    pool: AccountId,
    treasury: AccountId,
    public: seq<AccountId>,
    curve: (Perbill, Perbill, Perbill) -> Perbill)

  datatype State = State(
    params: InflationParams,
    points: seq<Point>,
    idealLiquidityStake: nat,
    liquidity: nat,
    custody: nat,
    ledger: Ledger)

  /** A Julian year. */
  const MILLISECONDS_PER_YEAR: nat := 1000 * 3600 * 24 * 36525 / 100

  function Portion(millis: nat): Perbill { FromRational(millis, MILLISECONDS_PER_YEAR) }

  function Stakeable(c: Config, s: State, issuance: nat): nat {
    RewardPool.TotalStakeable(s.ledger, issuance, c.pool, s.custody, s.liquidity, c.public)
  }

  /** Inflation rises from the minimum towards the maximum by the value of the curve. */
  function Inflation(params: InflationParams, max: Perbill, curveValue: Perbill): Perbill {
    PerbillAdd(params.minInflation, Times(curveValue, SatSub(max, params.minInflation)))
  }

  function MaxInflation(params: InflationParams, interest: Perbill): Perbill {
    Times(interest, params.idealStake)
  }

  function StakeRatio(staked: nat, stakeable: nat): Perbill {
    FromRational(RewardPool.Min(staked, stakeable), stakeable)
  }

  /** A share of the stakeable amount, for the part of a year an era takes. */
  function Share(millis: nat, inflation: Perbill, stakeable: nat): nat {
    Of(Portion(millis), Of(inflation, stakeable))
  }

  function InflationNow(c: Config, s: State, interest: Perbill, staked: nat, stakeable: nat): Perbill {
    Inflation(s.params, MaxInflation(s.params, interest),
      c.curve(StakeRatio(staked, stakeable), s.params.idealStake, s.params.falloff))
  }

  /** The two parts of an era payout at a given ideal interest. */
  function Parts(c: Config, s: State, interest: Perbill, staked: nat, issuance: nat, millis: nat): (nat, nat) {
    var stakeable := Stakeable(c, s, issuance);
    var validator := Share(millis, InflationNow(c, s, interest, staked, stakeable), stakeable);
    (validator, SatSub(Share(millis, MaxInflation(s.params, interest), stakeable), validator))
  }

  function LiquidityPayout(s: State, interest: Perbill, millis: nat): nat {
    Of(Portion(millis), Of(interest, s.idealLiquidityStake))
  }

  function PayLiquidity(s: State, payout: nat): State {
    State(s.params, s.points, s.idealLiquidityStake, SatSub(s.liquidity, payout), s.custody, s.ledger)
  }

  // ---------- bounds ----------

  /** Inflation lies between its minimum and its maximum; below the minimum the maximum does not count. */
  lemma {:induction false} InflationBounds(params: InflationParams, max: Perbill, curveValue: Perbill)
    ensures var r := Inflation(params, max, curveValue);
      if params.minInflation <= max then params.minInflation <= r <= max else r == params.minInflation
  {
    if params.minInflation > max {
      assert Times(curveValue, 0) == 0;
    }
  }

  lemma {:induction false} ShareMono(millis: nat, a: Perbill, b: Perbill, stakeable: nat)
    requires a <= b
    ensures Share(millis, a, stakeable) <= Share(millis, b, stakeable) <= stakeable
  {
    OfMono(a, b, stakeable, stakeable);
    OfMono(Portion(millis), Portion(millis), Of(a, stakeable), Of(b, stakeable));
    OfAtMost(Portion(millis), Of(b, stakeable));
    OfAtMost(b, stakeable);
  }

  /**
   What an era pays: the two parts add up to the larger of the validator payout and the maximum payout,
   to exactly the maximum payout when the maximum inflation is at least the minimum, and neither part
   exceeds what can be staked, which does not exceed issuance.
   */
  lemma {:induction false} PayoutBounds(
      c: Config, s: State, interest: Perbill, staked: nat, issuance: nat, millis: nat)
    ensures var (validator, rest) := Parts(c, s, interest, staked, issuance, millis);
      var stakeable := Stakeable(c, s, issuance);
      var max := MaxInflation(s.params, interest);
      var maxPayout := Share(millis, max, stakeable);
      && validator + rest == (if validator < maxPayout then maxPayout else validator)
      && (s.params.minInflation <= max ==> validator + rest == maxPayout)
      && validator <= stakeable && rest <= stakeable && stakeable <= issuance
  {
    var stakeable := Stakeable(c, s, issuance);
    var max := MaxInflation(s.params, interest);
    var curveValue := c.curve(StakeRatio(staked, stakeable), s.params.idealStake, s.params.falloff);
    InflationBounds(s.params, max, curveValue);
    var inflation := Inflation(s.params, max, curveValue);
    ShareMono(millis, inflation, inflation, stakeable);
    ShareMono(millis, max, max, stakeable);
    if s.params.minInflation <= max {
      ShareMono(millis, inflation, max, stakeable);
    }
  }

  // ---------- values ----------

  /** A Julian year has 31557600000 milliseconds; an era counts for at most one. */
  function YearPart(millis: nat): nat { RewardPool.Min(millis, 31_557_600_000) }

  /**
   What a yearly rate earns on an amount in an era of some milliseconds: amount * rate * millis / year, up
   to one unit more and one unit plus a billionth of the amount less.
   */
  predicate Earns(earned: nat, amount: nat, rate: Perbill, millis: nat) {
    var year := 31_557_600_000;
    && earned * BILLION * year <= YearPart(millis) * rate * amount + BILLION * year
    && YearPart(millis) * rate * amount <= earned * BILLION * year + BILLION * year + amount * year
  }

  /** q is the part of a whole in billionths, truncated. */
  predicate IsPart(q: Perbill, part: nat, whole: nat) {
    q * whole <= part * BILLION && part * BILLION < q * whole + whole
  }

  lemma {:induction false} PortionIsPart(millis: nat)
    ensures IsPart(Portion(millis), YearPart(millis), 31_557_600_000)
  {
    assert MILLISECONDS_PER_YEAR == 31_557_600_000;
    if millis <= MILLISECONDS_PER_YEAR {
      QuotientBounds(millis * BILLION, MILLISECONDS_PER_YEAR);
    }
  }

  /** x is an exact amount of billionths, and rounded its nearest unit. */
  predicate Rounds(rounded: nat, x: nat) {
    2 * x - BILLION <= 2 * rounded * BILLION <= 2 * x + BILLION
  }

  lemma {:induction false} OfRounds(p: Perbill, x: nat)
    ensures Rounds(Of(p, x), p * x) && Of(p, x) <= x
  {
    OfWithinHalf(p, x);
    OfAtMost(p, x);
    assert 2 * p * x == 2 * (p * x);
  }

  lemma {:induction false} ShareEarns(millis: nat, rate: Perbill, amount: nat)
    ensures Earns(Share(millis, rate, amount), amount, rate, millis)
  {
    var portion, yearly := Portion(millis), Of(rate, amount);
    OfRounds(rate, amount);
    OfRounds(portion, yearly);
    PortionIsPart(millis);
    RoundedEarns(Share(millis, rate, amount), portion, yearly, rate, amount, YearPart(millis));
    assert YearPart(millis) * (rate * amount) == YearPart(millis) * rate * amount;
  }

  lemma {:induction false} RoundedEarns(earned: nat, portion: nat, yearly: nat, rate: nat, amount: nat, part: nat)
    requires Rounds(earned, portion * yearly) && Rounds(yearly, rate * amount)
    requires portion * 31_557_600_000 <= part * BILLION < portion * 31_557_600_000 + 31_557_600_000
    requires part <= 31_557_600_000 && yearly <= amount
    ensures earned * BILLION * 31_557_600_000 <= part * (rate * amount) + BILLION * 31_557_600_000
    ensures part * (rate * amount) <= earned * BILLION * 31_557_600_000 + BILLION * 31_557_600_000 + amount * 31_557_600_000
  {
    ScalePortion(portion, part, yearly);
    ScaleRate(part, rate * amount, yearly);
    EarnsBounds(earned, portion * yearly, part * yearly, part * (rate * amount), part, yearly, amount);
  }

  lemma {:induction false} ScalePortion(portion: nat, part: nat, yearly: nat)
    requires portion * 31_557_600_000 <= part * BILLION < portion * 31_557_600_000 + 31_557_600_000
    ensures var a, b := portion * yearly, part * yearly;
      a * 31_557_600_000 <= b * BILLION <= a * 31_557_600_000 + yearly * 31_557_600_000
  {
    MulMono(yearly, portion * 31_557_600_000, part * BILLION);
    MulMono(yearly, part * BILLION, portion * 31_557_600_000 + 31_557_600_000);
  }

  lemma {:induction false} ScaleRate(part: nat, exact: nat, yearly: nat)
    requires 2 * exact - BILLION <= 2 * yearly * BILLION <= 2 * exact + BILLION
    ensures var b, g := part * yearly, part * exact;
      2 * g - part * BILLION <= 2 * b * BILLION <= 2 * g + part * BILLION
  {
    MulMono(part, 2 * yearly * BILLION, 2 * exact + BILLION);
    MulMono(part, 2 * exact, 2 * yearly * BILLION + BILLION);
  }

  /** a is portion * yearly, b is part * yearly and g is part * rate * amount. */
  lemma {:induction false} EarnsBounds(earned: nat, a: nat, b: nat, g: nat, part: nat, yearly: nat, amount: nat)
    requires 2 * a - BILLION <= 2 * earned * BILLION <= 2 * a + BILLION
    requires a * 31_557_600_000 <= b * BILLION <= a * 31_557_600_000 + yearly * 31_557_600_000
    requires 2 * g - part * BILLION <= 2 * b * BILLION <= 2 * g + part * BILLION
    requires part <= 31_557_600_000 && yearly <= amount
    ensures earned * BILLION * 31_557_600_000 <= g + BILLION * 31_557_600_000
    ensures g <= earned * BILLION * 31_557_600_000 + BILLION * 31_557_600_000 + amount * 31_557_600_000
  {
  }

  /**
   What the two rates of an era are: the maximum is the interest's share of the ideal stake; the validators'
   rises above the minimum by the curve's share of the distance to the maximum, if there is one. The curve is
   taken at the staked part of what can be staked.
   */
  lemma {:induction false} RateValues(c: Config, s: State, interest: Perbill, staked: nat, stakeable: nat)
    ensures IsPart(MaxInflation(s.params, interest), interest * s.params.idealStake, BILLION * BILLION)
    ensures stakeable > 0 ==> IsPart(StakeRatio(staked, stakeable), RewardPool.Min(staked, stakeable), stakeable)
    ensures var rate, min := InflationNow(c, s, interest, staked, stakeable), s.params.minInflation;
      var max := MaxInflation(s.params, interest);
      var value := c.curve(StakeRatio(staked, stakeable), s.params.idealStake, s.params.falloff);
      if max <= min then rate == min
      else min <= rate && IsPart(rate - min, value * (max - min), BILLION * BILLION)
  {
    var max := MaxInflation(s.params, interest);
    QuotientBounds(interest * s.params.idealStake, BILLION);
    if stakeable > 0 {
      var part := RewardPool.Min(staked, stakeable);
      QuotientBounds(part * BILLION, stakeable);
    }
    var value := c.curve(StakeRatio(staked, stakeable), s.params.idealStake, s.params.falloff);
    InflationBounds(s.params, max, value);
    if max <= s.params.minInflation {
      assert Times(value, 0) == 0;
    } else {
      QuotientBounds(value * (max - s.params.minInflation), BILLION);
    }
  }

  /** What the two parts of an era payout are worth: the validators earn their rate, both together the larger rate. */
  lemma {:induction false} PayoutValue(
      c: Config, s: State, interest: Perbill, staked: nat, issuance: nat, millis: nat)
    ensures var (validator, rest) := Parts(c, s, interest, staked, issuance, millis);
      var stakeable := Stakeable(c, s, issuance);
      var rate, max := InflationNow(c, s, interest, staked, stakeable), MaxInflation(s.params, interest);
      && Earns(validator, stakeable, rate, millis)
      && Earns(validator + rest, stakeable, if rate < max then max else rate, millis)
  {
    var stakeable := Stakeable(c, s, issuance);
    var rate, max := InflationNow(c, s, interest, staked, stakeable), MaxInflation(s.params, interest);
    ShareEarns(millis, rate, stakeable);
    ShareEarns(millis, max, stakeable);
    if rate < max {
      ShareMono(millis, rate, max, stakeable);
    } else {
      ShareMono(millis, max, rate, stakeable);
    }
  }

  /** What an era takes off the liquidity rewards is what the ideal interest earns on the ideal liquidity stake. */
  lemma {:induction false} LiquidityValue(s: State, interest: Perbill, millis: nat)
    ensures Earns(LiquidityPayout(s, interest, millis), s.idealLiquidityStake, interest, millis)
  {
    ShareEarns(millis, interest, s.idealLiquidityStake);
  }

  // ---------- any number of eras ----------

  /** The total of a list of amounts. */
  function Total(amounts: seq<nat>): nat {
    if amounts == [] then 0 else amounts[0] + Total(amounts[1..])
  }

  function PayEras(s: State, payouts: seq<nat>): State
    decreases |payouts|
  {
    if payouts == [] then s else PayEras(PayLiquidity(s, payouts[0]), payouts[1..])
  }

  /** What each era sets aside does not depend on the eras before it, as long as no admin interferes. */
  function EraPayouts(s: State, era: nat, blocks: seq<nat>, millis: nat): seq<nat>
    requires s.points != []
  {
    seq(|blocks|, i requires 0 <= i < |blocks| =>
      LiquidityPayout(s, GetIdealInterest(era, s.points, blocks[i]), millis))
  }

  /** After any number of eras the liquidity balance is its start value less the payouts, floored at zero. */
  lemma {:induction false} LiquidityOverEras(s: State, payouts: seq<nat>)
    ensures var s' := PayEras(s, payouts);
      && s'.liquidity == SatSub(s.liquidity, Total(payouts))
      && s' == State(s.params, s.points, s.idealLiquidityStake, s'.liquidity, s.custody, s.ledger)
    decreases |payouts|
  {
    if payouts != [] {
      LiquidityOverEras(PayLiquidity(s, payouts[0]), payouts[1..]);
    }
  }

  /** The eras at the given blocks, one after another. */
  function RunEras(s: State, era: nat, blocks: seq<nat>, millis: nat): State
    requires s.points != []
    decreases |blocks|
  {
    if blocks == [] then s
    else
      var interest := GetIdealInterest(era, s.points, blocks[0]);
      RunEras(PayLiquidity(s, LiquidityPayout(s, interest, millis)), era, blocks[1..], millis)
  }

  lemma {:induction false} RunErasPays(s: State, era: nat, blocks: seq<nat>, millis: nat)
    requires s.points != []
    ensures RunEras(s, era, blocks, millis).liquidity ==
      SatSub(s.liquidity, Total(EraPayouts(s, era, blocks, millis)))
    decreases |blocks|
  {
    var payouts := EraPayouts(s, era, blocks, millis);
    if blocks != [] {
      var s1 := PayLiquidity(s, payouts[0]);
      RunErasPays(s1, era, blocks[1..], millis);
      assert payouts[1..] == EraPayouts(s1, era, blocks[1..], millis);
    }
  }
}
