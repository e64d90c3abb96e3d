/**
 What rounding a chunk up can do. An allocation is bounded when its rounded chunks stay within it until the
 end of the custody period. Bounded allocations are exactly those that are never overpaid, and those for
 which TotalCustody is exact in every reachable state.
 */
module CustodyRounding {
  import opened Wrappers
  import opened Ledgers
  import opened MapSums
  import opened Perbills
  import opened Custody
  import opened CustodyBooks
  import opened CustodyTotals
  import opened CustodyPayouts

  // ---------- a run that overpays ----------

  /** An account that holds an amount, nothing of it frozen. */
  function Holding(who: AccountId, amount: nat): Account { Account(who, amount, 0, 0) }

  /** A donation that lets the custody account of a member pay the whole entitlement of the period. */
  function Donation(c: Config, s0: State, who: AccountId): Ledger
    requires who in s0.team
  {
    var info, ed := s0.team[who], s0.ledger.ed;
    var amount := Entitled(c, c.duration, info.allocation) + ed;
    Ledger(ed, map[who := Holding(who, ed), info.custody := Holding(info.custody, amount)], amount + ed)
  }

  /** Donate, wait for the last block of the period, and take the payout. */
  function Overpaying(c: Config, s0: State, who: AccountId): seq<Step>
    requires who in s0.team
  {
    [External(Donation(c, s0, who), map[]), NewBlock(c.duration), TakePayout(who, NotBonded)]
  }

  /** Everything is slashed, the period ends, and the member takes the final payout of nothing. */
  function Closing(c: Config, s0: State, who: AccountId): seq<Step> {
    [External(Ledger(s0.ledger.ed, map[], 0), map[]), NewBlock(c.duration + 1), TakePayout(who, NotBonded)]
  }

  lemma {:induction false} RunConcat(c: Config, s: State, a: seq<Step>, b: seq<Step>)
    ensures Run(c, s, a + b) == Run(c, Run(c, s, a), b)
    decreases |a|
  {
    if a == [] {
      assert a + b == b;
    } else {
      assert (a + b)[0] == a[0] && (a + b)[1..] == a[1..] + b;
      RunConcat(c, Next(c, s, a[0]), a[1..], b);
    }
  }

  lemma {:induction false} RunThree(c: Config, s: State, first: Step, second: Step, third: Step)
    ensures Run(c, s, [first, second, third]) == Next(c, Next(c, Next(c, s, first), second), third)
  {
    var steps := [first, second, third];
    assert steps[1..] == [second, third] && [second, third][1..] == [third] && [third][1..] == [];
    var s1 := Next(c, s, first);
    var s2 := Next(c, s1, second);
    assert Run(c, s2, [third]) == Run(c, Next(c, s2, third), []);
    assert Run(c, s1, [second, third]) == Run(c, s2, [third]);
  }

  /** A member at genesis, before anything was paid out. */
  predicate Fresh(s: State, who: AccountId) {
    who in s.team && Initial(who, s.team[who]) && s.block == 0
  }

  /** With enough funds a payout in the last block of the period vests the whole entitlement. */
  lemma {:induction false} FullPayout(c: Config, s: State, who: AccountId, u: Unstaking)
    requires who in s.team && s.block == c.duration && Apart(who, s.team[who]) && s.team[who].vested == 0
    requires var due := Entitled(c, c.duration, s.team[who].allocation);
      && due > 0 && s.ledger.Get(s.team[who].custody) == Holding(s.team[who].custody, due + s.ledger.ed)
      && s.ledger.Total(who) >= s.ledger.ed
    ensures Payout(c, s, who, u).Ok?
    ensures Payout(c, s, who, u).value.team ==
      s.team[who := s.team[who].Vest(Entitled(c, c.duration, s.team[who].allocation))]
  {
    var info := s.team[who];
    var due := Entitled(c, c.duration, info.allocation);
    HoldingReducible(info.custody, due, s.ledger.ed);
    FullShares(s, who, info, due);
    DoPayoutVests(s, who, due, info);
  }

  lemma {:induction false} HoldingReducible(who: AccountId, due: nat, ed: nat)
    ensures Holding(who, due + ed).Reducible(ed, true) == due
  {
  }

  lemma {:induction false} FullShares(s: State, who: AccountId, info: Info, due: nat)
    requires Apart(who, info) && due > 0
    requires s.ledger.Get(info.custody).Reducible(s.ledger.ed, true) == due
    requires s.ledger.Total(who) >= s.ledger.ed
    ensures DoPayout(s, who, due, info, true).Ok? && Payable(s.ledger, info, due) == due
  {
    PartialPayoutExact(s, who, info, due);
  }

  /** After the donation the last payout of the period vests the whole entitlement. */
  lemma {:induction false} OverpayingVests(c: Config, s0: State, who: AccountId)
    requires Fresh(s0, who) && Entitled(c, c.duration, s0.team[who].allocation) > 0
    ensures Run(c, s0, Overpaying(c, s0, who)).team ==
      s0.team[who := s0.team[who].Vest(Entitled(c, c.duration, s0.team[who].allocation))]
  {
    var steps := Overpaying(c, s0, who);
    RunThree(c, s0, steps[0], steps[1], steps[2]);
    var s1 := Next(c, s0, steps[0]);
    var s2 := Next(c, s1, steps[1]);
    Donated(c, s0, who, s2);
    FullPayout(c, s2, who, NotBonded);
  }

  lemma {:induction false} Donated(c: Config, s0: State, who: AccountId, s: State)
    requires Fresh(s0, who)
    requires s == Next(c, Next(c, s0, External(Donation(c, s0, who), map[])), NewBlock(c.duration))
    ensures s.team == s0.team && s.block == c.duration && Apart(who, s.team[who])
    ensures var due, ed := Entitled(c, c.duration, s.team[who].allocation), s.ledger.ed;
      && s.ledger.Get(s.team[who].custody) == Holding(s.team[who].custody, due + ed)
      && s.ledger.Total(who) >= ed
  {
  }

  /** A final payout that finds nothing takes the member off the books. */
  lemma {:induction false} ClosingLeaves(c: Config, s0: State, s: State, who: AccountId)
    requires who in s.team && s.block <= c.duration
    ensures var s', info := Run(c, s, Closing(c, s0, who)), s.team[who];
      && s'.team == s.team - {who}
      && s'.total == SatSub(s.total, SatSub(info.allocation, info.vested))
  {
    var steps := Closing(c, s0, who);
    RunThree(c, s, steps[0], steps[1], steps[2]);
    var s1 := Next(c, s, steps[0]);
    var s2 := Next(c, s1, steps[1]);
    assert s2.ledger.accounts == map[] && s2.proxies == map[];
    EmptyFinalPayout(s2, who, s2.team[who]);
    FinalBooks(s2, who, s2.team[who], NotBonded);
  }

  lemma {:induction false} EmptyFinalPayout(s: State, who: AccountId, info: Info)
    requires s.ledger.accounts == map[]
    ensures FinalPayout(s, who, info, NotBonded).Ok?
  {
    var released := Release(s, info.custody, NotBonded);
    assert released.ledger == s.ledger;
    assert Withdrawals(s.ledger, info, 0, false) == (0, 0);
  }

  // ---------- exact conditions ----------

  lemma {:induction false} NothingIsBounded(c: Config)
    ensures Bounded(c, 0)
  {
    assert ChunkOf(c, 0) == 0;
  }

  /** All allocations of the members of a state are bounded. */
  predicate TeamBounded(c: Config, s: State) {
    forall who :: who in s.team ==> Bounded(c, s.team[who].allocation)
  }

  /** No member has been paid more than the allocation. */
  predicate NoneOverpaid(s: State) {
    forall who :: who in s.team ==> s.team[who].vested <= s.team[who].allocation
  }

  lemma {:induction false} FitsNotOverpaid(c: Config, s: State)
    requires TeamFits(c, s)
    ensures NoneOverpaid(s)
  {
    forall who | who in s.team
      ensures s.team[who].vested <= s.team[who].allocation
    {
      assert Fits(c, s.team[who]);
    }
  }

  /** A member whose allocation is not bounded is overpaid in a run. */
  lemma {:induction false} Overpaid(c: Config, s0: State, who: AccountId)
    requires Fresh(s0, who) && !Bounded(c, s0.team[who].allocation)
    ensures var s := Run(c, s0, Overpaying(c, s0, who));
      && who in s.team && s.team[who].vested > s.team[who].allocation
      && s.block == c.duration
  {
    OverpayingVests(c, s0, who);
    OverpayingBlock(c, s0, who);
  }

  lemma {:induction false} OverpayingBlock(c: Config, s0: State, who: AccountId)
    requires Fresh(s0, who) && Entitled(c, c.duration, s0.team[who].allocation) > 0
    ensures var s := Run(c, s0, Overpaying(c, s0, who));
      s.block == c.duration
  {
    var steps := Overpaying(c, s0, who);
    RunThree(c, s0, steps[0], steps[1], steps[2]);
    var s2 := Next(c, Next(c, s0, steps[0]), steps[1]);
    Donated(c, s0, who, s2);
    FullPayout(c, s2, who, NotBonded);
    PayoutTeam(c, s2, who, NotBonded);
  }

  /** From genesis no run ever overpays a member, if and only if every allocation of the team is bounded. */
  lemma {:induction false} NeverOverpaid(c: Config, l: Ledger, allocations: seq<(AccountId, nat)>)
    ensures var s0 := InitializeAll(Genesis(l), allocations);
      (forall steps :: NoneOverpaid(Run(c, s0, steps))) <==> TeamBounded(c, s0)
  {
    var s0 := InitializeAll(Genesis(l), allocations);
    GenesisAccounts(l, allocations);
    if TeamBounded(c, s0) {
      GenesisStructure(c, l, allocations);
      BoundedFits(c, s0);
      forall steps
        ensures NoneOverpaid(Run(c, s0, steps))
      {
        RunFits(c, s0, steps);
        FitsNotOverpaid(c, Run(c, s0, steps));
      }
    } else {
      var who :| who in s0.team && !Bounded(c, s0.team[who].allocation);
      Overpaid(c, s0, who);
      assert !NoneOverpaid(Run(c, s0, Overpaying(c, s0, who)));
    }
  }

  lemma {:induction false} BoundedFits(c: Config, s0: State)
    requires TeamBounded(c, s0) && forall who :: who in s0.team ==> Initial(who, s0.team[who])
    ensures TeamFits(c, s0)
  {
  }

  /** Once a member is overpaid TotalCustody is wrong now, or it is after the member has left. */
  lemma {:induction false} OverpaidLeavesGap(c: Config, s0: State, s: State, who: AccountId)
    requires who in s.team && s.block <= c.duration
    requires s.team[who].vested > s.team[who].allocation
    ensures !TotalExact(s) || !TotalExact(Run(c, s, Closing(c, s0, who)))
  {
    ClosingLeaves(c, s0, s, who);
    SumDrop(s.team, Due, who);
  }

  /** An amount that is not zero is not overwritten, so it is the allocation of its member. */
  lemma {:induction false} NotOverwritten(l: Ledger, allocations: seq<(AccountId, nat)>, i: nat)
    requires i < |allocations| && NothingOverwritten(allocations) && allocations[i].1 > 0
    ensures var team := InitializeAll(Genesis(l), allocations).team;
      allocations[i].0 in team && team[allocations[i].0].allocation == allocations[i].1
  {
    var who := allocations[i].0;
    GenesisTeam(l, allocations);
    var j :| LastOf(allocations, who, j)
      && allocations[j].1 == InitializeAll(Genesis(l), allocations).team[who].allocation;
    assert i == j;
  }

  lemma {:induction false} BoundedKeeps(c: Config, l: Ledger, allocations: seq<(AccountId, nat)>)
    requires NothingOverwritten(allocations)
    requires forall i :: 0 <= i < |allocations| ==> Bounded(c, allocations[i].1)
    ensures forall steps :: TotalExact(Run(c, InitializeAll(Genesis(l), allocations), steps))
  {
    var s0 := InitializeAll(Genesis(l), allocations);
    GenesisInv(c, l, allocations);
    forall steps
      ensures TotalExact(Run(c, s0, steps))
    {
      RunKeeps(c, s0, steps);
    }
  }

  lemma {:induction false} OverwrittenBreaks(c: Config, l: Ledger, allocations: seq<(AccountId, nat)>)
    requires !NothingOverwritten(allocations)
    ensures exists steps :: !TotalExact(Run(c, InitializeAll(Genesis(l), allocations), steps))
  {
    GenesisExact(l, allocations);
    assert !TotalExact(Run(c, InitializeAll(Genesis(l), allocations), []));
  }

  predicate AllBounded(c: Config, allocations: seq<(AccountId, nat)>) {
    forall i :: 0 <= i < |allocations| ==> Bounded(c, allocations[i].1)
  }

  /** An allocation that is not bounded breaks TotalCustody in a run. */
  lemma {:induction false} UnboundedBreaks(c: Config, l: Ledger, allocations: seq<(AccountId, nat)>, i: nat)
    requires i < |allocations| && NothingOverwritten(allocations) && !Bounded(c, allocations[i].1)
    ensures exists steps :: !TotalExact(Run(c, InitializeAll(Genesis(l), allocations), steps))
  {
    var s0, who := InitializeAll(Genesis(l), allocations), allocations[i].0;
    NothingIsBounded(c);
    NotOverwritten(l, allocations, i);
    GenesisAccounts(l, allocations);
    var first, second := Overpaying(c, s0, who), Closing(c, s0, who);
    Overpaid(c, s0, who);
    OverpaidLeavesGap(c, s0, Run(c, s0, first), who);
    RunConcat(c, s0, first, second);
    if TotalExact(Run(c, s0, first)) {
      assert !TotalExact(Run(c, s0, first + second));
    }
  }

  /**
   The law of TotalCustody and its exact condition: from genesis it is the sum of what is owed in every
   reachable state, if and only if no listed allocation is overwritten and every one of them is bounded.
   */
  lemma {:induction false} ExactForever(c: Config, l: Ledger, allocations: seq<(AccountId, nat)>)
    ensures (forall steps :: TotalExact(Run(c, InitializeAll(Genesis(l), allocations), steps))) <==>
      NothingOverwritten(allocations) && AllBounded(c, allocations)
  {
    if !NothingOverwritten(allocations) {
      OverwrittenBreaks(c, l, allocations);
    } else if AllBounded(c, allocations) {
      BoundedKeeps(c, l, allocations);
    } else {
      var i :| 0 <= i < |allocations| && !Bounded(c, allocations[i].1);
      UnboundedBreaks(c, l, allocations, i);
    }
  }

  // ---------- the production constants ----------

  /** One week in three years, in six-second blocks. */
  const PRODUCTION: Config := Config(100_800, 15_778_800)

  /** The smallest allocation from which on no rounding can pay out too much early. */
  const LEAST_ALLOCATION: nat := 22_464

  lemma {:induction false} ProductionChunk(allocation: nat)
    ensures ChunkOf(PRODUCTION, allocation) == Of(6_388_318, allocation)
    ensures PRODUCTION.duration / PRODUCTION.frequency == 156
  {
  }

  /** With the production constants every allocation of at least 22464 base units is safe from rounding. */
  lemma {:induction false} ProductionBounded(allocation: nat)
    requires allocation >= LEAST_ALLOCATION
    ensures Bounded(PRODUCTION, allocation)
  {
    ProductionChunk(allocation);
    if allocation <= 22_619 {
      OfMono(6_388_318, 6_388_318, allocation, 22_619);
    } else if allocation <= 22_775 {
      OfMono(6_388_318, 6_388_318, allocation, 22_775);
    } else if allocation <= 22_791 {
      OfMono(6_388_318, 6_388_318, allocation, 22_791);
    } else {
      OfWithinHalf(6_388_318, allocation);
    }
  }

  /** The bound is sharp: with one unit less there is a run that pays out more than the allocation. */
  lemma {:induction false} ProductionBoundSharp(l: Ledger, who: AccountId)
    ensures !Bounded(PRODUCTION, LEAST_ALLOCATION - 1)
    ensures var s0 := InitializeAll(Genesis(l), [(who, LEAST_ALLOCATION - 1)]);
      && who in s0.team
      && var s := Run(PRODUCTION, s0, Overpaying(PRODUCTION, s0, who));
      && s.block <= PRODUCTION.duration
      && who in s.team && s.team[who].vested > s.team[who].allocation == LEAST_ALLOCATION - 1
  {
    var allocations := [(who, LEAST_ALLOCATION - 1)];
    ProductionChunk(LEAST_ALLOCATION - 1);
    NotOverwritten(l, allocations, 0);
    GenesisAccounts(l, allocations);
    var s0 := InitializeAll(Genesis(l), allocations);
    Overpaid(PRODUCTION, s0, who);
    OverpayingVests(PRODUCTION, s0, who);
  }

  /** With chunks of an exact tenth, allocations of any size are overpaid: rounding adds up to four units. */
  lemma {:induction false} AnySizeUnbounded(k: nat)
    ensures !Bounded(Config(10, 100), 10 * k + 6)
  {
    var tenth := 100_000_000;
    assert FromRational(10, 100) == tenth;
    assert tenth * (10 * k + 6) == BILLION * k + 600_000_000;
    assert Of(tenth, 10 * k + 6) == k + 1;
  }
}
