/**
 TotalCustody is exact: it equals what all members are still owed, in every reachable state, as long as no
 rounded chunks add up to more than an allocation.
 */
module CustodyTotals {
  import opened Wrappers
  import opened Ledgers
  import opened MapSums
  import opened Perbills
  import opened Custody
  import opened CustodyBooks

  /** What a member is still owed. */
  function Due(info: Info): int { info.allocation - info.vested }

  ghost predicate TotalExact(s: State) {
    s.total == Sum(s.team, Due)
  }

  /** Rounding one chunk up never adds up to more than the allocation by the end of the custody period. */
  predicate Bounded(c: Config, allocation: nat) {
    Entitled(c, c.duration, allocation) <= allocation
  }

  /** What a member has been paid fits into a bounded allocation. */
  predicate Fits(c: Config, info: Info) {
    info.vested <= Entitled(c, c.duration, info.allocation) <= info.allocation
  }

  predicate TeamFits(c: Config, s: State) {
    forall who {:trigger Fits(c, s.team[who])} :: who in s.team ==> Fits(c, s.team[who])
  }

  ghost predicate Inv(c: Config, s: State) {
    Structure(c, s) && TeamFits(c, s) && TotalExact(s)
  }

  // ---------- preserved by every step ----------

  /** Before the end nothing that is vested exceeds what fits. */
  lemma {:induction false} PartialPayoutFits(c: Config, s: State, who: AccountId, info: Info)
    requires Structure(c, s) && TeamFits(c, s) && who in s.team && info == s.team[who] && !IsDone(c, s.block)
    requires PartialPayout(c, s, who, info).Ok?
    ensures TeamFits(c, PartialPayout(c, s, who, info).value)
  {
    var due, s' := Requested(c, s.block, info), PartialPayout(c, s, who, info).value;
    RequestedIsExact(c, s, who);
    DoPayoutVests(s, who, due, info);
    EntitledMono(c, s.block, c.duration, info.allocation);
    forall w | w in s'.team
      ensures Fits(c, s'.team[w])
    {
      assert Fits(c, s.team[w]);
    }
  }

  lemma {:induction false} StepFits(c: Config, s: State, step: Step)
    requires Structure(c, s) && TeamFits(c, s)
    ensures TeamFits(c, Next(c, s, step))
  {
    match step
    case TakePayout(who, u) =>
      if Payout(c, s, who, u).Ok? {
        if IsDone(c, s.block) {
          FinalBooks(s, who, s.team[who], u);
          FewerFit(c, s, Next(c, s, step));
        } else {
          PartialPayoutFits(c, s, who, s.team[who]);
        }
      }
    case ReplaceMember(who, successor) => FewerFit(c, s, Next(c, s, step));
    case External(_, _) => FewerFit(c, s, Next(c, s, step));
    case NewBlock(_) => FewerFit(c, s, Next(c, s, step));
  }

  lemma {:induction false} FewerFit(c: Config, s: State, s': State)
    requires TeamFits(c, s)
    requires forall w :: w in s'.team ==> exists v :: v in s.team && s'.team[w] == s.team[v]
    ensures TeamFits(c, s')
  {
    forall w | w in s'.team
      ensures Fits(c, s'.team[w])
    {
      var v :| v in s.team && s'.team[w] == s.team[v];
      assert Fits(c, s.team[v]);
    }
  }

  lemma {:induction false} DuesCover(c: Config, s: State, who: AccountId)
    requires TeamFits(c, s) && TotalExact(s) && who in s.team
    ensures 0 <= Due(s.team[who]) <= s.total
  {
    forall w | w in s.team
      ensures 0 <= Due(s.team[w])
    {
      assert Fits(c, s.team[w]);
    }
    SumLowerBound(s.team, Due, who);
  }

  /** The final payout takes exactly what was owed off TotalCustody; nothing saturates. */
  lemma {:induction false} FinalPayoutKeeps(c: Config, s: State, who: AccountId, info: Info, u: Unstaking)
    requires Inv(c, s) && who in s.team && info == s.team[who]
    requires FinalPayout(s, who, info, u).Ok?
    ensures Inv(c, FinalPayout(s, who, info, u).value)
    ensures FinalPayout(s, who, info, u).value.total == s.total - (info.allocation - info.vested)
  {
    FinalPayoutStructure(c, s, who, info, u);
    FinalBooks(s, who, info, u);
    FewerFit(c, s, FinalPayout(s, who, info, u).value);
    DuesCover(c, s, who);
    SumDrop(s.team, Due, who);
  }

  /** A payout before the end takes exactly what it paid off TotalCustody; nothing saturates. */
  lemma {:induction false} PartialPayoutKeeps(c: Config, s: State, who: AccountId, info: Info)
    requires Inv(c, s) && who in s.team && info == s.team[who] && !IsDone(c, s.block)
    requires PartialPayout(c, s, who, info).Ok?
    ensures Inv(c, PartialPayout(c, s, who, info).value)
    ensures PartialPayout(c, s, who, info).value.total ==
      s.total - Payable(s.ledger, info, Entitled(c, s.block, info.allocation) - info.vested)
  {
    var due := Requested(c, s.block, info);
    PartialPayoutStructure(c, s, who, info);
    PartialPayoutFits(c, s, who, info);
    RequestedIsExact(c, s, who);
    DoPayoutVests(s, who, due, info);
    VestTotal(c, s, who, Payable(s.ledger, info, due), PartialPayout(c, s, who, info).value);
  }

  lemma {:induction false} VestTotal(c: Config, s: State, who: AccountId, withdraw: nat, s': State)
    requires TeamFits(c, s) && TotalExact(s) && who in s.team
    requires s'.team == s.team[who := s.team[who].Vest(withdraw)] && TeamFits(c, s')
    requires s'.total == SatSub(s.total, withdraw)
    ensures TotalExact(s') && s'.total == s.total - withdraw
  {
    DuesCover(c, s, who);
    assert Fits(c, s'.team[who]);
    SumUpdate(s.team, Due, who, s.team[who].Vest(withdraw));
  }

  lemma {:induction false} ReplaceKeeps(c: Config, s: State, who: AccountId, successor: AccountId)
    requires Inv(c, s) && Replace(s, who, successor).Ok?
    ensures Inv(c, Replace(s, who, successor).value)
  {
    StepStructure(c, s, ReplaceMember(who, successor));
    StepFits(c, s, ReplaceMember(who, successor));
    DuesReplace(s.team, who, successor);
  }

  lemma {:induction false} DuesReplace(team: map<AccountId, Info>, who: AccountId, successor: AccountId)
    requires who in team && successor !in team
    ensures Sum((team - {who})[successor := team[who]], Due) == Sum(team, Due)
  {
    SumDrop(team, Due, who);
    SumUpdate(team - {who}, Due, successor, team[who]);
  }

  lemma {:induction false} StepKeeps(c: Config, s: State, step: Step)
    requires Inv(c, s)
    ensures Inv(c, Next(c, s, step))
  {
    match step
    case TakePayout(who, u) =>
      if Payout(c, s, who, u).Ok? {
        if IsDone(c, s.block) {
          FinalPayoutKeeps(c, s, who, s.team[who], u);
        } else {
          PartialPayoutKeeps(c, s, who, s.team[who]);
        }
      }
    case ReplaceMember(who, successor) =>
      if Replace(s, who, successor).Ok? {
        ReplaceKeeps(c, s, who, successor);
      }
    case _ =>
      StepStructure(c, s, step);
      StepFits(c, s, step);
  }

  /** In every reachable state TotalCustody is the sum of what is owed and CustodyAccounts names the members' accounts. */
  lemma {:induction false} RunKeeps(c: Config, s: State, steps: seq<Step>)
    requires Inv(c, s)
    ensures Inv(c, Run(c, s, steps))
    decreases |steps|
  {
    if steps != [] {
      StepKeeps(c, s, steps[0]);
      RunKeeps(c, Next(c, s, steps[0]), steps[1..]);
    }
  }

  lemma {:induction false} RunFits(c: Config, s: State, steps: seq<Step>)
    requires Structure(c, s) && TeamFits(c, s)
    ensures TeamFits(c, Run(c, s, steps))
    decreases |steps|
  {
    if steps != [] {
      StepStructure(c, s, steps[0]);
      StepFits(c, s, steps[0]);
      RunFits(c, Next(c, s, steps[0]), steps[1..]);
    }
  }

  // ---------- genesis ----------

  /** By how much TotalCustody exceeds what is owed. */
  ghost function Gap(s: State): int {
    s.total - Sum(s.team, Due)
  }

  /** Initialising a member twice leaves the first allocation in TotalCustody for ever. */
  lemma {:induction false} InitializeGap(s: State, who: AccountId, amount: nat)
    ensures Gap(InitializeCustody(s, who, amount)) == Gap(s) + At(s.team, Due, who)
  {
    PartsAddUp(amount);
    SumUpdate(s.team, Due, who, Info(amount, 0, Pure(who, 0), Pure(who, 1)));
  }

  /** The amount in the last entry of an account. */
  ghost predicate LastAmount(allocations: seq<(AccountId, nat)>, who: AccountId, amount: nat) {
    exists i :: LastOf(allocations, who, i) && allocations[i].1 == amount
  }

  lemma {:induction false} LastAmountExtends(
      before: seq<(AccountId, nat)>, entry: (AccountId, nat), who: AccountId, amount: nat)
    requires who != entry.0 && LastAmount(before, who, amount)
    ensures LastAmount(before + [entry], who, amount)
  {
    var i :| LastOf(before, who, i) && before[i].1 == amount;
    assert LastOf(before + [entry], who, i);
  }

  /** The team after genesis: every listed account, with its last amount. */
  lemma {:induction false} GenesisTeam(l: Ledger, allocations: seq<(AccountId, nat)>)
    ensures var team := InitializeAll(Genesis(l), allocations).team;
      && (forall who :: who in team ==> LastAmount(allocations, who, team[who].allocation))
      && (forall i :: 0 <= i < |allocations| ==> allocations[i].0 in team)
    decreases |allocations|
  {
    if allocations != [] {
      var n := |allocations| - 1;
      var before, entry := allocations[..n], allocations[n];
      GenesisTeam(l, before);
      var s0 := InitializeAll(Genesis(l), before);
      InitializeTeam(s0, entry.0, entry.1);
      assert allocations == before + [entry];
      TeamExtends(s0.team, before, entry, InitializeAll(Genesis(l), allocations).team);
    }
  }

  lemma {:induction false} TeamExtends(
      team: map<AccountId, Info>, before: seq<(AccountId, nat)>, entry: (AccountId, nat), team': map<AccountId, Info>)
    requires forall who :: who in team ==> LastAmount(before, who, team[who].allocation)
    requires forall i :: 0 <= i < |before| ==> before[i].0 in team
    requires team' == team[entry.0 := Info(entry.1, 0, Pure(entry.0, 0), Pure(entry.0, 1))]
    ensures forall who :: who in team' ==> LastAmount(before + [entry], who, team'[who].allocation)
    ensures forall i :: 0 <= i < |before + [entry]| ==> (before + [entry])[i].0 in team'
  {
    forall who | who in team'
      ensures LastAmount(before + [entry], who, team'[who].allocation)
    {
      if who == entry.0 {
        assert LastOf(before + [entry], who, |before|);
      } else {
        LastAmountExtends(before, entry, who, team[who].allocation);
      }
    }
  }

  predicate LastOf(allocations: seq<(AccountId, nat)>, who: AccountId, i: int) {
    && 0 <= i < |allocations| && allocations[i].0 == who
    && forall j :: i < j < |allocations| ==> allocations[j].0 != who
  }

  /** No listed member reappears later in the list, unless its first entry was for nothing. */
  predicate NothingOverwritten(allocations: seq<(AccountId, nat)>) {
    forall i, j :: 0 <= i < j < |allocations| && allocations[i].0 == allocations[j].0 ==> allocations[i].1 == 0
  }

  /** Genesis squares TotalCustody exactly when no allocation is overwritten; otherwise it starts too high. */
  lemma {:induction false} GenesisExact(l: Ledger, allocations: seq<(AccountId, nat)>)
    ensures TotalExact(InitializeAll(Genesis(l), allocations)) <==> NothingOverwritten(allocations)
    ensures Gap(InitializeAll(Genesis(l), allocations)) >= 0
    decreases |allocations|
  {
    if allocations != [] {
      var n := |allocations| - 1;
      var before, last := allocations[..n], allocations[n].0;
      var s0 := InitializeAll(Genesis(l), before);
      GenesisExact(l, before);
      GenesisTeam(l, before);
      GenesisAccounts(l, before);
      InitializeGap(s0, last, allocations[n].1);
      assert Gap(s0) >= 0;
      var overwritten := At(s0.team, Due, last);
      assert overwritten >= 0;
      if last in s0.team {
        var i :| LastOf(before, last, i) && s0.team[last].allocation == before[i].1;
        assert overwritten == allocations[i].1;
        LastEntryDecides(allocations, i);
      } else {
        forall i | 0 <= i < n
          ensures allocations[i].0 != last
        {
          assert before[i].0 in s0.team;
        }
        LastEntryNew(allocations);
      }
    }
  }

  lemma {:induction false} LastEntryNew(allocations: seq<(AccountId, nat)>)
    requires allocations != []
    requires forall i :: 0 <= i < |allocations| - 1 ==> allocations[i].0 != allocations[|allocations| - 1].0
    ensures NothingOverwritten(allocations) <==> NothingOverwritten(allocations[..|allocations| - 1])
  {
    var before := allocations[..|allocations| - 1];
    if NothingOverwritten(allocations) {
      forall i, j | 0 <= i < j < |before| && before[i].0 == before[j].0
        ensures before[i].1 == 0
      {
        assert allocations[i].0 == allocations[j].0;
      }
    }
  }

  lemma {:induction false} LastEntryDecides(allocations: seq<(AccountId, nat)>, i: nat)
    requires allocations != []
    requires LastOf(allocations[..|allocations| - 1], allocations[|allocations| - 1].0, i)
    ensures NothingOverwritten(allocations) <==>
      NothingOverwritten(allocations[..|allocations| - 1]) && allocations[i].1 == 0
  {
    var n := |allocations| - 1;
    var before := allocations[..n];
    if NothingOverwritten(allocations) {
      assert allocations[i].0 == allocations[n].0;
      forall j, k | 0 <= j < k < |before| && before[j].0 == before[k].0
        ensures before[j].1 == 0
      {
        assert allocations[j].0 == allocations[k].0;
      }
    }
    if NothingOverwritten(before) && allocations[i].1 == 0 {
      forall j, k | 0 <= j < k < |allocations| && allocations[j].0 == allocations[k].0
        ensures allocations[j].1 == 0
      {
        if k == n && j != i {
          assert before[j].0 == before[i].0;
        } else if k < n {
          assert before[j].0 == before[k].0;
        }
      }
    }
  }

  /** With bounded allocations every member of the genesis team fits. */
  lemma {:induction false} GenesisFits(c: Config, l: Ledger, allocations: seq<(AccountId, nat)>)
    requires forall i :: 0 <= i < |allocations| ==> Bounded(c, allocations[i].1)
    ensures TeamFits(c, InitializeAll(Genesis(l), allocations))
  {
    var s := InitializeAll(Genesis(l), allocations);
    GenesisTeam(l, allocations);
    GenesisAccounts(l, allocations);
    forall who | who in s.team
      ensures Fits(c, s.team[who])
    {
      var i :| LastOf(allocations, who, i) && s.team[who].allocation == allocations[i].1;
      assert Bounded(c, allocations[i].1) && Initial(who, s.team[who]);
    }
  }

  /** With bounded allocations, none of them overwritten, the invariant holds from genesis. */
  lemma {:induction false} GenesisInv(c: Config, l: Ledger, allocations: seq<(AccountId, nat)>)
    requires NothingOverwritten(allocations)
    requires forall i :: 0 <= i < |allocations| ==> Bounded(c, allocations[i].1)
    ensures Inv(c, InitializeAll(Genesis(l), allocations))
  {
    GenesisExact(l, allocations);
    GenesisStructure(c, l, allocations);
    GenesisFits(c, l, allocations);
  }
}
