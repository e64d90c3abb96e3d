/**
 What payouts and replacements do to the records of custody, balances aside, and the structure they keep in
 every reachable state whatever the allocations: no member is ever vested beyond the entitlement, and the
 custody accounts on record are exactly those of the current members.
 */
module CustodyBooks {
  import opened Wrappers
  import opened Ledgers
  import opened Perbills
  import opened Custody

  /** A member has been paid no more than the entitlement; its accounts are the pair derived from one owner. */
  predicate MemberOk(c: Config, block: nat, info: Info) {
    && info.vested <= Entitled(c, block, info.allocation)
    && info.custody.Pure? && info.reserve == Pure(info.custody.owner, 1) && info.custody.index == 0
  }

  predicate TeamOk(c: Config, s: State) {
    forall who {:trigger MemberOk(c, s.block, s.team[who])} :: who in s.team ==> MemberOk(c, s.block, s.team[who])
  }

  /** CustodyAccounts is the set of custody accounts of the members, and no two members share one. */
  predicate AccountsExact(s: State) {
    && (forall who :: who in s.team ==> s.team[who].custody in s.custodyAccounts)
    && (forall a :: a in s.custodyAccounts ==> exists who :: who in s.team && s.team[who].custody == a)
    && (forall w, v :: w in s.team && v in s.team && w != v ==> s.team[w].custody != s.team[v].custody)
  }

  predicate Structure(c: Config, s: State) {
    TeamOk(c, s) && AccountsExact(s)
  }

  // ---------- the effect on the records ----------

  lemma {:induction false} EntitledMono(c: Config, b: nat, b': nat, allocation: nat)
    requires b <= b'
    ensures Entitled(c, b, allocation) <= Entitled(c, b', allocation)
  {
    DivMono(b, b', c.frequency);
    MulMono(ChunkOf(c, allocation), b / c.frequency, b' / c.frequency);
  }

  /** Balances, proxies and events aside, the two states agree. */
  predicate SameBooks(s: State, s': State) {
    && s'.team == s.team && s'.custodyAccounts == s.custodyAccounts && s'.total == s.total && s'.block == s.block
  }

  lemma {:induction false} PayBothBooks(s: State, info: Info, to: AccountId, fromCustody: nat, fromReserve: nat)
    ensures PayBoth(s, info, to, fromCustody, fromReserve).Ok? ==>
      SameBooks(s, PayBoth(s, info, to, fromCustody, fromReserve).value)
  {
    PayBooks(s, info.custody, to, fromCustody);
    var r := Pay(s, info.custody, to, fromCustody);
    if r.Ok? {
      PayBooks(r.value, info.reserve, to, fromReserve);
    }
  }

  lemma {:induction false} PayBooks(s: State, from: AccountId, to: AccountId, amount: nat)
    ensures Pay(s, from, to, amount).Ok? ==> SameBooks(s, Pay(s, from, to, amount).value)
  {
  }

  lemma {:induction false} ReleaseBooks(s: State, custody: AccountId, u: Unstaking)
    ensures SameBooks(s, Release(s, custody, u))
  {
    assert SameBooks(s, Unstake(s, custody, u));
  }

  /** What paying a member does to everything but the balances. */
  lemma {:induction false} DisburseBooks(
      s: State, who: AccountId, info: Info, fromCustody: nat, fromReserve: nat, keepAlive: bool)
    requires Disburse(s, who, info, fromCustody, fromReserve, keepAlive).Ok?
    ensures var s' := Disburse(s, who, info, fromCustody, fromReserve, keepAlive).value;
      var withdraw := fromCustody + fromReserve;
      && s'.block == s.block
      && s'.total == SatSub(s.total, CustodyDeduct(info.Vest(withdraw), withdraw, keepAlive))
      && s'.team == (if keepAlive then s.team[who := info.Vest(withdraw)] else s.team - {who})
      && s'.custodyAccounts == (if keepAlive then s.custodyAccounts else s.custodyAccounts - {info.custody})
  {
    PayBothBooks(s, info, who, fromCustody, fromReserve);
  }

  /** What is due, as far as the funds go. */
  function Payable(l: Ledger, info: Info, due: nat): nat {
    Min(due, Funds(l, info, true).0 + Funds(l, info, true).1)
  }

  /** Two minima in a row withdraw the smaller of the amount and of both funds together. */
  lemma {:induction false} SplitAddsUp(amount: nat, custody: nat, reserve: nat)
    ensures var (first, second) := Split(amount, custody, reserve, true);
      && first + second == Min(amount, custody + reserve)
      && first <= custody && second <= reserve
      && (second > 0 ==> first == custody)
  {
  }

  /** The three final branches all deduct exactly what was still owed, whatever was withdrawn. */
  lemma {:induction false} FinalDeductExact(info: Info, withdraw: nat)
    ensures CustodyDeduct(info.Vest(withdraw), withdraw, false) == SatSub(info.allocation, info.vested)
  {
  }

  /** What a payout of a given amount before the end does to everything but the balances. */
  lemma {:induction false} DoPayoutVests(s: State, who: AccountId, due: nat, info: Info)
    requires DoPayout(s, who, due, info, true).Ok?
    ensures var s', paid := DoPayout(s, who, due, info, true).value, Payable(s.ledger, info, due);
      && paid <= due
      && s'.block == s.block
      && s'.total == SatSub(s.total, paid)
      && s'.team == s.team[who := info.Vest(paid)]
      && s'.custodyAccounts == s.custodyAccounts
  {
    var shares := Withdrawals(s.ledger, info, due, true);
    WithdrawalsAddUp(s.ledger, info, due);
    DisburseBooks(s, who, info, shares.0, shares.1, true);
  }

  lemma {:induction false} WithdrawalsAddUp(l: Ledger, info: Info, due: nat)
    ensures var shares := Withdrawals(l, info, due, true);
      && shares.0 + shares.1 == Payable(l, info, due)
      && shares.0 <= l.Get(info.custody).Reducible(l.ed, true)
      && shares.1 <= l.Get(info.reserve).Reducible(l.ed, true)
  {
    SplitAddsUp(due, l.Get(info.custody).Reducible(l.ed, true), l.Get(info.reserve).Reducible(l.ed, true));
  }

  /** What the final payout does to everything but the balances: what was owed comes off the total. */
  lemma {:induction false} FinalBooks(s: State, who: AccountId, info: Info, u: Unstaking)
    requires FinalPayout(s, who, info, u).Ok?
    ensures var s' := FinalPayout(s, who, info, u).value;
      && s'.block == s.block && s'.team == s.team - {who}
      && s'.total == SatSub(s.total, SatSub(info.allocation, info.vested))
      && s'.custodyAccounts == s.custodyAccounts - {info.custody}
  {
    var released := Release(s, info.custody, u);
    ReleaseBooks(s, info.custody, u);
    var shares := Withdrawals(released.ledger, info, 0, false);
    assert DoPayout(released, who, 0, info, false) == Disburse(released, who, info, shares.0, shares.1, false);
    DisburseBooks(released, who, info, shares.0, shares.1, false);
    FinalDeductExact(info, shares.0 + shares.1);
  }

  /** The books of a member: how a payout changes the team, in either form. */
  lemma {:induction false} PayoutTeam(c: Config, s: State, who: AccountId, u: Unstaking)
    requires Payout(c, s, who, u).Ok?
    ensures var s', info := Payout(c, s, who, u).value, s.team[who];
      && s'.block == s.block
      && (s'.team == s.team - {who} ||
          (who in s'.team && s'.team == s.team[who := s'.team[who]]
           && s'.team[who] == info.Vest(s'.team[who].vested - info.vested)
           && info.vested <= s'.team[who].vested))
  {
    var info := s.team[who];
    if IsDone(c, s.block) {
      FinalBooks(s, who, info, u);
    } else {
      DoPayoutVests(s, who, Requested(c, s.block, info), info);
    }
  }

  /** In a reachable state the subtraction that computes a payout never underflows. */
  lemma {:induction false} RequestedIsExact(c: Config, s: State, who: AccountId)
    requires TeamOk(c, s) && who in s.team
    ensures s.team[who].vested + Requested(c, s.block, s.team[who]) == Entitled(c, s.block, s.team[who].allocation)
  {
    assert MemberOk(c, s.block, s.team[who]);
  }

  // ---------- the structure is kept ----------

  lemma {:induction false} PartialPayoutStructure(c: Config, s: State, who: AccountId, info: Info)
    requires Structure(c, s) && who in s.team && info == s.team[who] && PartialPayout(c, s, who, info).Ok?
    ensures Structure(c, PartialPayout(c, s, who, info).value)
  {
    var due, s' := Requested(c, s.block, info), PartialPayout(c, s, who, info).value;
    RequestedIsExact(c, s, who);
    DoPayoutVests(s, who, due, info);
    VestStructure(c, s, who, Payable(s.ledger, info, due), s');
  }

  lemma {:induction false} VestStructure(c: Config, s: State, who: AccountId, withdraw: nat, s': State)
    requires Structure(c, s) && who in s.team
    requires s.team[who].vested + withdraw <= Entitled(c, s.block, s.team[who].allocation)
    requires s'.team == s.team[who := s.team[who].Vest(withdraw)]
    requires s'.custodyAccounts == s.custodyAccounts && s'.block == s.block
    ensures Structure(c, s')
  {
    var info := s.team[who].Vest(withdraw);
    assert MemberOk(c, s.block, s.team[who]);
    assert MemberOk(c, s.block, info);
    AccountsKeep(s, who, info, s');
  }

  lemma {:induction false} FinalPayoutStructure(c: Config, s: State, who: AccountId, info: Info, u: Unstaking)
    requires Structure(c, s) && who in s.team && info == s.team[who] && FinalPayout(s, who, info, u).Ok?
    ensures Structure(c, FinalPayout(s, who, info, u).value)
  {
    FinalBooks(s, who, info, u);
    AccountsLeave(s, who, FinalPayout(s, who, info, u).value);
  }

  lemma {:induction false} AccountsKeep(s: State, who: AccountId, info: Info, s': State)
    requires AccountsExact(s) && who in s.team && info.custody == s.team[who].custody
    requires s'.team == s.team[who := info] && s'.custodyAccounts == s.custodyAccounts
    ensures AccountsExact(s')
  {
    forall a | a in s'.custodyAccounts
      ensures exists w :: w in s'.team && s'.team[w].custody == a
    {
      var w :| w in s.team && s.team[w].custody == a;
      assert w in s'.team && s'.team[w].custody == a;
    }
  }

  lemma {:induction false} AccountsLeave(s: State, who: AccountId, s': State)
    requires AccountsExact(s) && who in s.team
    requires s'.team == s.team - {who}
    requires s'.custodyAccounts == s.custodyAccounts - {s.team[who].custody}
    ensures AccountsExact(s')
  {
    forall a | a in s'.custodyAccounts
      ensures exists w :: w in s'.team && s'.team[w].custody == a
    {
      var w :| w in s.team && s.team[w].custody == a;
      assert w in s'.team && s'.team[w].custody == a;
    }
  }

  lemma {:induction false} TeamReplace(c: Config, s: State, who: AccountId, successor: AccountId, s': State)
    requires TeamOk(c, s) && who in s.team && successor !in s.team
    requires s'.team == (s.team - {who})[successor := s.team[who]] && s'.block == s.block
    ensures TeamOk(c, s')
  {
    forall w | w in s'.team
      ensures MemberOk(c, s'.block, s'.team[w])
    {
      var v := if w == successor then who else w;
      assert MemberOk(c, s.block, s.team[v]);
    }
  }

  lemma {:induction false} AccountsReplace(s: State, who: AccountId, successor: AccountId, s': State)
    requires AccountsExact(s) && who in s.team && successor !in s.team
    requires s'.team == (s.team - {who})[successor := s.team[who]] && s'.custodyAccounts == s.custodyAccounts
    ensures AccountsExact(s')
  {
    forall a | a in s'.custodyAccounts
      ensures exists w :: w in s'.team && s'.team[w].custody == a
    {
      var w :| w in s.team && s.team[w].custody == a;
      var v := if w == who then successor else w;
      assert v in s'.team && s'.team[v].custody == a;
    }
  }

  lemma {:induction false} BlockStructure(c: Config, s: State, block: nat)
    requires Structure(c, s)
    ensures Structure(c, Next(c, s, NewBlock(block)))
  {
    var s' := Next(c, s, NewBlock(block));
    forall who | who in s.team
      ensures MemberOk(c, s'.block, s.team[who])
    {
      assert MemberOk(c, s.block, s.team[who]);
      EntitledMono(c, s.block, s'.block, s.team[who].allocation);
    }
  }

  lemma {:induction false} StepStructure(c: Config, s: State, step: Step)
    requires Structure(c, s)
    ensures Structure(c, Next(c, s, step))
  {
    match step
    case TakePayout(who, u) =>
      if Payout(c, s, who, u).Ok? {
        if IsDone(c, s.block) {
          FinalPayoutStructure(c, s, who, s.team[who], u);
        } else {
          PartialPayoutStructure(c, s, who, s.team[who]);
        }
      }
    case ReplaceMember(who, successor) =>
      if Replace(s, who, successor).Ok? {
        var s' := Replace(s, who, successor).value;
        AccountsReplace(s, who, successor, s');
        TeamReplace(c, s, who, successor, s');
      }
    case External(_, _) => SameTeamStructure(c, s, Next(c, s, step));
    case NewBlock(block) => BlockStructure(c, s, block);
  }

  lemma {:induction false} SameTeamStructure(c: Config, s: State, s': State)
    requires Structure(c, s) && SameBooks(s, s')
    ensures Structure(c, s')
  {
  }

  lemma {:induction false} RunStructure(c: Config, s: State, steps: seq<Step>)
    requires Structure(c, s)
    ensures Structure(c, Run(c, s, steps))
    decreases |steps|
  {
    if steps != [] {
      StepStructure(c, s, steps[0]);
      RunStructure(c, Next(c, s, steps[0]), steps[1..]);
    }
  }

  // ---------- genesis ----------

  lemma {:induction false} PartsAddUp(amount: nat)
    ensures CustodyPart(amount) + ReservePart(amount) == amount
  {
    OfAtMost(RESERVE_RATIO, amount);
  }

  lemma {:induction false} InitializeTeam(s: State, who: AccountId, amount: nat)
    ensures var s' := InitializeCustody(s, who, amount);
      && s'.block == s.block
      && s'.team == s.team[who := Info(amount, 0, Pure(who, 0), Pure(who, 1))]
      && s'.custodyAccounts == s.custodyAccounts + {Pure(who, 0)}
  {
  }

  /** A member as genesis creates it. */
  predicate Initial(who: AccountId, info: Info) {
    info == Info(info.allocation, 0, Pure(who, 0), Pure(who, 1))
  }

  /** The custody accounts after genesis are those of the team. */
  lemma {:induction false} GenesisAccounts(l: Ledger, allocations: seq<(AccountId, nat)>)
    ensures var s := InitializeAll(Genesis(l), allocations);
      && s.block == 0
      && (forall who :: who in s.team ==> Initial(who, s.team[who]))
      && (forall a :: a in s.custodyAccounts <==> a.Pure? && a.index == 0 && a.owner in s.team)
    decreases |allocations|
  {
    if allocations != [] {
      var n := |allocations| - 1;
      GenesisAccounts(l, allocations[..n]);
      InitializeTeam(InitializeAll(Genesis(l), allocations[..n]), allocations[n].0, allocations[n].1);
    }
  }

  /** Any genesis list at all, even one with a member listed twice, starts with the structure. */
  lemma {:induction false} GenesisStructure(c: Config, l: Ledger, allocations: seq<(AccountId, nat)>)
    ensures Structure(c, InitializeAll(Genesis(l), allocations))
  {
    var s := InitializeAll(Genesis(l), allocations);
    GenesisAccounts(l, allocations);
    forall who | who in s.team
      ensures MemberOk(c, s.block, s.team[who])
    {
      assert Initial(who, s.team[who]);
    }
    forall a | a in s.custodyAccounts
      ensures exists who :: who in s.team && s.team[who].custody == a
    {
      assert a.owner in s.team && s.team[a.owner].custody == a;
    }
  }

  /** In every state reachable from any genesis the subtraction that computes a payout is exact. */
  lemma {:induction false} NeverUnderflows(
      c: Config, l: Ledger, allocations: seq<(AccountId, nat)>, steps: seq<Step>, who: AccountId)
    requires who in Run(c, InitializeAll(Genesis(l), allocations), steps).team
    ensures var s := Run(c, InitializeAll(Genesis(l), allocations), steps);
      var info := s.team[who];
      info.vested + Requested(c, s.block, info) == Entitled(c, s.block, info.allocation)
  {
    GenesisStructure(c, l, allocations);
    RunStructure(c, InitializeAll(Genesis(l), allocations), steps);
    RequestedIsExact(c, Run(c, InitializeAll(Genesis(l), allocations), steps), who);
  }
}
