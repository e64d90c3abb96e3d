/**
 The storage of the team custody pallet and the code that updates it in place, proved against the
 functions of Custody. A failing dispatch restores the storage it started from.
 */
module CustodyPallet {
  import opened Wrappers
  import opened Ledgers
  import opened Perbills
  import opened Custody
  import CustodyBooks
  import CustodyTotals

  class Pallet {
    const c: Config
    var ledger: Ledger
    var team: map<AccountId, Info>
    var custodyAccounts: set<AccountId>
    var totalCustody: nat
    var block: nat
    var proxies: map<AccountId, nat>
    var events: seq<Event>

    function Snapshot(): State
      reads this
    {
      State(ledger, team, custodyAccounts, totalCustody, block, proxies, events)
    }

    constructor (config: Config, l: Ledger)
      ensures c == config && Snapshot() == Genesis(l)
    {
      c := config;
      ledger, team, custodyAccounts, totalCustody := l, map[], {}, 0;
      block, proxies, events := 0, map[], [];
    }

    method Restore(s: State)
      modifies this
      ensures Snapshot() == s
    {
      ledger, team, custodyAccounts, totalCustody := s.ledger, s.team, s.custodyAccounts, s.total;
      block, proxies, events := s.block, s.proxies, s.events;
    }

    // ---------- genesis ----------

    /** deposit_creating, with the imbalance dropped at once. */
    method DepositCreating(who: AccountId, amount: nat)
      modifies this`ledger
      ensures ledger == Deposit(old(ledger), who, amount)
    {
      var imbalance := ledger.Deposited(who, amount);
      ledger := ledger.DepositCreating(who, amount);
      ledger := ledger.DropPositive(imbalance);
    }

    method InitializeCustody(who: AccountId, amount: nat)
      modifies this
      ensures Snapshot() == Custody.InitializeCustody(old(Snapshot()), who, amount)
    {
      OfAtMost(RESERVE_RATIO, amount);
      var reserveBalance := ReservePart(amount);
      var custodyBalance := amount - reserveBalance;
      var custody := Pure(who, 0);
      DepositCreating(custody, custodyBalance);
      var reserve := Pure(who, 1);
      DepositCreating(reserve, reserveBalance);
      team := team[who := Info(amount, 0, custody, reserve)];
      custodyAccounts := custodyAccounts + {custody};
      totalCustody := totalCustody + custodyBalance;
      totalCustody := totalCustody + reserveBalance;
    }

    /** The genesis loop over the configured allocations. */
    method Build(allocations: seq<(AccountId, nat)>)
      modifies this
      ensures Snapshot() == InitializeAll(old(Snapshot()), allocations)
    {
      ghost var s := Snapshot();
      for i := 0 to |allocations|
        invariant Snapshot() == InitializeAll(s, allocations[..i])
      {
        InitializeCustody(allocations[i].0, allocations[i].1);
        assert allocations[..i + 1][..i] == allocations[..i];
      }
      assert allocations[..|allocations|] == allocations;
    }

    // ---------- payouts ----------

    method PayFrom(from: AccountId, to: AccountId, amount: nat) returns (r: Result<Done, Error>)
      modifies this
      ensures r.Ok? <==> Pay(old(Snapshot()), from, to, amount).Ok?
      ensures r.Ok? ==> Snapshot() == Pay(old(Snapshot()), from, to, amount).value
      ensures r.Err? ==> r.error == Pay(old(Snapshot()), from, to, amount).error
    {
      if amount != 0 {
        var t := ledger.Transfer(from, to, amount);
        if t.Err? {
          return Err(Currency(t.error));
        }
        events := events + [Paid(from, to, amount, ledger.Dust(from, to, amount))];
        ledger := t.value;
      }
      r := Ok(Done);
    }

    method DoPayout(who: AccountId, amount: nat, info: Info, keepAlive: bool) returns (r: Result<Done, Error>)
      modifies this
      ensures r.Ok? <==> Custody.DoPayout(old(Snapshot()), who, amount, info, keepAlive).Ok?
      ensures r.Ok? ==> Snapshot() == Custody.DoPayout(old(Snapshot()), who, amount, info, keepAlive).value
      ensures r.Err? ==> r.error == Custody.DoPayout(old(Snapshot()), who, amount, info, keepAlive).error
    {
      var withdrawCustody, withdrawReserve := ComputeWithdrawals(amount, info, keepAlive);
      assert Custody.DoPayout(Snapshot(), who, amount, info, keepAlive) ==
        Disburse(Snapshot(), who, info, withdrawCustody, withdrawReserve, keepAlive);
      r := Withdraw(who, info, withdrawCustody, withdrawReserve, keepAlive);
    }

    method ComputeWithdrawals(amount: nat, info: Info, keepAlive: bool)
      returns (withdrawCustody: nat, withdrawReserve: nat)
      ensures (withdrawCustody, withdrawReserve) == Withdrawals(ledger, info, amount, keepAlive)
    {
      // 1, 2. what both accounts can pay
      var custodyBalance := ledger.Get(info.custody).Reducible(ledger.ed, keepAlive);
      var reserveBalance := ledger.Get(info.reserve).Reducible(ledger.ed, keepAlive);
      assert Funds(ledger, info, keepAlive) == (custodyBalance, reserveBalance);
      withdrawCustody, withdrawReserve := SplitAmount(amount, custodyBalance, reserveBalance, keepAlive);
    }

    /** 3. What is taken from each account. */
    static method SplitAmount(amount: nat, custodyBalance: nat, reserveBalance: nat, keepAlive: bool)
      returns (withdrawCustody: nat, withdrawReserve: nat)
      ensures (withdrawCustody, withdrawReserve) == Split(amount, custodyBalance, reserveBalance, keepAlive)
    {
      if keepAlive {
        withdrawCustody := Min(amount, custodyBalance);
        withdrawReserve := Min(amount - withdrawCustody, reserveBalance);
      } else {
        withdrawCustody, withdrawReserve := custodyBalance, reserveBalance;
      }
    }

    /** The transfers and the bookkeeping of a payout whose two amounts are known. */
    method Withdraw(who: AccountId, info: Info, withdrawCustody: nat, withdrawReserve: nat, keepAlive: bool)
      returns (r: Result<Done, Error>)
      modifies this
      ensures var spec := Disburse(old(Snapshot()), who, info, withdrawCustody, withdrawReserve, keepAlive);
        && (r.Ok? <==> spec.Ok?)
        && (r.Ok? ==> Snapshot() == spec.value)
        && (r.Err? ==> r.error == spec.error)
    {
      // 4, 5. transfers from custody and reserve
      r := PayFrom(info.custody, who, withdrawCustody);
      if r.Err? {
        return;
      }
      r := PayFrom(info.reserve, who, withdrawReserve);
      if r.Err? {
        return;
      }
      // 6. nothing paid before the end is an error
      if keepAlive && withdrawCustody + withdrawReserve == 0 {
        return Err(PayoutFailedInsufficientFunds);
      }
      // 7. the books
      SettleBooks(who, info, withdrawCustody + withdrawReserve, keepAlive);
    }

    method SettleBooks(who: AccountId, oldInfo: Info, withdraw: nat, keepAlive: bool)
      modifies this
      ensures Snapshot() == Settle(old(Snapshot()), who, oldInfo, withdraw, keepAlive)
    {
      var info := oldInfo.Vest(withdraw);
      var deduct := withdraw;
      if !keepAlive {
        if info.allocation < info.vested {
          var diff := info.vested - info.allocation;
          deduct := SatSub(withdraw, diff);
        } else if info.allocation > info.vested {
          var diff := info.allocation - info.vested;
          deduct := withdraw + diff;
        }
      }
      totalCustody := SatSub(totalCustody, deduct);
      if keepAlive {
        team := team[who := info];
      } else {
        team := team - {who};
        custodyAccounts := custodyAccounts - {info.custody};
      }
    }

    method RemoveCustodyProxies(custody: AccountId)
      modifies this
      ensures Snapshot() == RemoveProxies(old(Snapshot()), custody)
    {
      var deposit := if custody in proxies then proxies[custody] else 0;
      proxies := proxies - {custody};
      ledger := ledger.Unreserve(custody, deposit);
    }

    /** Ask the staking pallet to release the bond, if there is one. */
    method ForceUnstake(custody: AccountId, u: Unstaking) returns (r: Result<Done, Error>)
      modifies this
      ensures r.Ok? <==> !u.Refused?
      ensures r.Ok? ==> Snapshot() == Unstake(old(Snapshot()), custody, u)
      ensures r.Err? ==> Snapshot() == old(Snapshot()) && r.error == StakingRefused
    {
      if u.Refused? {
        return Err(StakingRefused);
      }
      if u.Released? {
        ledger := ledger.Put(custody, ledger.Get(custody).Refrozen(u.frozen));
      }
      r := Ok(Done);
    }

    /** The subtraction of what is vested is safe because no member is ever paid beyond the entitlement. */
    method TryPayout(who: AccountId, u: Unstaking) returns (r: Result<Done, Error>)
      requires who in team
      requires team[who].vested <= Entitled(c, block, team[who].allocation)
      modifies this
      ensures var spec := Custody.Payout(c, old(Snapshot()), who, u);
        && (r.Ok? <==> spec.Ok?)
        && (r.Ok? ==> Snapshot() == spec.value)
        && (r.Err? ==> r.error == spec.error)
    {
      var info := team[who];
      if IsDone(c, block) {
        r := ForceUnstake(info.custody, u);
        if r.Err? {
          return;
        }
        RemoveCustodyProxies(info.custody);
        r := DoPayout(who, 0, info, false);
        if r.Err? {
          return;
        }
        events := events + [CustodyDone(who)];
        return;
      }
      var payout := Of(FromRational(c.frequency, c.duration), info.allocation);
      var chunks := block / c.frequency;
      assert payout * chunks == Entitled(c, block, info.allocation);
      var amount := payout * chunks - info.vested;
      if amount == 0 {
        return Err(PayoutNotAvailable);
      }
      r := DoPayout(who, amount, info, true);
    }

    /** The payout extrinsic: anyone may call it, a failure changes nothing, and the books stay exact. */
    method Payout(who: AccountId, u: Unstaking) returns (r: Result<Done, Error>)
      requires who in team ==> team[who].vested <= Entitled(c, block, team[who].allocation)
      modifies this
      ensures var spec := Custody.Payout(c, old(Snapshot()), who, u);
        && (r.Ok? <==> spec.Ok?)
        && Snapshot() == OrSame(spec, old(Snapshot()))
        && (r.Err? ==> r.error == spec.error)
      ensures CustodyBooks.Structure(c, old(Snapshot())) ==> CustodyBooks.Structure(c, Snapshot())
      ensures CustodyTotals.Inv(c, old(Snapshot())) ==> CustodyTotals.Inv(c, Snapshot())
    {
      StepLaws(c, Snapshot(), TakePayout(who, u));
      r := PayMember(who, u);
    }

    method PayMember(who: AccountId, u: Unstaking) returns (r: Result<Done, Error>)
      requires who in team ==> team[who].vested <= Entitled(c, block, team[who].allocation)
      modifies this
      ensures var spec := Custody.Payout(c, old(Snapshot()), who, u);
        && (r.Ok? <==> spec.Ok?)
        && Snapshot() == OrSame(spec, old(Snapshot()))
        && (r.Err? ==> r.error == spec.error)
    {
      if who !in team {
        return Err(InvalidTeamMember);
      }
      var saved := Snapshot();
      r := TryPayout(who, u);
      if r.Err? {
        Restore(saved);
      }
    }

    /** The replace_team_member extrinsic, once the admin origin has been checked. */
    method ReplaceTeamMember(who: AccountId, successor: AccountId) returns (r: Result<Done, Error>)
      modifies this
      ensures var spec := Replace(old(Snapshot()), who, successor);
        && (r.Ok? <==> spec.Ok?)
        && Snapshot() == OrSame(spec, old(Snapshot()))
        && (r.Err? ==> r.error == spec.error)
      ensures CustodyBooks.Structure(c, old(Snapshot())) ==> CustodyBooks.Structure(c, Snapshot())
      ensures CustodyTotals.Inv(c, old(Snapshot())) ==> CustodyTotals.Inv(c, Snapshot())
    {
      StepLaws(c, Snapshot(), ReplaceMember(who, successor));
      if who !in team {
        return Err(InvalidTeamMember);
      }
      if successor in team {
        return Err(TeamMemberExists);
      }
      var info := team[who];
      team := team - {who};
      team := team[successor := info];
      r := Ok(Done);
    }
  }

  /** A step keeps the structure, and the exact totals with it. */
  lemma {:induction false} StepLaws(c: Config, s: State, step: Step)
    ensures CustodyBooks.Structure(c, s) ==> CustodyBooks.Structure(c, Next(c, s, step))
    ensures CustodyTotals.Inv(c, s) ==> CustodyTotals.Inv(c, Next(c, s, step))
  {
    if CustodyBooks.Structure(c, s) {
      CustodyBooks.StepStructure(c, s, step);
    }
    if CustodyTotals.Inv(c, s) {
      CustodyTotals.StepKeeps(c, s, step);
    }
  }
}
