/**
 What is still locked once a claim has been paid. The vesting pallet refuses a schedule without a step per
 block and any schedule beyond the limit of the account, and process_claim ignores that, so a lock stored
 with a claim can be lost on the way to the account.
 */
module ClaimVesting {
  import opened Wrappers
  import opened Ledgers
  import opened Perbills
  import opened Vesting
  import opened Claims
  import opened Betanet
  import opened Enactment
  import opened RewardTerms

  // ---------- which schedules arrive ----------

  /** The schedules that unlock something every block. */
  function Usable(vs: seq<Schedule>): seq<Schedule> {
    if vs == [] then []
    else
      var last, rest := vs[|vs| - 1], Usable(vs[..|vs| - 1]);
      if last.locked > 0 && last.perBlock > 0 then rest + [last] else rest
  }

  function Take(vs: seq<Schedule>, limit: nat): seq<Schedule> {
    if |vs| <= limit then vs else vs[..limit]
  }

  /** An account without schedules gets the first usable ones, up to the limit. */
  lemma {:induction false} AddedSchedules(
      c: Config, schedules: map<AccountId, seq<Schedule>>, dest: AccountId, vs: seq<Schedule>)
    requires dest !in schedules
    ensures SchedulesOf(AddSchedules(c, schedules, dest, vs), dest) == Take(Usable(vs), c.maxSchedules)
    decreases |vs|
  {
    if vs != [] {
      AddedSchedules(c, schedules, dest, vs[..|vs| - 1]);
    }
  }

  // ---------- what stays locked ----------

  /** Every schedule that still holds something at a block is usable and comes within the limit. */
  predicate Arrives(c: Config, vs: seq<Schedule>, block: nat) {
    forall i :: 0 <= i < |vs| && LockedAt(vs[i], block) > 0 ==>
      vs[i].perBlock > 0 && |Usable(vs[..i])| < c.maxSchedules
  }

  lemma {:induction false} ArrivesSnoc(c: Config, vs: seq<Schedule>, block: nat)
    requires vs != []
    ensures var n := |vs| - 1;
      Arrives(c, vs, block) <==>
        Arrives(c, vs[..n], block)
        && (LockedAt(vs[n], block) > 0 ==> vs[n].perBlock > 0 && |Usable(vs[..n])| < c.maxSchedules)
  {
    var n := |vs| - 1;
    forall i | 0 <= i < n
      ensures vs[..n][..i] == vs[..i] && vs[..n][i] == vs[i]
    {
    }
  }

  /** The schedules that arrive lock as much as the given ones exactly when each that still holds something arrives. */
  lemma {:induction false} TakenLock(c: Config, vs: seq<Schedule>, block: nat)
    ensures TotalLocked(Take(Usable(vs), c.maxSchedules), block) <= TotalLocked(vs, block)
    ensures TotalLocked(Take(Usable(vs), c.maxSchedules), block) == TotalLocked(vs, block) <==> Arrives(c, vs, block)
    decreases |vs|
  {
    if vs != [] {
      var n := |vs| - 1;
      var before, last := vs[..n], vs[n];
      TakenLock(c, before, block);
      ArrivesSnoc(c, vs, block);
      assert vs == before + [last];
      TotalLockedSnoc(before, last, block);
      TakenSnoc(c, vs, block);
    }
  }

  /** One more schedule is locked in full or not at all. */
  lemma {:induction false} TakenSnoc(c: Config, vs: seq<Schedule>, block: nat)
    requires vs != []
    ensures var n := |vs| - 1;
      TotalLocked(Take(Usable(vs), c.maxSchedules), block) ==
        TotalLocked(Take(Usable(vs[..n]), c.maxSchedules), block)
        + (if vs[n].perBlock > 0 && |Usable(vs[..n])| < c.maxSchedules then LockedAt(vs[n], block) else 0)
  {
    var n := |vs| - 1;
    var rest, last := Usable(vs[..n]), vs[n];
    if last.locked > 0 && last.perBlock > 0 {
      if |rest| < c.maxSchedules {
        TotalLockedSnoc(rest, last, block);
      } else {
        assert (rest + [last])[..c.maxSchedules] == rest[..c.maxSchedules];
      }
    }
  }

  /**
   The lock of a claim after it has been paid, at any block: never more than was stored with the claim, and
   as much exactly when every schedule that still holds something arrives.
   */
  lemma {:induction false} ClaimedLock(c: Config, s: State, signer: EthereumAddress, dest: AccountId, block: nat)
    requires signer in s.vesting && ProcessClaim(c, s, signer, dest).Ok?
    ensures var s' := ProcessClaim(c, s, signer, dest).value;
      var locked := TotalLocked(SchedulesOf(s'.schedules, dest), block);
      && locked <= TotalLocked(s.vesting[signer], block)
      && (locked == TotalLocked(s.vesting[signer], block) <==> Arrives(c, s.vesting[signer], block))
  {
    AddedSchedules(c, s.schedules, dest, s.vesting[signer]);
    TakenLock(c, s.vesting[signer], block);
  }

  // ---------- the top-up of a leftover claim ----------

  /** What is locked at the enactment block for an account that claims an address after its reward was added. */
  function LockAfterClaim(c: Config, s: State, address: EthereumAddress, reward: nat, dest: AccountId): nat {
    var r := ProcessClaim(c, ProcessLeftover(c, s, address, reward), address, dest);
    if r.Ok? then TotalLocked(SchedulesOf(r.value.schedules, dest), c.enactment) else 0
  }

  /** The lock that a reward makes desirable for a claim. */
  function Desired(s: State, address: EthereumAddress, reward: nat): nat {
    LeftoverLocked(ValueWith(s, address, reward), reward)
  }

  function ValueWith(s: State, address: EthereumAddress, reward: nat): nat {
    Lookup(RewardedClaims(s.claims, address, reward), address).GetOr(0)
  }

  /**
   Without earlier vesting the top-up reaches the claiming account only from one unit per block of the
   period on; below that nothing at all is locked.
   */
  lemma {:induction false} TopUpArrives(c: Config, s: State, address: EthereumAddress, reward: nat, dest: AccountId)
    requires address !in s.vesting && c.maxSchedules > 0 && Desired(s, address, reward) > 0
    requires ProcessClaim(c, ProcessLeftover(c, s, address, reward), address, dest).Ok?
    ensures LockAfterClaim(c, s, address, reward, dest) ==
      if Desired(s, address, reward) < 2_592_000 then 0 else Desired(s, address, reward)
  {
    var s1, lock := ProcessLeftover(c, s, address, reward), Desired(s, address, reward);
    ToppedUp(c, s, address, reward);
    ClaimedTopUp(c, s1, address, dest, lock);
  }

  lemma {:induction false} ClaimedTopUp(c: Config, s: State, address: EthereumAddress, dest: AccountId, lock: nat)
    requires lock > 0 && c.maxSchedules > 0 && ProcessClaim(c, s, address, dest).Ok?
    requires Lookup(s.vesting, address) == Some([Spread(lock, 2_592_000, c.enactment)])
    ensures TotalLocked(SchedulesOf(ProcessClaim(c, s, address, dest).value.schedules, dest), c.enactment) ==
      if lock < 2_592_000 then 0 else lock
  {
    var v := Spread(lock, 2_592_000, c.enactment);
    OnlySchedule(c, v);
    AddedSchedules(c, s.schedules, dest, [v]);
    StepOfSpread(lock);
  }

  /** The vesting of an address without any, after its reward was added. */
  lemma {:induction false} ToppedUp(c: Config, s: State, address: EthereumAddress, reward: nat)
    requires address !in s.vesting
    ensures var lock, s1 := Desired(s, address, reward), ProcessLeftover(c, s, address, reward);
      && s1.schedules == s.schedules
      && (lock == 0 ==> address !in s1.vesting)
      && (lock > 0 ==> Lookup(s1.vesting, address) == Some([Spread(lock, 2_592_000, c.enactment)]))
  {
    LeftoverPromised(c, None, ValueWith(s, address, reward), reward);
    LeftoverParts(c, s, address, reward);
    var existing: seq<Schedule> := [];
    var v := Spread(Desired(s, address, reward), 2_592_000, c.enactment);
    assert existing + [v] == [v];
  }

  lemma {:induction false} OnlySchedule(c: Config, v: Schedule)
    requires v.locked > 0 && v.start == c.enactment && c.maxSchedules > 0
    ensures TotalLocked(Take(Usable([v]), c.maxSchedules), c.enactment) == if v.perBlock > 0 then v.locked else 0
  {
    assert [v][..0] == [] && [v][1..] == [];
    assert Usable([v]) == if v.perBlock > 0 then [v] else [];
  }

  lemma {:induction false} StepOfSpread(lock: nat)
    ensures lock / 2_592_000 > 0 <==> lock >= 2_592_000
  {
  }

  /** A witness: 1000 units claimed and 1000 rewarded should lock at least 1800, and lock nothing. */
  lemma {:induction false} TopUpLost(c: Config, s: State, address: EthereumAddress, dest: AccountId)
    requires address in s.claims && s.claims[address] == 1_000 && s.total >= 1_000
    requires address !in s.vesting && dest !in s.schedules && c.maxSchedules > 0
    ensures Percent(80, 1_000) + 1_000 == 1_800
    ensures ProcessClaim(c, ProcessLeftover(c, s, address, 1_000), address, dest).Ok?
    ensures LockAfterClaim(c, s, address, 1_000, dest) == 0
  {
    Dispatchable(c, s, address, 1_000, dest);
    TopUpArrives(c, s, address, 1_000, dest);
  }

  lemma {:induction false} Dispatchable(c: Config, s: State, address: EthereumAddress, reward: nat, dest: AccountId)
    requires address in s.claims && s.claims[address] <= s.total && dest !in s.schedules
    ensures ProcessClaim(c, ProcessLeftover(c, s, address, reward), address, dest).Ok?
  {
  }
}
