/**
 The pot always covers the claims. Total exceeds the sum of all claims by exactly what was overwritten and
 by the rewards of addresses without a claim, so paying a claim can never underflow it.
 */
module ClaimsSolvency {
  import opened Wrappers
  import opened Ledgers
  import opened MapSums
  import opened Perbills
  import opened Vesting
  import opened Claims
  import opened Betanet

  function Amount(n: nat): int { n }

  ghost function ClaimsSum(claims: map<EthereumAddress, nat>): int { Sum(claims, Amount) }

  /** By how much the pot exceeds the claims. */
  ghost function Gap(s: State): int { s.total - ClaimsSum(s.claims) }

  ghost predicate Solvent(s: State) { ClaimsSum(s.claims) <= s.total }

  lemma {:induction false} ClaimCovered(s: State, address: EthereumAddress)
    requires Solvent(s) && address in s.claims
    ensures s.claims[address] <= s.total
  {
    SumLowerBound(s.claims, Amount, address);
  }

  // ---------- what a step leaves in the pot for nobody ----------

  function ValueAt(claims: map<EthereumAddress, nat>, address: EthereumAddress): nat {
    if address in claims then claims[address] else 0
  }

  /** The value of the claim a call overwrites. */
  function Overwritten(s: State, call: Call): nat {
    match call
    case MintClaim(address, _, _, _) => ValueAt(s.claims, address)
    case MoveClaim(from, to, _) => if from in s.claims && from != to then ValueAt(s.claims, to) else 0
    case _ => 0
  }

  /** The rewards of drained addresses that have no claim. */
  function Orphaned(s: State, order: seq<EthereumAddress>): nat
    requires forall a :: a in order ==> a in s.rewards
  {
    if order == [] then 0
    else (if order[0] in s.claims then 0 else s.rewards[order[0]]) + Orphaned(s, order[1..])
  }

  function Lost(c: Config, s: State, step: Step): nat
    requires OrdersOk(c, s, step)
  {
    match step
    case Extrinsic(call) => if Dispatch(c, s, call).Ok? then Overwritten(s, call) else 0
    case NextBlock(_, rewardOrder) => if Enacts(c, s) then Orphaned(s, rewardOrder) else 0
  }

  // ---------- one step ----------

  lemma {:induction false} RekeySum(m: map<EthereumAddress, nat>, from: EthereumAddress, to: EthereumAddress)
    ensures ClaimsSum(Rekey(m, from, to)) ==
      ClaimsSum(m) - (if from in m && from != to then ValueAt(m, to) else 0)
  {
    if from in m {
      SumDrop(m, Amount, from);
      SumUpdate(m - {from}, Amount, to, m[from]);
    }
  }

  lemma {:induction false} ProcessClaimGap(c: Config, s: State, signer: EthereumAddress, dest: AccountId)
    requires ProcessClaim(c, s, signer, dest).Ok?
    ensures Gap(ProcessClaim(c, s, signer, dest).value) == Gap(s)
  {
    SumDrop(s.claims, Amount, signer);
  }

  lemma {:induction false} DispatchGap(c: Config, s: State, call: Call)
    requires Dispatch(c, s, call).Ok?
    ensures Gap(Dispatch(c, s, call).value) == Gap(s) + Overwritten(s, call)
  {
    match call
    case Claim(dest, signature) => ProcessClaimGap(c, s, Signer(c, signature, dest, []).value, dest);
    case ClaimAttest(dest, signature, statement) =>
      ProcessClaimGap(c, s, Signer(c, signature, dest, statement).value, dest);
    case Attest(who, _) => ProcessClaimGap(c, s, s.preclaims[who], who);
    case MintClaim(address, value, _, _) => SumUpdate(s.claims, Amount, address, value);
    case MoveClaim(from, to, _) => RekeySum(s.claims, from, to);
    case SelectOption(_, _) =>
    case Approve =>
  }

  lemma {:induction false} LeftoverGap(c: Config, s: State, address: EthereumAddress, reward: nat)
    ensures Gap(ProcessLeftover(c, s, address, reward)) == Gap(s) + (if address in s.claims then 0 else reward)
  {
    if address in s.claims {
      var claim: nat := s.claims[address] + reward;
      SumUpdate<EthereumAddress, nat>(s.claims, Amount, address, claim);
    }
  }

  lemma {:induction false} OrphanedSame(s: State, s': State, order: seq<EthereumAddress>)
    requires forall a :: a in order ==> a in s.rewards
    requires s'.claims.Keys == s.claims.Keys && s'.rewards == s.rewards
    ensures Orphaned(s', order) == Orphaned(s, order)
  {
    if order != [] {
      OrphanedSame(s, s', order[1..]);
    }
  }

  lemma {:induction false} DrainRewardsGap(c: Config, s: State, order: seq<EthereumAddress>)
    requires forall a :: a in order ==> a in s.rewards
    ensures Gap(DrainRewards(c, s, order)) == Gap(s) + Orphaned(s, order)
    decreases |order|
  {
    if order != [] {
      var s1 := ProcessLeftover(c, s, order[0], s.rewards[order[0]]);
      LeftoverGap(c, s, order[0], s.rewards[order[0]]);
      DrainRewardsGap(c, s1, order[1..]);
      assert s1.claims.Keys == s.claims.Keys;
      OrphanedSame(s, s1, order[1..]);
    }
  }

  /** A step widens the gap between the pot and the claims by exactly what it leaves there for nobody. */
  lemma {:induction false} StepGap(c: Config, s: State, step: Step)
    requires OrdersOk(c, s, step)
    ensures Gap(Next(c, s, step)) == Gap(s) + Lost(c, s, step)
  {
    match step
    case Extrinsic(call) => ExtrinsicGap(c, s, call);
    case NextBlock(accountOrder, rewardOrder) => BlockGap(c, s, accountOrder, rewardOrder);
  }

  lemma {:induction false} ExtrinsicGap(c: Config, s: State, call: Call)
    ensures Gap(Next(c, s, Extrinsic(call))) == Gap(s) + Lost(c, s, Extrinsic(call))
  {
    if Dispatch(c, s, call).Ok? {
      DispatchGap(c, s, call);
    }
  }

  lemma {:induction false} BlockGap(
      c: Config, s: State, accountOrder: seq<AccountId>, rewardOrder: seq<EthereumAddress>)
    requires OrdersOk(c, s, NextBlock(accountOrder, rewardOrder))
    ensures var step := NextBlock(accountOrder, rewardOrder);
      Gap(Next(c, s, step)) == Gap(s) + Lost(c, s, step)
  {
    if Enacts(c, s) {
      var now := AtBlock(s, s.block + 1);
      EnactGap(c, now, accountOrder, rewardOrder);
      OrphanedSame(s, now, rewardOrder);
      assert Next(c, s, NextBlock(accountOrder, rewardOrder)) == Enact(c, now, accountOrder, rewardOrder);
    }
  }

  lemma {:induction false} EnactGap(
      c: Config, s: State, accountOrder: seq<AccountId>, rewardOrder: seq<EthereumAddress>)
    requires Enumerates(accountOrder, s.accounts.Keys) && Enumerates(rewardOrder, s.rewards.Keys)
    ensures Gap(Enact(c, s, accountOrder, rewardOrder)) == Gap(s) + Orphaned(s, rewardOrder)
  {
    var paid := DrainAccounts(c, s, accountOrder);
    DrainedKeeps(c, s, accountOrder);
    DrainRewardsGap(c, paid, rewardOrder);
    OrphanedSame(s, paid, rewardOrder);
  }

  function LostIn(c: Config, s: State, steps: seq<Step>): nat
    requires RunOk(c, s, steps)
    decreases |steps|
  {
    if steps == [] then 0 else Lost(c, s, steps[0]) + LostIn(c, Next(c, s, steps[0]), steps[1..])
  }

  /** Over any run the gap is what it was plus everything left in the pot for nobody. */
  lemma {:induction false} RunGap(c: Config, s: State, steps: seq<Step>)
    requires RunOk(c, s, steps)
    ensures Gap(Run(c, s, steps)) == Gap(s) + LostIn(c, s, steps)
    decreases |steps|
  {
    if steps != [] {
      StepGap(c, s, steps[0]);
      RunGap(c, Next(c, s, steps[0]), steps[1..]);
    }
  }

  // ---------- genesis ----------

  datatype Entry = Entry(
    address: EthereumAddress,
    value: nat,
    reward: Option<nat>,
    preclaim: Option<AccountId>,
    kind: Option<StatementKind>)

  /** Genesis claims: the last entry of an address counts, but the pot holds them all. */
  function GenesisClaims(entries: seq<Entry>): map<EthereumAddress, nat>
    decreases |entries|
  {
    if entries == [] then map[]
    else
      var last := entries[|entries| - 1];
      GenesisClaims(entries[..|entries| - 1])[last.address := last.value]
  }

  function GenesisTotal(entries: seq<Entry>): nat
    decreases |entries|
  {
    if entries == [] then 0 else GenesisTotal(entries[..|entries| - 1]) + entries[|entries| - 1].value
  }

  function GenesisRewards(entries: seq<Entry>): map<EthereumAddress, nat>
    decreases |entries|
  {
    if entries == [] then map[]
    else
      var last, rest := entries[|entries| - 1], GenesisRewards(entries[..|entries| - 1]);
      if last.reward.Some? then rest[last.address := last.reward.value] else rest
  }

  function GenesisSigning(entries: seq<Entry>): map<EthereumAddress, StatementKind>
    decreases |entries|
  {
    if entries == [] then map[]
    else
      var last, rest := entries[|entries| - 1], GenesisSigning(entries[..|entries| - 1]);
      if last.kind.Some? then rest[last.address := last.kind.value] else rest
  }

  function GenesisPreclaims(entries: seq<Entry>): map<AccountId, EthereumAddress>
    decreases |entries|
  {
    if entries == [] then map[]
    else
      var last, rest := entries[|entries| - 1], GenesisPreclaims(entries[..|entries| - 1]);
      if last.preclaim.Some? then rest[last.preclaim.value := last.address] else rest
  }

  function GenesisState(
      l: Ledger, entries: seq<Entry>, vesting: map<EthereumAddress, seq<Schedule>>,
      accounts: map<AccountId, UserInfo>, schedules: map<AccountId, seq<Schedule>>): State
  {
    State(l, GenesisClaims(entries), GenesisTotal(entries), vesting, GenesisSigning(entries),
      GenesisPreclaims(entries), GenesisRewards(entries), accounts, false, schedules, 0)
  }

  /** The values of entries that a later entry of the same address replaces. */
  function Replaced(entries: seq<Entry>): nat
    decreases |entries|
  {
    if entries == [] then 0
    else
      var n := |entries| - 1;
      Replaced(entries[..n]) + ValueAt(GenesisClaims(entries[..n]), entries[n].address)
  }

  lemma {:induction false} GenesisGap(entries: seq<Entry>)
    ensures GenesisTotal(entries) - ClaimsSum(GenesisClaims(entries)) == Replaced(entries)
    decreases |entries|
  {
    if entries != [] {
      var n := |entries| - 1;
      GenesisGap(entries[..n]);
      SumUpdate(GenesisClaims(entries[..n]), Amount, entries[n].address, entries[n].value);
    }
  }

  /** The law from genesis: the pot covers the claims after any run, exactly when nothing was ever lost. */
  lemma {:induction false} SolventForever(
      c: Config, l: Ledger, entries: seq<Entry>, vesting: map<EthereumAddress, seq<Schedule>>,
      accounts: map<AccountId, UserInfo>, schedules: map<AccountId, seq<Schedule>>, steps: seq<Step>)
    requires RunOk(c, GenesisState(l, entries, vesting, accounts, schedules), steps)
    ensures var s0 := GenesisState(l, entries, vesting, accounts, schedules);
      var s := Run(c, s0, steps);
      && Solvent(s)
      && (ClaimsSum(s.claims) == s.total <==> Replaced(entries) == 0 && LostIn(c, s0, steps) == 0)
  {
    GenesisGap(entries);
    RunGap(c, GenesisState(l, entries, vesting, accounts, schedules), steps);
  }

  // ---------- validation agrees with dispatch ----------

  lemma {:induction false} NeverUnderflows(c: Config, s: State, signer: EthereumAddress, dest: AccountId)
    requires Solvent(s)
    ensures ProcessClaim(c, s, signer, dest) != Err(PotUnderflow)
    ensures ProcessClaim(c, s, signer, dest).Ok? <==>
      signer in s.claims && !(signer in s.vesting && dest in s.schedules)
  {
    if signer in s.claims {
      ClaimCovered(s, signer);
    }
  }

  /** Dispatch can never report an underflowing pot in a reachable state. */
  lemma {:induction false} PotNeverUnderflows(c: Config, s: State, call: Call)
    requires Solvent(s)
    ensures Dispatch(c, s, call) != Err(PotUnderflow)
  {
    match call
    case Claim(dest, signature) =>
      if Signer(c, signature, dest, []).Some? {
        NeverUnderflows(c, s, Signer(c, signature, dest, []).value, dest);
      }
    case ClaimAttest(dest, signature, statement) =>
      if Signer(c, signature, dest, statement).Some? {
        NeverUnderflows(c, s, Signer(c, signature, dest, statement).value, dest);
      }
    case Attest(who, _) =>
      if who in s.preclaims {
        NeverUnderflows(c, s, s.preclaims[who], who);
      }
    case _ =>
  }

  /** A vested claim meets an account that already has vesting schedules. */
  predicate VestingClash(s: State, signer: EthereumAddress, dest: AccountId) {
    signer in s.vesting && dest in s.schedules
  }

  /** A claim that validation accepts is dispatched, unless its vesting clashes with that of the account. */
  lemma {:induction false} ValidClaimDispatches(c: Config, s: State, call: Call)
    requires Solvent(s) && (call.Claim? || call.ClaimAttest?) && ValidateUnsigned(c, s, call).Valid?
    ensures var signer := ValidateUnsigned(c, s, call).signer;
      if VestingClash(s, signer, call.dest) then Dispatch(c, s, call) == Err(VestedBalanceExists)
      else Dispatch(c, s, call).Ok?
  {
    NeverUnderflows(c, s, ValidateUnsigned(c, s, call).signer, call.dest);
  }

  /**
   The converse for claim_attest: what would dispatch is accepted exactly when the signer owes a statement;
   an unneeded statement is refused although dispatch would ignore it.
   */
  lemma {:induction false} DispatchedClaimValid(c: Config, s: State, call: Call)
    requires (call.Claim? || call.ClaimAttest?) && Dispatch(c, s, call).Ok?
    ensures var statement := if call.Claim? then [] else call.statement;
      var signer := Signer(c, call.signature, call.dest, statement).value;
      ValidateUnsigned(c, s, call).Valid? <==> call.Claim? || signer in s.signing
  {
  }

  /** A prevalidated attest can also fail because the preclaim points to an address without a claim. */
  lemma {:induction false} ValidAttestDispatches(c: Config, s: State, call: Call)
    requires Solvent(s) && call.Attest? && PrevalidateAttest(c, s, call).None?
    ensures var signer := s.preclaims[call.who];
      Dispatch(c, s, call).Ok? <==> signer in s.claims && !VestingClash(s, signer, call.who)
    ensures Dispatch(c, s, call).Err? ==>
      Dispatch(c, s, call).error == (if s.preclaims[call.who] in s.claims then VestedBalanceExists else SignerHasNoClaim)
  {
    NeverUnderflows(c, s, s.preclaims[call.who], call.who);
  }
}
