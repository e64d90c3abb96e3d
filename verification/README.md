# Ledger laws of the xx network pallets

This project models the custom pallets that move and lock money on the xx network chain, over one shared
ledger of balances, frozen and reserved amounts and total issuance, and proves the conservation and
whole-run laws those pallets rely on.

- **Team custody** (`Custody*.dfy`): allocations split into custody and reserve accounts, chunked payouts,
  shortfalls, donations and slashes, member replacement, the final settlement of `TotalCustody`.
- **Bridge and swap** (`Bridge*.dfy`): relayer votes, approval, rejection, expiry and execution of proposals
  (which may themselves vote on or execute other proposals), nonces, and the bridge account.
- **Claims and betanet rewards** (`Claim*.dfy`, `Betanet.dfy`, `Enactment.dfy`, `RewardTerms.dfy`,
  `Vesting.dfy`): claims, the
  pot that backs them, unsigned validation, and the enactment that drains two maps in an arbitrary order.
- **Economics** (`Interest.dfy`, `EraPayout.dfy`, `RewardPool.dfy`, `EconomicsPallet.dfy`): the interest
  curve, era payouts, liquidity rewards, and the pool that pays rewards before anything is minted.
- **Signed messages** (`Encoding.dfy`): hexadecimal and decimal encoders and what a signed message determines.

`Ledger.dfy`, `MapSums.dfy`, `Perbill.dfy` and `Wrappers.dfy` are shared. Each pallet has a specification in
functions over a `State` value, lemmas about runs of that specification, and a class (`CustodyPallet`,
`BridgePallet`, `ClaimsPallet`, `EconomicsPallet`) that holds the storage and updates it in place; every
method of a class is proved to do to the storage what the specification says, including error results.

## Assumptions

- `Perbill::from_rational` floors and saturates at one; Perbill times Perbill truncates; Perbill times a
  balance rounds to the nearest unit, ties down. `compute_inflation` is any Perbill-valued function.
- Imbalances are amounts. Dropping a positive one raises issuance, dropping a negative one lowers it; dust
  of a reaped account is burned.
- A failing dispatch is rolled back in custody and claims. The bridge laws are proved with and without
  rollback (`Config.transactional`).
- Custody keeps an arbitrary existential deposit, and so do the bridge and the law of a single reward
  payment. The laws about sequences of rewards, the enactment and the runs of claims take a deposit of at
  most one, as the mock runtimes do.
- The enactment and reward laws need a rewards pool with nothing frozen or reserved, so that all of its free
  balance can be drawn, and take recipients other than the pool.
- The custody and reserve accounts derived from different owners or indices are different accounts. The
  vesting law takes members that are not themselves custody or reserve accounts of the pallet; any other
  account, keyless ones included, may be a member or replace one.
- A custody run may contain an arbitrary change of balances, locks, reserves and proxies by other pallets
  between any two steps. A bridge run may contain an arbitrary change of balances at any step, and any call
  of another pallet, also one executed by a proposal in the name of the bridge account, may leave arbitrary
  balances behind. A claims run changes storage only through the calls and blocks it lists.

## Where the code does something unexpected

- `initialize_custody` overwrites a member listed twice at genesis but still adds to `TotalCustody`:
  `CustodyTotals.GenesisExact` says exactly for which lists the total is right.
- Rounding a chunk up can pay out more than the allocation before the end, once somebody donates to the
  custody account, and the correction of the final payout, which then deducts nothing, leaves `TotalCustody` wrong. The exact
  condition is that the rounded chunks of the whole period stay within the allocation
  (`CustodyRounding.NeverOverpaid`, `CustodyRounding.ExactForever`, both with the run that shows it). It is
  not a matter of size (`CustodyRounding.AnySizeUnbounded`), but for the production durations it holds from
  22464 base units on and fails one unit below (`CustodyRounding.ProductionBounded`,
  `CustodyRounding.ProductionBoundSharp`). What a member receives in the end, and the absence of underflow,
  do not depend on it (`CustodyVesting.VestsInFull`, `CustodyBooks.NeverUnderflows`).
- Genesis does not deposit a part of an allocation that is below the existential deposit, although it counts
  it in `TotalCustody` (`CustodyVesting.OpenedInFull`).
- The interpolation ratio uses the block itself, shifted by half an era from block `EraDuration` on, and not
  the offset within the segment. The interest can therefore rise from the block before `EraDuration` to that
  block, and nowhere else: `Interest.CurveFallsExactly` gives the exact condition, `Interest.InterestCanJump`
  a list for which it rises. It also stays at the end of a segment once the block exceeds the segment's
  length (`Interest.SegmentSaturates`). Whether the curve falls depends on the order of the interests in the
  list only; that the blocks are sorted is what makes the two points used the neighbours of the block
  (`Interest.SortedNeighbours`).
- `process_leftover_claim` reads the principal after adding the reward, so it locks more than the table
  promises, never less (`Enactment.LeftoverLockPromise`).
- `move_claim` leaves the proposed reward with the old address. When it is drained there, the pot keeps a
  reward nobody can claim (`ClaimsSolvency.StepGap`).
- The comment in `process_claim` (claims/src/lib.rs:474-483) says schedules are refused only beyond the limit
  of the account; one without a step per block is refused too, and silently. `ClaimVesting.ClaimedLock` says
  exactly when the lock stored with a claim arrives. The top-up that enactment stores with a leftover claim
  is lost whenever it is below 2592000 units (`ClaimVesting.TopUpArrives`, `ClaimVesting.TopUpLost`), and an
  account loses its top-up in the same way (`Enactment.AccountLock`, `Enactment.SpreadAccepted`).
- `validate_unsigned` refuses a `claim_attest` whose signer owes no statement although dispatch would accept
  it (`ClaimsSolvency.DispatchedClaimValid`), and `PrevalidateAttests` accepts an `attest` whose address has
  no claim (`ClaimsSolvency.ValidAttestDispatches`).

## Model

| member | source | states |
|---|---|---|
| `CustodyTotals.FinalPayoutKeeps` | xx-team-custody/src/custody.rs:289-323 | whichever of the three final branches is taken, `TotalCustody` falls by exactly allocation minus vested, nothing saturates, and the invariant is kept |
| `CustodyTotals.PartialPayoutKeeps` | xx-team-custody/src/custody.rs:190-201 | a keep-alive payout takes exactly what it paid off `TotalCustody`, without saturating, and keeps the invariant |
| `CustodyBooks.NeverUnderflows` | xx-team-custody/src/custody.rs:190-196 | in every state reachable from any genesis list at all, vested never exceeds payout times elapsed chunks, so the subtraction of the amount due is exact |
| `CustodyBooks.RunStructure` | xx-team-custody/src/custody.rs:162-326 | over any run, whatever the allocations, no member is vested beyond the entitlement and `CustodyAccounts` is exactly the members' accounts |
| `CustodyTotals.ReplaceKeeps` | xx-team-custody/src/custody.rs:431-436 | replacing a member keeps the total, the entitlements and the set of custody accounts exact |
| `CustodyTotals.RunKeeps` | xx-team-custody/src/custody.rs:162-326 | over any run of payouts, replacements, blocks and outside changes of bounded allocations `TotalCustody` stays the sum of allocation minus vested |
| `CustodyTotals.GenesisExact` | xx-team-custody/src/custody.rs:122-128 | after genesis the total is exact if and only if no listed allocation other than zero is overwritten, and is never too low |
| `CustodyTotals.GenesisInv` | xx-team-custody/src/lib.rs:77-85 | a list without an overwritten allocation whose rounded chunks stay within the allocations starts with the whole invariant |
| `CustodyRounding.ExactForever` | xx-team-custody/src/custody.rs:289-313 | from genesis `TotalCustody` is the sum of what is owed in every reachable state if and only if no listed allocation is overwritten and the rounded chunks of each stay within it |
| `CustodyRounding.NeverOverpaid` | xx-team-custody/src/custody.rs:153-159 | no run from genesis ever pays a member more than the allocation before the end if and only if the rounded chunks of every member stay within it |
| `CustodyRounding.Overpaid` | xx-team-custody/src/custody.rs:187-201 | the run that overpays any other member: a donation, the last block of the period, and the payout |
| `CustodyRounding.OverpaidLeavesGap` | xx-team-custody/src/custody.rs:289-313 | once a member is overpaid `TotalCustody` is wrong then or after the member's final payout |
| `CustodyRounding.AnySizeUnbounded` | xx-team-custody/src/custody.rs:153-159 | with chunks of a tenth, allocations of any size have rounded chunks above the allocation |
| `CustodyPayouts.EntitledWithinHalfChunk` | xx-team-custody/src/custody.rs:153-159 | within the period twice the entitlement is at most twice the allocation plus the number of chunks |
| `CustodyPayouts.ChunkValue` | xx-team-custody/src/custody.rs:153-159 | a chunk is the allocation times frequency over duration, up to half a unit and a billionth of the allocation |
| `CustodyRounding.ProductionBounded` | runtime/xxnetwork/src/lib.rs:405-406 | with one week in three years no allocation of at least 22464 base units is ever exceeded by rounding |
| `CustodyRounding.ProductionBoundSharp` | runtime/common/src/constants.rs:90-93 | one unit below that bound there is a run that pays out more than the allocation within the period |
| `CustodyPayouts.PartialPayoutExact` | xx-team-custody/src/custody.rs:209-280 | exactly when a keep-alive payout succeeds: the custody account pays what it can of the amount due, the reserve account what it can of the rest, the member gets both, and no paying account drops below the existential deposit |
| `CustodyPayouts.CatchesUp` | xx-team-custody/src/custody.rs:187-201 | vested after a payout is chunk times elapsed chunks, or everything that could be withdrawn, whatever was paid before |
| `CustodyPayouts.PartialRefused` | xx-team-custody/src/custody.rs:190-201 | before the end a payout reports no member, nothing due, or no funds exactly when that is so |
| `CustodyPayouts.FinalRefused` | xx-team-custody/src/custody.rs:171-183 | after the end a payout reports the refusal of the staking pallet exactly when it refuses |
| `CustodyPayouts.ReplaceMoves` | xx-team-custody/src/custody.rs:431-436 | a replacement moves the record to the successor and changes nothing else, exactly when the member exists and the successor is none |
| `CustodyVesting.RunHolds` | xx-team-custody/src/custody.rs:237-280 | what a custody or reserve account holds and has paid out is what it started with plus what others put in |
| `CustodyVesting.RunSound` | xx-team-custody/src/custody.rs:215-234 | over any run the accounts of present members never lose dust and stay those genesis gave them |
| `CustodyVesting.ExactVesting` | xx-team-custody/src/custody.rs:171-188 | from any sound state, if at the end unstaking leaves no lock on the custody account, nothing is reserved there beyond the recorded proxy deposit, and the reserve account is untouched, the member gets all that is left, both accounts end empty, have no proxies on record, and have paid out everything ever put in |
| `CustodyVesting.ProxiesRemoved` | xx-team-custody/src/custody.rs:181-188 | a successful final payout takes exactly the proxies of the member's custody account off the record and logs the end of custody last |
| `CustodyVesting.VestsInFull` | xx-team-custody/src/custody.rs:72-326 | under the same condition on the raw balances, over a complete run from genesis and for allocations of any rounding, a member or its replacement is paid exactly what genesis put aside plus donations minus slashes |
| `CustodyVesting.OpenedInFull` | xx-team-custody/src/custody.rs:77-113 | genesis puts the whole allocation aside if and only if each of the two parts is nothing or at least the existential deposit |
| `CustodyVesting.GenesisSplit` | xx-team-custody/src/custody.rs:72-130 | genesis puts 5.5555556% of an allocation, to the nearest unit, into the reserve account and the rest into the custody account, if each part can open its account |
| `CustodyPallet.Pallet.InitializeCustody` | xx-team-custody/src/custody.rs:72-130 | the deposits and storage writes yield the specified genesis state |
| `CustodyPallet.Pallet.Build` | xx-team-custody/src/lib.rs:77-85 | the genesis loop initialises the members one by one in list order |
| `CustodyPallet.Pallet.DoPayout` | xx-team-custody/src/custody.rs:209-326 | the in-place payout succeeds exactly when the specification does, with its state or its error |
| `CustodyPallet.Pallet.RemoveCustodyProxies` | xx-team-custody/src/custody.rs:146-150 | the proxies go and their deposit returns to the free balance |
| `CustodyPallet.Pallet.TryPayout` | xx-team-custody/src/custody.rs:162-206 | the branch on the end of custody, the unstaking, and the payout do what the specification says |
| `CustodyPallet.Pallet.Payout` | xx-team-custody/src/lib.rs:155-159 | a payout ends in the specified state, a failing one leaves the storage as it was, and the structure and the exact totals are kept |
| `CustodyPallet.Pallet.ReplaceTeamMember` | xx-team-custody/src/lib.rs:270-276 | the two guards, their errors, the moved record, and that structure and exact totals are kept |
| `BridgeSafety.InvStep` | chainbridge/src/lib.rs:403-535 | every atomic storage write keeps the whole safety invariant |
| `BridgeTraces.DispatchSound` | chainbridge/src/lib.rs:301-340 | every dispatch, however deeply proposals call each other and with or without rollback, consists of enabled writes only |
| `BridgeTraces.FinalizeSound` | chainbridge/src/lib.rs:524-535 | executing an approved proposal emits its success at most once although the call may come back to the same proposal |
| `BridgeTraces.ClosedForever` | chainbridge/src/lib.rs:441-521 | a completed or expired record is never changed again by any sequence of enabled writes |
| `BridgeSafety.RunKeepsInv` | chainbridge/src/lib.rs:60-89 | over any run: one vote per relayer, decisions backed by the votes, threshold and relayers then in force, each key executed at most once, relayer count exact, nonces gap-free, and every record expiring its lifetime after the block of its first vote |
| `BridgeSafety.RunKeepsClosed` | chainbridge/src/lib.rs:76-89 | an approved, rejected or expired record is the same at the end of any run |
| `BridgeSafety.NoncesStep` | chainbridge/src/lib.rs:374-378 | the logged transfers to each chain carry 1, 2, ..., k and the counter is k, across all three transfer kinds |
| `BridgeSafety.JustifiedStep` | chainbridge/src/lib.rs:63-73 | an approval has at least the threshold in force in favour; a rejection leaves too few relayers to reach it |
| `BridgeSafety.TimesStep` | chainbridge/src/lib.rs:441-474 | a record appears with its first vote and expires the proposal lifetime after the block of that vote, as the log shows |
| `BridgeSafety.SetupLegal` | swap/src/lib.rs:175-193 | genesis succeeds if and only if chains are foreign and distinct, relayers distinct and the threshold positive |
| `BridgeSafety.SafeForever` | swap/src/lib.rs:66-79 | from a genesis that succeeds the safety invariant holds in every reachable state |
| `BridgeVoting.AttemptOutcome` | chainbridge/src/lib.rs:441-498 | one more vote either leaves the proposal open with that vote added or closes it with the outcome the tally decides |
| `BridgeVoting.AttemptSucceeds` | chainbridge/src/lib.rs:441-498 | an attempt on an open record by a relayer that has not voted succeeds unless the call it approves fails |
| `BridgeVoting.OrderIndependent` | chainbridge/src/lib.rs:441-521 | after every relayer's one attempt within the lifetime, in any order and with other quiet steps and blocks in between, the proposal is approved exactly with a threshold in favour, else rejected; with a threshold above the number of relayers it stays open; only the call of the proposal is assumed to succeed |
| `BridgeVoting.PermutedVotesAgree` | chainbridge/src/lib.rs:63-73 | two runs with the same ballots in different orders, whatever else they do quietly, end in the same status |
| `BridgeEffects.VoteCounts` | chainbridge/src/lib.rs:301-330 | a vote counts unless the relayer set, the whitelist, the resources, a logged decision, the lifetime since the first logged vote, or an earlier logged vote speak against it, and otherwise reports the first of these and writes nothing |
| `BridgeEffects.Evaluated` | chainbridge/src/lib.rs:334-340 | evaluating a proposal approves it, rejects it or leaves it exactly as the logged votes, the threshold and the relayers decide, or reports that it is unknown, decided or expired |
| `BridgeEffects.CarriedTransferPays` | chainbridge/src/lib.rs:524-535 | a carried Transfer proposal that the bridge account can pay raises its recipient by exactly the amount, lowers the bridge by it and at most dust, and touches nobody else |
| `BridgeEffects.NativeTransfer` | swap/src/lib.rs:115-138 | a native transfer gives the fee destination exactly the fee and the bridge exactly the amount, takes both and at most dust from the source, touches nobody else, and is logged last with the next nonce |
| `BridgeEffects.NativeTransferRefused` | swap/src/lib.rs:115-125 | a native transfer is refused before money moves exactly for an unsigned origin, an unknown chain, or a balance below amount plus fee |
| `BridgeEffects.FeeFirst` | swap/src/lib.rs:127-134 | when a currency transfer fails, the fee has been tried first: a failing fee moves nothing, a failing amount leaves the fee paid where dispatches are not rolled back |
| `BridgeEffects.PalletTransfers` | chainbridge/src/lib.rs:544-607 | a transfer started by another pallet takes the next nonce of a whitelisted chain, and does nothing for any other |
| `BridgeEffects.AdministratorsOnly` | chainbridge/src/lib.rs:345-351 | administrative calls are refused exactly to signed accounts that are not listed |
| `BridgeEffects.Administered` | chainbridge/src/lib.rs:229-295 | each administrative call sets its value and nothing else, or changes nothing and says why |
| `BridgeBacking.DispatchBooks` | swap/src/lib.rs:115-151 | what a dispatch moves in or out of the bridge account equals what it logs as sent out and as executed |
| `BridgeBacking.RunBacked` | chainbridge/src/lib.rs:524-563 | over any run the bridge balance is its start plus native fungible transfers sent minus transfer proposals executed, less dust, plus what others put in or took out; all accounts together change only by dust and by others |
| `BridgePallet.Runtime.Initialize` | swap/src/lib.rs:175-193 | the three loops succeed exactly when the setup is legal and then leave the configured state |
| `BridgePallet.Runtime.RegisterRelayer` | chainbridge/src/lib.rs:417-427 | a new relayer is added and the count stays the size of the set |
| `BridgePallet.Runtime.UnregisterRelayer` | chainbridge/src/lib.rs:430-438 | a known relayer is removed and the count stays the size of the set |
| `BridgePallet.Runtime.CommitVote` | chainbridge/src/lib.rs:441-474 | a vote is stored exactly when the record is open and the relayer has not voted; otherwise nothing changes and the error says why |
| `BridgePallet.Runtime.TryResolveProposal` | chainbridge/src/lib.rs:477-498 | the tally, the stored status and the execution are those of the state machine |
| `BridgePallet.Runtime.FinalizeExecution` | chainbridge/src/lib.rs:524-535 | approval is recorded before the call is dispatched from the bridge account, success after it |
| `BridgePallet.Runtime.Vote` | chainbridge/src/lib.rs:301-330 | the guards of a ballot in order, then the vote, then the resolution |
| `BridgePallet.Runtime.StartTransfer` | chainbridge/src/lib.rs:544-607 | a transfer of any kind takes the next nonce of a whitelisted chain and is logged, or is refused |
| `BridgePallet.Runtime.TransferNative` | swap/src/lib.rs:115-138 | fee first, then the amount into the bridge account, then the logged transfer; the same errors in the same order |
| `BridgePallet.Runtime.Dispatch` | chainbridge/src/lib.rs:342-535 | dispatching any call, recursively, performs the specified trace and returns the specified result |
| `BridgePallet.Runtime.Extrinsic` | chainbridge/src/lib.rs:301-340 | an extrinsic keeps the whole safety invariant in the stored state |
| `ClaimsSolvency.StepGap` | claims/src/lib.rs:457-502 | the pot exceeds the claims by exactly what overwriting and rewards without a claim leave in it |
| `ClaimsSolvency.LeftoverGap` | xx-betanet-rewards/src/lib.rs:327-332 | a leftover reward widens the gap only when its address has no claim |
| `ClaimsSolvency.SolventForever` | claims/src/lib.rs:197-202 | from genesis the pot covers all claims after any run, with equality if and only if nothing was overwritten or orphaned |
| `ClaimsSolvency.PotNeverUnderflows` | claims/src/lib.rs:457-461 | no call reports `PotUnderflow` in a solvent state |
| `ClaimsSolvency.ValidClaimDispatches` | claims/src/lib.rs:508-548 | a claim accepted by validation dispatches, except with `VestedBalanceExists` exactly when a vested claim meets an account with schedules |
| `ClaimsSolvency.DispatchedClaimValid` | claims/src/lib.rs:352-366 | a claim that would dispatch is accepted by validation unless it carries a statement its signer does not owe |
| `ClaimsSolvency.ValidAttestDispatches` | claims/src/lib.rs:607-627 | a prevalidated attest dispatches if and only if its address has a claim and no vesting clash, else with the matching error |
| `ClaimsMoney.RunMoney` | claims/src/lib.rs:457-502 | over any run issuance plus pot changes only by minted claims and by enacted rewards the pool cannot cover, and issuance counts what accounts hold |
| `ClaimEffects.ClaimPays` | claims/src/lib.rs:457-502 | a paid claim credits the account, and only it, with the whole claim unless that cannot open it; issuance rises and the pot falls; the address keeps nothing; and before the enactment block the reward is filed with the claim as principal |
| `ClaimEffects.ClaimPaid` | claims/src/lib.rs:276-285 | a claim is paid exactly to the holder of a signature over the account by an address that owes no statement and can be paid |
| `ClaimEffects.ClaimAttestPaid` | claims/src/lib.rs:352-366 | the same with a signed statement that matches the one owed, or when none is owed |
| `ClaimEffects.AttestPaid` | claims/src/lib.rs:390-399 | an attest pays the preclaimed address exactly when its statement is the one owed, and uses the preclaim up |
| `ClaimEffects.MoveTakesAlong` | claims/src/lib.rs:401-415 | claim, vesting and statement are re-keyed together, the reward is not, and a preclaim to the old address follows |
| `ClaimEffects.MintFiles` | claims/src/lib.rs:307-323 | a minted claim fills the pot by its value and files its vesting and statement when given |
| `ClaimEffects.OptionChosen` | xx-betanet-rewards/src/lib.rs:181-192 | the option of an account on file changes, and nothing else, exactly before the enactment block |
| `ClaimEffects.ProgramApproved` | xx-betanet-rewards/src/lib.rs:198-204 | the program can be approved exactly before the enactment block, which changes nothing else |
| `ClaimEffects.BlockPasses` | xx-betanet-rewards/src/lib.rs:207-220 | the maps of rewards are emptied exactly when an approved program meets its enactment block; any other block changes nothing but its number |
| `ClaimEffects.GenesisEntry` | claims/src/lib.rs:197-235 | each address of a genesis list without duplicates has the value, the reward and the statement of its entry |
| `ClaimEffects.GenesisPreclaim` | claims/src/lib.rs:223-227 | an account preclaims the address of the last entry that names it |
| `Enactment.LeftoverLock` | xx-betanet-rewards/src/lib.rs:336-350 | after the top-up of a claim the amount locked at the enactment block is the larger of 80 percent of the claim plus the reward, and what was already locked |
| `Enactment.LeftoverLockPromise` | xx-betanet-rewards/src/lib.rs:315-350 | that is at least 80 percent of the original claim plus the reward |
| `Enactment.AccountLock` | xx-betanet-rewards/src/lib.rs:270-291 | the promised share of the principal plus the reward is locked afterwards if and only if it already was or the missing part unlocks a unit per block of the option's period and there is room |
| `Enactment.SpreadAccepted` | xx-betanet-rewards/src/lib.rs:282-289 | with room for a schedule, it is accepted exactly when the lock is at least one unit per block of 30, 90, 180 or 270 days |
| `ClaimVesting.ClaimedLock` | claims/src/lib.rs:470-484 | once a claim is paid the account has as much locked at any block as was stored with the claim if and only if every schedule still holding something has a step and comes within the limit, and never more |
| `ClaimVesting.TopUpArrives` | xx-betanet-rewards/src/lib.rs:345-350 | without earlier vesting the top-up of a leftover claim arrives in full from 2592000 units on, and not at all below |
| `ClaimVesting.TopUpLost` | xx-betanet-rewards/src/lib.rs:345-350 | a claim of 1000 with a reward of 1000 is promised a lock of 1800 and ends with none |
| `Enactment.AccountsDrained` | xx-betanet-rewards/src/lib.rs:354-358 | after draining the accounts in any order each account has been credited the percentage of its own entry and has the schedule that goes with it, and the pool paid what it could |
| `Enactment.RewardsDrained` | xx-betanet-rewards/src/lib.rs:361-365 | after draining the rewards in any order each address has exactly the claim and schedules its own entry promises |
| `Enactment.LeftoverLedgerEffect` | xx-betanet-rewards/src/lib.rs:321-333 | the pair of imbalances takes only what the pool paid out of issuance and touches no other account |
| `Enactment.EnactmentAccounting` | xx-betanet-rewards/src/lib.rs:243-267 | whatever the orders, the pool falls by the smaller of its balance and all rewards, issuance plus pot rises by the rest, issuance counts the balances, and every entry gets the percentages of its option; all rewards are summed in percentages, not by the tables |
| `Enactment.EnactTerms` | xx-betanet-rewards/src/lib.rs:54-96 | an account without schedules is credited 2, 12, 45, 100 or 120 percent of its reward to the nearest unit, and gets one schedule for that plus 100, 90, 80 or 100 percent of its principal over 30, 90, 180 or 270 days, or none if that is less than a unit per block |
| `RewardTerms.RewardPromised` | xx-betanet-rewards/src/lib.rs:76-96 | the reward tables pay the plain percentages, rounded to the nearest unit with ties down |
| `RewardTerms.LockPromised` | xx-betanet-rewards/src/lib.rs:65-73 | the lock table locks the plain percentages of the principal, plus the reward |
| `Enactment.OrderIndependent` | xx-betanet-rewards/src/lib.rs:354-365 | two pairs of drain orders end with the same pool, issuance, pot, accounts, schedules and claims |
| `Vesting.RemainingIsOneSubtraction` | xx-betanet-rewards/src/lib.rs:296-312 | subtracting schedule by schedule with saturation is one saturating subtraction of the total locked |
| `Vesting.SpreadUnlocks` | xx-betanet-rewards/src/lib.rs:282-289 | k blocks into a period at least the remaining share is locked, and at its end exactly the remainder of the division, less than the period |
| `ClaimsPallet.Pallet.ProcessClaim` | claims/src/lib.rs:457-502 | the checks in order, then money, schedules and reward for the account and removal of the claim |
| `ClaimsPallet.Pallet.Claim` | claims/src/lib.rs:276-285 | recovery, statement check and payment, with the specified state or error, and a pot that covers the claims still does |
| `ClaimsPallet.Pallet.ClaimAttest` | claims/src/lib.rs:352-366 | the same with a statement, and a pot that covers the claims still does |
| `ClaimsPallet.Pallet.Attest` | claims/src/lib.rs:390-399 | the preclaim is used and removed only on success, and a pot that covers the claims still does |
| `ClaimsPallet.Pallet.MintClaim` | claims/src/lib.rs:307-323 | the pot grows by the value and the entries are overwritten, and a pot that covers the claims still does |
| `ClaimsPallet.Pallet.MoveClaim` | claims/src/lib.rs:401-415 | claim, vesting and statement move, the preclaim follows if it pointed to the old address, and a pot that covers the claims still does |
| `ClaimsPallet.Pallet.SelectOption` | xx-betanet-rewards/src/lib.rs:181-192 | an option changes only for an account on file before the enactment block |
| `ClaimsPallet.Pallet.ApproveProgram` | xx-betanet-rewards/src/lib.rs:198-204 | approval is possible only before the enactment block |
| `ClaimsPallet.Pallet.AddClaimed` | xx-betanet-rewards/src/lib.rs:227-238 | before the enactment block a claimed reward is filed, overwriting an entry |
| `ClaimsPallet.Pallet.ProcessAccount` | xx-betanet-rewards/src/lib.rs:251-293 | the reward is credited, paid from the pool or minted, and the missing lock added |
| `ClaimsPallet.Pallet.ComputeClaimsVestingLock` | xx-betanet-rewards/src/lib.rs:296-312 | the loop over the schedules computes what is left to lock |
| `ClaimsPallet.Pallet.ProcessLeftoverClaim` | xx-betanet-rewards/src/lib.rs:315-352 | claim, pot, ledger and schedules of a leftover reward are as specified |
| `ClaimsPallet.Pallet.ProcessRewards` | xx-betanet-rewards/src/lib.rs:354-358 | removing each entry before it is processed drains the accounts as specified and leaves none |
| `ClaimsPallet.Pallet.ProcessClaims` | xx-betanet-rewards/src/lib.rs:361-365 | the same for the rewards of addresses |
| `ClaimsPallet.Pallet.OnInitialize` | xx-betanet-rewards/src/lib.rs:207-220 | an approved program is enacted at exactly the enactment block, and a pot that covers the claims still does |
| `Interest.HalfEraFits` | xx-economics/src/inflation.rs:142-146 | the shift is half an era, so the block subtraction never underflows |
| `Interest.SegmentPositive` | xx-economics/src/inflation.rs:98-120 | for any list the segment used has positive length and contains the block |
| `Interest.WithinSegment` | xx-economics/src/inflation.rs:122-157 | the result lies between the interests of the two bracketing points |
| `Interest.CurveValue` | xx-economics/src/inflation.rs:98-157 | the curve is the first interest up to the first point and the last after the last; in between, x of n blocks into a segment, it has moved x/n of the difference towards the end, less than two billionths behind, and stays at the end from x = n on; x is the block, less half an era from the era on |
| `Interest.SegmentSaturates` | xx-economics/src/inflation.rs:140-150 | a block that, less half an era from the era on, is at least the length of its segment gets the segment's end interest |
| `Interest.InterestFalls` | xx-economics/src/inflation.rs:98-157 | with non-increasing interests the result never rises, across segments and duplicate blocks, unless the shift reverses two blocks of one segment |
| `Interest.NonIncreasingCurve` | xx-economics/src/inflation.rs:98-157 | the curve is non-increasing from `EraDuration` on, and before it |
| `Interest.CurveFallsExactly` | xx-economics/src/inflation.rs:98-157 | with non-increasing interests the whole curve never rises if and only if the block before `EraDuration` shares no segment with it or leads no further along that segment |
| `Interest.SortedNeighbours` | xx-economics/src/inflation.rs:98-120 | on sorted points the points before the position used are exactly those before the block |
| `Interest.CurveOfPoints` | xx-economics/src/lib.rs:158-163 | the curve an admin sets does not depend on the order of the points, except among points at one block |
| `Interest.InterestCanJump` | xx-economics/src/inflation.rs:142-146 | a sorted, non-increasing list whose interest rises at block `EraDuration` |
| `Interest.SortSorts` | xx-economics/src/lib.rs:79-84 | sorting yields the same points ordered by block, keeping the order of points at one block |
| `Interest.StableSortUnique` | xx-economics/src/lib.rs:158-163 | there is only one such list |
| `EraPayout.InflationBounds` | xx-economics/src/inflation.rs:212-216 | inflation lies between minimum and maximum, or is the minimum when that is larger |
| `EraPayout.RateValues` | xx-economics/src/inflation.rs:199-216 | the maximum rate is the interest's share of the ideal stake, the stake ratio the staked part of what can be staked, and the validators' rate the minimum plus the curve's share of the distance to the maximum |
| `EraPayout.PayoutBounds` | xx-economics/src/inflation.rs:188-232 | the two parts add up to the larger of validator and maximum payout, and each is at most stakeable, which is at most issuance |
| `EraPayout.PayoutValue` | xx-economics/src/inflation.rs:218-231 | validators earn their yearly rate, and both parts together the larger rate, on what can be staked for the era's part of a Julian year, up to stated rounding |
| `EraPayout.LiquidityValue` | xx-economics/src/inflation.rs:160-165 | an era takes off the liquidity rewards what the ideal interest earns on the ideal liquidity stake |
| `EraPayout.LiquidityOverEras` | xx-economics/src/inflation.rs:160-165 | after any number of eras the liquidity balance is its start less the sum of payouts, floored at zero |
| `EraPayout.RunErasPays` | xx-economics/src/inflation.rs:160-165 | those payouts depend on the blocks only, not on earlier eras |
| `RewardPool.PayEffect` | xx-economics/src/rewards.rs:41-86 | through either handler the pool falls by what it covers, exactly the rest is minted, the recipient gets all, and issuance matches the balances |
| `RewardPool.PayRaisesStakeable` | xx-economics/src/inflation.rs:168-181 | a reward raises total stakeable by exactly its amount unless that saturates |
| `RewardPool.SetAsideLowers` | xx-economics/src/inflation.rs:168-181 | nothing set aside leaves all of issuance to be staked, and more in the pool, under custody, for liquidity or in a public account leaves exactly as much less |
| `RewardPool.PayAllEffect` | xx-economics/src/rewards.rs:41-86 | over any sequence from a pool of P the total minted is the sum of rewards less P, floored at zero |
| `EconomicsPallet.Pallet.SetInterestPoints` | xx-economics/src/lib.rs:158-169 | the stored points are the given ones, sorted and stable |
| `EconomicsPallet.Pallet.ComputeTotalStakeable` | xx-economics/src/inflation.rs:168-181 | the fold over the public accounts subtracts every unstakeable balance once |
| `EconomicsPallet.Pallet.EraPayout` | xx-economics/src/inflation.rs:188-232 | the specified two parts, and only the liquidity balance changes |
| `EconomicsPallet.Pallet.OnNonzeroUnbalanced` | xx-economics/src/rewards.rs:41-57 | a positive imbalance is settled from the pool, exactly the rest is minted, and the events name the two parts |
| `EconomicsPallet.Pallet.OnRewardRemainder` | xx-economics/src/rewards.rs:62-85 | a negative imbalance reaches the treasury in full, the pool falls by its part, exactly the rest is minted, and the events name what was burned and what was minted |
| `Encoding.HexRoundTrip` | claims/src/lib.rs:420-428 | decoding the hexadecimal text gives the data back, in twice the length |
| `Encoding.HexOnlyEncodings` | claims/src/lib.rs:420-428 | nothing but an encoding decodes |
| `Encoding.EncodeHex` | claims/src/lib.rs:420-428 | the pushing loop computes that encoding |
| `Encoding.DecimalRoundTrip` | claims/src/lib.rs:434-440 | the decimal digits read back as the number, without a leading zero |
| `Encoding.EncodeLength` | claims/src/lib.rs:434-440 | the reversed-digit loop computes them |
| `Encoding.EthereumSignableMessage` | claims/src/lib.rs:432-446 | the buffer is the header, the decimal length, the prefix, the account and the statement |
| `Encoding.HeaderText` | claims/src/lib.rs:440 | the header is 0x19 and the text of EIP-191 version 0x45 |
| `Encoding.MessageReads` | claims/src/lib.rs:432-446 | read from the front, a message is the header, digits that read as the length of the rest, the prefix, the account and the statement |
| `Encoding.LengthDetermined` | claims/src/lib.rs:432-446 | the length of a message determines the length it announces |
| `Encoding.MessageUnique` | claims/src/lib.rs:432-446 | for account encodings of one length, two messages are equal exactly when destination and statement are |
| `Encoding.MessageAmbiguous` | claims/src/lib.rs:432-446 | without that condition two different pairs give one message |
| `Encoding.DeriveResourceId` | chainbridge/src/lib.rs:35-43 | the in-place loop puts at most the first 31 bytes of the id right-aligned before the chain, after zeros |
| `Encoding.ResourceIdUnique` | chainbridge/src/lib.rs:35-43 | ids of one length up to 31 bytes and their chains are told apart |
| `Ledgers.TransferConserves` | swap/src/lib.rs:124-150 | a transfer changes what all accounts hold by dust alone |

## Left out

- Fixed-width overflow of balances, block numbers and nonces: all are unbounded, except where the code saturates.
- Hashing and signature recovery: recovery is any partial function of a signature and a message.
- The staking, proxy, vesting and balances pallets: only transfers, deposits, freezing, reserving and a list of
  schedules with a limit are modelled. Finished schedules are not pruned, and schedules do not freeze the ledger.
- Governance and custodian calls of custody (`custody_bond`, `custody_set_proxy` and the like): their effect on
  balances, locks and proxies is covered by the arbitrary outside step of a custody run, their guards are not.
- Weights, admin origins beyond a caller tag, and events other than bridge actions, payouts and rewards.
- `xx-cmix`, `xx-public` and the runtime migrations: the public accounts appear only as a list to subtract.
- The genesis balance of the rewards pool and the setters that overwrite a single economics field.
- EconomicsPallet.Pallet.EraPayout: needs at least one interest point, because the code panics on an empty list.
- CustodyVesting.VestsInFull: counts what the member's two accounts paid out; which account holder received a
  payout is the member at that time, as `CustodyPayouts.PartialPayoutExact` states for each payment.
- Calls that wrap other calls (batches, proxies, the scheduler): the inner bridge call is modelled as the call.
- BridgeVoting.OrderIndependent: takes a call that succeeds, and no change of relayers or threshold and no
  end of the lifetime while the proposal is undecided, as without those the outcome does depend on the order.
- Enactment.EnactmentAccounting: speaks of one account and one address other than the pool at a time, and of an
  account map that does not contain the pool account.
