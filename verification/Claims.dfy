/**
 Ethereum claims and the storage they share with the betanet rewards: who may claim what, under which
 vesting, for which statement, and with which proposed reward. Signature recovery is any partial function
 of a signature and a message.
 */
module Claims {
  import opened Wrappers
  import opened Ledgers
  import opened Perbills
  import opened Vesting
  import Encoding

  datatype EthereumAddress = EthereumAddress(id: nat)

  type Signature = Bytes

  datatype StatementKind = Regular | Saft

  /** The betanet reward options. */
  datatype RewardOption = NoVesting | Vesting1Month | Vesting3Month | Vesting6Month | Vesting9Month

  datatype UserInfo = UserInfo(principal: nat, reward: nat, option: RewardOption)

  datatype Config = Config(
    prefix: Bytes,
    text: StatementKind -> Bytes,
    encode: AccountId -> Bytes,
    recover: (Signature, Bytes) -> Option<EthereumAddress>,
    maxSchedules: nat,
    enactment: nat,
    pool: AccountId)

  datatype State = State(
    ledger: Ledger,
    claims: map<EthereumAddress, nat>,
    total: nat,
    vesting: map<EthereumAddress, seq<Schedule>>,
    signing: map<EthereumAddress, StatementKind>,
    preclaims: map<AccountId, EthereumAddress>,
    rewards: map<EthereumAddress, nat>,
    accounts: map<AccountId, UserInfo>,
    approved: bool,
    schedules: map<AccountId, seq<Schedule>>,
    block: nat)

  datatype Error = InvalidEthereumSignature | SignerHasNoClaim | SenderHasNoClaim | PotUnderflow
    | InvalidStatement | VestedBalanceExists | NoRewards | EnactmentBlockHasPassed

  // ---------- the vesting pallet ----------

  /** A schedule is refused without a step or beyond the limit of the account; one of nothing is ignored. */
  predicate Accepts(c: Config, existing: seq<Schedule>, v: Schedule) {
    v.locked > 0 && v.perBlock > 0 && |existing| < c.maxSchedules
  }

  function SchedulesOf(schedules: map<AccountId, seq<Schedule>>, who: AccountId): seq<Schedule> {
    if who in schedules then schedules[who] else []
  }

  function AddSchedule(c: Config, schedules: map<AccountId, seq<Schedule>>, who: AccountId, v: Schedule)
    : map<AccountId, seq<Schedule>>
  {
    if Accepts(c, SchedulesOf(schedules, who), v) then schedules[who := SchedulesOf(schedules, who) + [v]] else schedules
  }

  function AddSchedules(c: Config, schedules: map<AccountId, seq<Schedule>>, who: AccountId, vs: seq<Schedule>)
    : map<AccountId, seq<Schedule>>
    decreases |vs|
  {
    if vs == [] then schedules
    else
      var n := |vs| - 1;
      AddSchedule(c, AddSchedules(c, schedules, who, vs[..n]), who, vs[n])
  }

  // ---------- claiming ----------

  function Deposit(l: Ledger, who: AccountId, amount: nat): Ledger {
    l.DepositCreating(who, amount).DropPositive(l.Deposited(who, amount))
  }

  /** The reward handler: before the enactment block a claimed reward is filed under the claiming account. */
  function AddClaimed(c: Config, s: State, dest: AccountId, claim: nat, reward: nat): map<AccountId, UserInfo> {
    if s.block >= c.enactment then s.accounts
    else s.accounts[dest := UserInfo(claim, reward, Vesting6Month)]
  }

  function AccountsAfterClaim(c: Config, s: State, signer: EthereumAddress, dest: AccountId, due: nat)
    : map<AccountId, UserInfo>
  {
    if signer in s.rewards then AddClaimed(c, s, dest, due, s.rewards[signer]) else s.accounts
  }

  function SchedulesAfterClaim(c: Config, s: State, signer: EthereumAddress, dest: AccountId)
    : map<AccountId, seq<Schedule>>
  {
    if signer in s.vesting then AddSchedules(c, s.schedules, dest, s.vesting[signer]) else s.schedules
  }

  /** The state after a claim worth due has been paid to dest. */
  function Claimed(c: Config, s: State, signer: EthereumAddress, dest: AccountId, due: nat): State
    requires due <= s.total
  {
    State(
      Deposit(s.ledger, dest, due),
      s.claims - {signer}, s.total - due, s.vesting - {signer}, s.signing - {signer},
      s.preclaims, s.rewards - {signer},
      AccountsAfterClaim(c, s, signer, dest, due), s.approved,
      SchedulesAfterClaim(c, s, signer, dest), s.block)
  }

  function ProcessClaim(c: Config, s: State, signer: EthereumAddress, dest: AccountId): Result<State, Error> {
    if signer !in s.claims then Err(SignerHasNoClaim)
    else if s.total < s.claims[signer] then Err(PotUnderflow)
    else if signer in s.vesting && dest in s.schedules then Err(VestedBalanceExists)
    else Ok(Claimed(c, s, signer, dest, s.claims[signer]))
  }

  /** Who signed a claim to dest with a statement. */
  function Signer(c: Config, sig: Signature, dest: AccountId, statement: Bytes): Option<EthereumAddress> {
    c.recover(sig, Encoding.Message(c.prefix, Encoding.ToAsciiHex(c.encode(dest)), statement))
  }

  datatype Call =
    | Claim(dest: AccountId, signature: Signature)
    | ClaimAttest(dest: AccountId, signature: Signature, statement: Bytes)
    | Attest(who: AccountId, statement: Bytes)
    | MintClaim(address: EthereumAddress, value: nat, schedules: Option<seq<Schedule>>, kind: Option<StatementKind>)
    | MoveClaim(from: EthereumAddress, to: EthereumAddress, preclaim: Option<AccountId>)
    | SelectOption(who: AccountId, option: RewardOption)
    | Approve

  /** The statement an address still has to sign is the one it did sign. */
  predicate StatementOk(c: Config, s: State, signer: EthereumAddress, statement: Bytes) {
    signer in s.signing ==> c.text(s.signing[signer]) == statement
  }

  function WithPreclaims(s: State, preclaims: map<AccountId, EthereumAddress>): State {
    State(s.ledger, s.claims, s.total, s.vesting, s.signing, preclaims, s.rewards,
      s.accounts, s.approved, s.schedules, s.block)
  }

  function Minted(s: State, call: Call): State
    requires call.MintClaim?
  {
    State(s.ledger, s.claims[call.address := call.value], s.total + call.value,
      if call.schedules.Some? then s.vesting[call.address := call.schedules.value] else s.vesting,
      if call.kind.Some? then s.signing[call.address := call.kind.value] else s.signing,
      s.preclaims, s.rewards, s.accounts, s.approved, s.schedules, s.block)
  }

  /** Move the entry of one key to another; nothing happens without an entry. */
  function Rekey<K, V>(m: map<K, V>, from: K, to: K): map<K, V> {
    if from in m then (m - {from})[to := m[from]] else m
  }

  function Moved(s: State, call: Call): State
    requires call.MoveClaim?
  {
    State(s.ledger, Rekey(s.claims, call.from, call.to), s.total,
      Rekey(s.vesting, call.from, call.to), Rekey(s.signing, call.from, call.to),
      if call.preclaim.Some? && call.preclaim.value in s.preclaims && s.preclaims[call.preclaim.value] == call.from
      then s.preclaims[call.preclaim.value := call.to] else s.preclaims,
      s.rewards, s.accounts, s.approved, s.schedules, s.block)
  }

  function WithAccounts(s: State, accounts: map<AccountId, UserInfo>, approved: bool): State {
    State(s.ledger, s.claims, s.total, s.vesting, s.signing, s.preclaims, s.rewards,
      accounts, approved, s.schedules, s.block)
  }

  /** Dispatch a call whose origin has been checked. */
  function Dispatch(c: Config, s: State, call: Call): Result<State, Error> {
    match call
    case Claim(dest, signature) =>
      var signer := Signer(c, signature, dest, []);
      if signer.None? then Err(InvalidEthereumSignature)
      else if signer.value in s.signing then Err(InvalidStatement)
      else ProcessClaim(c, s, signer.value, dest)
    case ClaimAttest(dest, signature, statement) =>
      var signer := Signer(c, signature, dest, statement);
      if signer.None? then Err(InvalidEthereumSignature)
      else if !StatementOk(c, s, signer.value, statement) then Err(InvalidStatement)
      else ProcessClaim(c, s, signer.value, dest)
    case Attest(who, statement) =>
      if who !in s.preclaims then Err(SenderHasNoClaim)
      else if !StatementOk(c, s, s.preclaims[who], statement) then Err(InvalidStatement)
      else
        var r := ProcessClaim(c, s, s.preclaims[who], who);
        if r.Err? then r else Ok(WithPreclaims(r.value, r.value.preclaims - {who}))
    case MintClaim(_, _, _, _) => Ok(Minted(s, call))
    case MoveClaim(_, _, _) => Ok(Moved(s, call))
    case SelectOption(who, option) =>
      if who !in s.accounts then Err(NoRewards)
      else if s.block >= c.enactment then Err(EnactmentBlockHasPassed)
      else Ok(WithAccounts(s,
        s.accounts[who := UserInfo(s.accounts[who].principal, s.accounts[who].reward, option)], s.approved))
    case Approve =>
      if s.block >= c.enactment then Err(EnactmentBlockHasPassed) else Ok(WithAccounts(s, s.accounts, true))
  }

  // ---------- validation before dispatch ----------

  datatype Validity = Valid(signer: EthereumAddress) | Invalid(error: Error)

  /** The checks an unsigned transaction passes before it enters the pool. */
  function ValidateSigner(c: Config, s: State, signer: Option<EthereumAddress>, statement: Option<Bytes>): Validity {
    if signer.None? then Invalid(InvalidEthereumSignature)
    else if signer.value !in s.claims then Invalid(SignerHasNoClaim)
    else if signer.value in s.signing then
      if statement == Some(c.text(s.signing[signer.value])) then Valid(signer.value) else Invalid(InvalidStatement)
    else if statement.None? then Valid(signer.value)
    else Invalid(InvalidStatement)
  }

  function ValidateUnsigned(c: Config, s: State, call: Call): Validity
    requires call.Claim? || call.ClaimAttest?
  {
    if call.Claim? then ValidateSigner(c, s, Signer(c, call.signature, call.dest, []), None)
    else ValidateSigner(c, s, Signer(c, call.signature, call.dest, call.statement), Some(call.statement))
  }

  /** The checks of a signed attest call. */
  function PrevalidateAttest(c: Config, s: State, call: Call): Option<Error>
    requires call.Attest?
  {
    if call.who !in s.preclaims then Some(SignerHasNoClaim)
    else if !StatementOk(c, s, s.preclaims[call.who], call.statement) then Some(InvalidStatement)
    else None
  }
}
