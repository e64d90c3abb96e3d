/**
 Team custody: every member's allocation is split into a custody and a reserve account and paid out in
 chunks until the custody period is over, when whatever is left is paid at once.

 A step is a payout, a member replacement, a new block, or anything that other pallets do to balances,
 locks, reserves and proxies. A payout that fails leaves the state as it was.
 */
module Custody {
  import opened Wrappers
  import opened Ledgers
  import opened Perbills

  type Pos = n: nat | n > 0 witness 1

  datatype Config = Config(frequency: Pos, duration: nat)

  datatype Info = Info(allocation: nat, vested: nat, custody: AccountId, reserve: AccountId) {
    function Vest(amount: nat): Info { Info(allocation, vested + amount, custody, reserve) }
  }

  datatype Error = PayoutNotAvailable | PayoutFailedInsufficientFunds | InvalidTeamMember | TeamMemberExists
    | StakingRefused | Currency(error: CurrencyError)

  /** A payout event names the account it came from, and what that account lost as dust. */
  datatype Event = Paid(from: AccountId, to: AccountId, amount: nat, dust: nat) | CustodyDone(who: AccountId)

  datatype State = State(
    ledger: Ledger,
    team: map<AccountId, Info>,
    custodyAccounts: set<AccountId>,
    total: nat,
    block: nat,
    proxies: map<AccountId, nat>,
    events: seq<Event>)

  // ---------- genesis ----------

  /** The reserve is 5.5555556% of an allocation; the rest goes into custody. */
  const RESERVE_RATIO: Perbill := FromRational(55_555_556, 1_000_000_000)

  function Deposit(l: Ledger, who: AccountId, amount: nat): Ledger {
    l.DepositCreating(who, amount).DropPositive(l.Deposited(who, amount))
  }

  function ReservePart(amount: nat): nat { Of(RESERVE_RATIO, amount) }

  function CustodyPart(amount: nat): nat { SatSub(amount, ReservePart(amount)) }

  function InitializeCustody(s: State, who: AccountId, amount: nat): State {
    var custody, reserve := Pure(who, 0), Pure(who, 1);
    State(
      Deposit(Deposit(s.ledger, custody, CustodyPart(amount)), reserve, ReservePart(amount)),
      s.team[who := Info(amount, 0, custody, reserve)],
      s.custodyAccounts + {custody},
      s.total + CustodyPart(amount) + ReservePart(amount),
      s.block, s.proxies, s.events)
  }

  function Genesis(l: Ledger): State {
    State(l, map[], {}, 0, 0, map[], [])
  }

  function InitializeAll(s: State, allocations: seq<(AccountId, nat)>): State
    decreases |allocations|
  {
    if allocations == [] then s
    else
      var n := |allocations| - 1;
      InitializeCustody(InitializeAll(s, allocations[..n]), allocations[n].0, allocations[n].1)
  }

  // ---------- payouts ----------

  predicate IsDone(c: Config, block: nat) { block > c.duration }

  /** One chunk: the payout frequency as a fraction of the custody duration. */
  function ChunkOf(c: Config, allocation: nat): nat {
    Of(FromRational(c.frequency, c.duration), allocation)
  }

  /** What a member may have received by a block. */
  function Entitled(c: Config, block: nat, allocation: nat): nat {
    ChunkOf(c, allocation) * (block / c.frequency)
  }

  /** What can be withdrawn from the custody and the reserve account. */
  function Funds(l: Ledger, info: Info, keepAlive: bool): (nat, nat) {
    (l.Get(info.custody).Reducible(l.ed, keepAlive), l.Get(info.reserve).Reducible(l.ed, keepAlive))
  }

  function Min(a: nat, b: nat): nat { if a <= b then a else b }

  /** Before the end the custody account pays first; at the end both accounts pay everything they can. */
  function Split(amount: nat, custody: nat, reserve: nat, keepAlive: bool): (nat, nat) {
    if keepAlive then (Min(amount, custody), Min(SatSub(amount, custody), reserve)) else (custody, reserve)
  }

  function Withdrawals(l: Ledger, info: Info, amount: nat, keepAlive: bool): (nat, nat) {
    var (custody, reserve) := Funds(l, info, keepAlive);
    Split(amount, custody, reserve, keepAlive)
  }

  /** What TotalCustody is reduced by; info already includes the withdrawal. */
  function CustodyDeduct(info: Info, withdraw: nat, keepAlive: bool): nat {
    if keepAlive then withdraw
    else if info.allocation < info.vested then SatSub(withdraw, info.vested - info.allocation)
    else if info.allocation > info.vested then withdraw + (info.allocation - info.vested)
    else withdraw
  }

  /** Transfer a withdrawal, if there is one, and record it. */
  function Pay(s: State, from: AccountId, to: AccountId, amount: nat): Result<State, Error> {
    if amount == 0 then Ok(s)
    else
      var r := s.ledger.Transfer(from, to, amount);
      if r.Err? then Err(Currency(r.error))
      else
        var event := Paid(from, to, amount, s.ledger.Dust(from, to, amount));
        Ok(State(r.value, s.team, s.custodyAccounts, s.total, s.block, s.proxies, s.events + [event]))
  }

  function PayBoth(s: State, info: Info, to: AccountId, fromCustody: nat, fromReserve: nat): Result<State, Error> {
    var r := Pay(s, info.custody, to, fromCustody);
    if r.Err? then r else Pay(r.value, info.reserve, to, fromReserve)
  }

  /** The bookkeeping after the transfers. */
  function Settle(s: State, who: AccountId, info: Info, withdraw: nat, keepAlive: bool): State {
    var vested := info.Vest(withdraw);
    var total := SatSub(s.total, CustodyDeduct(vested, withdraw, keepAlive));
    if keepAlive then
      State(s.ledger, s.team[who := vested], s.custodyAccounts, total, s.block, s.proxies, s.events)
    else
      State(s.ledger, s.team - {who}, s.custodyAccounts - {info.custody}, total, s.block, s.proxies, s.events)
  }

  /** Pay the given amounts and close the books; before the end paying nothing is an error. */
  function Disburse(s: State, who: AccountId, info: Info, fromCustody: nat, fromReserve: nat, keepAlive: bool)
    : Result<State, Error>
  {
    var paid := PayBoth(s, info, who, fromCustody, fromReserve);
    if paid.Err? then paid
    else if keepAlive && fromCustody + fromReserve == 0 then Err(PayoutFailedInsufficientFunds)
    else Ok(Settle(paid.value, who, info, fromCustody + fromReserve, keepAlive))
  }

  function DoPayout(s: State, who: AccountId, amount: nat, info: Info, keepAlive: bool): Result<State, Error> {
    var (fromCustody, fromReserve) := Withdrawals(s.ledger, info, amount, keepAlive);
    Disburse(s, who, info, fromCustody, fromReserve, keepAlive)
  }

  /** What the staking pallet makes of a forced unstake: there is nothing to do, it refuses, or it unlocks. */
  datatype Unstaking = NotBonded | Refused | Released(frozen: nat)

  function Unstake(s: State, custody: AccountId, u: Unstaking): State {
    if !u.Released? then s
    else
      State(s.ledger.Put(custody, s.ledger.Get(custody).Refrozen(u.frozen)),
        s.team, s.custodyAccounts, s.total, s.block, s.proxies, s.events)
  }

  function ProxyDeposit(s: State, custody: AccountId): nat {
    if custody in s.proxies then s.proxies[custody] else 0
  }

  /** Take the proxies of an account and hand their deposit back from the reserved to the free balance. */
  function RemoveProxies(s: State, custody: AccountId): State {
    State(s.ledger.Unreserve(custody, ProxyDeposit(s, custody)),
      s.team, s.custodyAccounts, s.total, s.block, s.proxies - {custody}, s.events)
  }

  function Release(s: State, custody: AccountId, u: Unstaking): State {
    RemoveProxies(Unstake(s, custody, u), custody)
  }

  function WithEvent(s: State, e: Event): State {
    State(s.ledger, s.team, s.custodyAccounts, s.total, s.block, s.proxies, s.events + [e])
  }

  /** After the custody period: unstake, drop the proxies, and pay whatever is left. */
  function FinalPayout(s: State, who: AccountId, info: Info, u: Unstaking): Result<State, Error> {
    if u.Refused? then Err(StakingRefused)
    else
      var r := DoPayout(Release(s, info.custody, u), who, 0, info, false);
      if r.Err? then r else Ok(WithEvent(r.value, CustodyDone(who)))
  }

  /** What a payout before the end asks for. */
  function Requested(c: Config, block: nat, info: Info): nat {
    SatSub(Entitled(c, block, info.allocation), info.vested)
  }

  function PartialPayout(c: Config, s: State, who: AccountId, info: Info): Result<State, Error> {
    var amount := Requested(c, s.block, info);
    if amount == 0 then Err(PayoutNotAvailable) else DoPayout(s, who, amount, info, true)
  }

  function Payout(c: Config, s: State, who: AccountId, u: Unstaking): Result<State, Error> {
    if who !in s.team then Err(InvalidTeamMember)
    else if IsDone(c, s.block) then FinalPayout(s, who, s.team[who], u)
    else PartialPayout(c, s, who, s.team[who])
  }

  function Replace(s: State, who: AccountId, successor: AccountId): Result<State, Error> {
    if who !in s.team then Err(InvalidTeamMember)
    else if successor in s.team then Err(TeamMemberExists)
    else Ok(State(s.ledger, (s.team - {who})[successor := s.team[who]],
      s.custodyAccounts, s.total, s.block, s.proxies, s.events))
  }

  // ---------- runs ----------

  datatype Step =
    | TakePayout(who: AccountId, unstaking: Unstaking)
    | ReplaceMember(who: AccountId, successor: AccountId)
    | External(ledger: Ledger, proxies: map<AccountId, nat>)
    | NewBlock(block: nat)

  function OrSame(r: Result<State, Error>, s: State): State {
    if r.Ok? then r.value else s
  }

  function Next(c: Config, s: State, step: Step): State {
    match step
    case TakePayout(who, u) => OrSame(Payout(c, s, who, u), s)
    case ReplaceMember(who, successor) => OrSame(Replace(s, who, successor), s)
    case External(l, proxies) =>
      State(Ledger(s.ledger.ed, l.accounts, l.issuance),
        s.team, s.custodyAccounts, s.total, s.block, proxies, s.events)
    case NewBlock(block) =>
      State(s.ledger, s.team, s.custodyAccounts, s.total, if s.block <= block then block else s.block,
        s.proxies, s.events)
  }

  function Run(c: Config, s: State, steps: seq<Step>): State
    decreases |steps|
  {
    if steps == [] then s else Run(c, Next(c, s, steps[0]), steps[1..])
  }
}
