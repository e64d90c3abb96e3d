/**
 The relayer bridge and the swap pallet as one state machine.

 Every storage write is an atomic action with a guard (Enabled) and an effect (Apply). A dispatch is
 described by the trace of actions it performs and by its result; proposals carry calls, so dispatch
 is recursive and a proposal may vote on, or execute, other proposals. With config.transactional a
 failing dispatch is rolled back, without it whatever was written stays.
 */
module Bridge {
  import opened Wrappers
  import opened Ledgers

  type ChainId = nat
  type Nonce = nat
  type ResourceId = Bytes

  datatype Status = Initiated | Approved | Rejected

  datatype Votes = Votes(votesFor: seq<AccountId>, votesAgainst: seq<AccountId>, status: Status, expiry: nat) {
    predicate IsComplete() { status != Initiated }

    predicate HasVoted(who: AccountId) { who in votesFor || who in votesAgainst }

    predicate IsExpired(now: nat) { expiry <= now }

    predicate Open(now: nat) { !IsComplete() && !IsExpired(now) }

    /** What the votes decide under the given threshold and relayer count. */
    function Decide(threshold: nat, total: nat): Status {
      if |votesFor| >= threshold then Approved
      else if total >= threshold && |votesAgainst| + threshold > total then Rejected
      else Initiated
    }

    function Push(who: AccountId, inFavour: bool): Votes {
      if inFavour then Votes(votesFor + [who], votesAgainst, status, expiry)
      else Votes(votesFor, votesAgainst + [who], status, expiry)
    }

    function Completed(outcome: Status): Votes {
      Votes(votesFor, votesAgainst, outcome, expiry)
    }

    /** The voters on one side. */
    function Side(inFavour: bool): seq<AccountId> {
      if inFavour then votesFor else votesAgainst
    }
  }

  datatype Payload =
    | Fungible(amount: nat, recipient: Bytes)
    | NonFungible(token: Bytes, recipient: Bytes, metadata: Bytes)
    | Generic(metadata: Bytes)

  /**
   Runtime calls that touch the bridge or the swap pallet. Foreign stands for any other call: it may leave
   the accounts and issuance of a given ledger behind, whether it succeeds or not.
   */
  datatype Call =
    | Transfer(to: AccountId, amount: nat)
    | TransferNative(amount: nat, recipient: Bytes, dest: ChainId)
    | SetSwapFee(fee: nat)
    | SetFeeDestination(destination: AccountId)
    | SetThreshold(threshold: nat)
    | SetResource(id: ResourceId, handler: Bytes)
    | RemoveResource(id: ResourceId)
    | WhitelistChain(chain: ChainId)
    | AddRelayer(relayer: AccountId)
    | RemoveRelayer(relayer: AccountId)
    | Acknowledge(nonce: Nonce, src: ChainId, resource: ResourceId, call: Call)
    | Reject(nonce: Nonce, src: ChainId, resource: ResourceId, call: Call)
    | EvalVoteState(nonce: Nonce, src: ChainId, call: Call)
    | Foreign(succeeds: bool, effect: Option<Ledger>)

  datatype Key = Key(src: ChainId, nonce: Nonce, call: Call)

  /** Root, the admin collective, or a signed account. */
  datatype Origin = Root | Collective | Signed(who: AccountId)

  datatype Error =
    | BadOrigin | InvalidThreshold | InvalidChainId | ChainAlreadyWhitelisted | ChainNotWhitelisted
    | ResourceDoesNotExist | RelayerAlreadyExists | RelayerInvalid | MustBeRelayer | RelayerAlreadyVoted
    | ProposalDoesNotExist | ProposalAlreadyComplete | ProposalExpired
    | DestinationNotWhitelisted | InsufficientBalance | Currency(error: CurrencyError) | ForeignFailure

  datatype Config = Config(
    ownChain: ChainId,
    lifetime: nat,
    nativeToken: ResourceId,
    bridge: AccountId,
    admins: set<AccountId>,
    transactional: bool)

  datatype Action =
    | Whitelisted(chain: ChainId)
    | ThresholdChanged(threshold: nat)
    | ResourceSet(id: ResourceId, handler: Bytes)
    | ResourceRemoved(id: ResourceId)
    | RelayerAdded(relayer: AccountId)
    | RelayerRemoved(relayer: AccountId)
    | Voted(key: Key, who: AccountId, inFavour: bool)
    | ProposalApproved(key: Key)
    | ProposalRejected(key: Key)
    | ProposalSucceeded(key: Key)
    | Sent(dest: ChainId, nonce: Nonce, resource: ResourceId, payload: Payload)
    | Moved(from: AccountId, to: AccountId, amount: nat, dust: nat)
    | FeeChanged(fee: nat)
    | FeeDestinationChanged(destination: AccountId)
    | BlockReached(block: nat)
    | Outside(ledger: Ledger, gain: int, net: int)

  datatype State = State(
    nonces: map<ChainId, Nonce>,
    threshold: nat,
    relayers: set<AccountId>,
    relayerCount: nat,
    votes: map<Key, Votes>,
    resources: map<ResourceId, Bytes>,
    swapFee: nat,
    feeDestination: Option<AccountId>,
    ledger: Ledger,
    now: nat,
    log: seq<Action>)

  predicate IsAdmin(c: Config, o: Origin) {
    o.Root? || o.Collective? || o.who in c.admins
  }

  /** The stored record of a proposal, or the one its first vote would create. */
  function Record(c: Config, s: State, key: Key): Votes {
    if key in s.votes then s.votes[key] else Votes([], [], Initiated, s.now + c.lifetime)
  }

  // ---------- atomic actions ----------

  predicate Enabled(c: Config, s: State, a: Action) {
    match a
    case Whitelisted(chain) => chain != c.ownChain && chain !in s.nonces
    case ThresholdChanged(threshold) => threshold > 0
    case ResourceSet(_, _) => true
    case ResourceRemoved(_) => true
    case RelayerAdded(relayer) => relayer !in s.relayers
    case RelayerRemoved(relayer) => relayer in s.relayers
    case Voted(key, who, _) =>
      && who in s.relayers
      && Record(c, s, key).Open(s.now)
      && !Record(c, s, key).HasVoted(who)
    case ProposalApproved(key) =>
      && key in s.votes
      && s.votes[key].Open(s.now)
      && s.votes[key].Decide(s.threshold, s.relayerCount) == Approved
    case ProposalRejected(key) =>
      && key in s.votes
      && s.votes[key].Open(s.now)
      && s.votes[key].Decide(s.threshold, s.relayerCount) == Rejected
    case ProposalSucceeded(key) =>
      key in s.votes && s.votes[key].status == Approved && a !in s.log
    case Sent(dest, nonce, _, _) => dest in s.nonces && nonce == s.nonces[dest] + 1
    case Moved(from, to, amount, dust) =>
      s.ledger.Transfer(from, to, amount).Ok? && dust == s.ledger.Dust(from, to, amount)
    case FeeChanged(_) => true
    case FeeDestinationChanged(_) => true
    case BlockReached(block) => s.now <= block
    case Outside(l, gain, net) =>
      && l.ed == s.ledger.ed
      && gain == l.Total(c.bridge) - s.ledger.Total(c.bridge)
      && net == l.issuance - s.ledger.issuance
  }

  function NoncesAfter(s: State, a: Action): map<ChainId, Nonce> {
    match a
    case Whitelisted(chain) => s.nonces[chain := 0]
    case Sent(dest, nonce, _, _) => s.nonces[dest := nonce]
    case _ => s.nonces
  }

  function RelayersAfter(s: State, a: Action): set<AccountId> {
    match a
    case RelayerAdded(relayer) => s.relayers + {relayer}
    case RelayerRemoved(relayer) => s.relayers - {relayer}
    case _ => s.relayers
  }

  function RelayerCountAfter(s: State, a: Action): nat {
    match a
    case RelayerAdded(_) => s.relayerCount + 1
    case RelayerRemoved(_) => if s.relayerCount == 0 then 0 else s.relayerCount - 1
    case _ => s.relayerCount
  }

  function VotesAfter(c: Config, s: State, a: Action): map<Key, Votes> {
    match a
    case Voted(key, who, inFavour) => s.votes[key := Record(c, s, key).Push(who, inFavour)]
    case ProposalApproved(key) => s.votes[key := Record(c, s, key).Completed(Approved)]
    case ProposalRejected(key) => s.votes[key := Record(c, s, key).Completed(Rejected)]
    case _ => s.votes
  }

  function ResourcesAfter(s: State, a: Action): map<ResourceId, Bytes> {
    match a
    case ResourceSet(id, handler) => s.resources[id := handler]
    case ResourceRemoved(id) => s.resources - {id}
    case _ => s.resources
  }

  function LedgerAfter(s: State, a: Action): Ledger {
    match a
    case Moved(from, to, amount, _) =>
      var r := s.ledger.Transfer(from, to, amount);
      if r.Ok? then r.value else s.ledger
    case Outside(l, _, _) => l
    case _ => s.ledger
  }

  function Apply(c: Config, s: State, a: Action): State {
    State(
      NoncesAfter(s, a),
      if a.ThresholdChanged? then a.threshold else s.threshold,
      RelayersAfter(s, a),
      RelayerCountAfter(s, a),
      VotesAfter(c, s, a),
      ResourcesAfter(s, a),
      if a.FeeChanged? then a.fee else s.swapFee,
      if a.FeeDestinationChanged? then Some(a.destination) else s.feeDestination,
      LedgerAfter(s, a),
      if a.BlockReached? then a.block else s.now,
      s.log + [a])
  }

  function Replay(c: Config, s: State, trace: seq<Action>): State
    decreases |trace|
  {
    if trace == [] then s else Replay(c, Apply(c, s, trace[0]), trace[1..])
  }

  predicate Legal(c: Config, s: State, trace: seq<Action>)
    decreases |trace|
  {
    trace == [] || (Enabled(c, s, trace[0]) && Legal(c, Apply(c, s, trace[0]), trace[1..]))
  }

  // ---------- dispatch ----------

  datatype Effect = Effect(trace: seq<Action>, result: Result<Done, Error>) {
    /** The same result after some earlier actions. */
    function After(earlier: seq<Action>): Effect { Effect(earlier + trace, result) }
  }

  function Fails(e: Error): Effect { Effect([], Err(e)) }

  function Acts(a: Action): Effect { Effect([a], Ok(Done)) }

  function Guarded(ok: bool, e: Error, a: Action): Effect {
    if ok then Acts(a) else Fails(e)
  }

  /** Dispatch a call; a failing call leaves nothing behind when dispatches are transactional. */
  function Dispatch(c: Config, s: State, o: Origin, call: Call): Effect
    decreases call, 4
  {
    var r := Execute(c, s, o, call);
    if r.result.Err? && c.transactional then Effect([], r.result) else r
  }

  function Execute(c: Config, s: State, o: Origin, call: Call): Effect
    decreases call, 3
  {
    match call
    case Transfer(to, amount) =>
      if o != Signed(c.bridge) then Fails(BadOrigin) else Move(s, c.bridge, to, amount)
    case TransferNative(amount, recipient, dest) =>
      if !o.Signed? then Fails(BadOrigin) else SwapOut(c, s, o.who, amount, recipient, dest)
    case SetSwapFee(fee) => Guarded(IsAdmin(c, o), BadOrigin, FeeChanged(fee))
    case SetFeeDestination(destination) => Guarded(IsAdmin(c, o), BadOrigin, FeeDestinationChanged(destination))
    case SetThreshold(threshold) =>
      if !IsAdmin(c, o) then Fails(BadOrigin)
      else Guarded(threshold > 0, InvalidThreshold, ThresholdChanged(threshold))
    case SetResource(id, handler) => Guarded(IsAdmin(c, o), BadOrigin, ResourceSet(id, handler))
    case RemoveResource(id) => Guarded(IsAdmin(c, o), BadOrigin, ResourceRemoved(id))
    case WhitelistChain(chain) => if !IsAdmin(c, o) then Fails(BadOrigin) else Whitelist(c, s, chain)
    case AddRelayer(relayer) => if !IsAdmin(c, o) then Fails(BadOrigin) else Register(s, relayer)
    case RemoveRelayer(relayer) =>
      if !IsAdmin(c, o) then Fails(BadOrigin)
      else Guarded(relayer in s.relayers, RelayerInvalid, RelayerRemoved(relayer))
    case Acknowledge(nonce, src, resource, inner) => Ballot(c, s, o, resource, Key(src, nonce, inner), true)
    case Reject(nonce, src, resource, inner) => Ballot(c, s, o, resource, Key(src, nonce, inner), false)
    case EvalVoteState(nonce, src, inner) =>
      if !o.Signed? then Fails(BadOrigin) else Resolve(c, s, Key(src, nonce, inner))
    case Foreign(succeeds, effect) =>
      Effect(if effect.Some? then [OutsideChange(c, s, effect.value)] else [],
        if succeeds then Ok(Done) else Err(ForeignFailure))
  }

  /** Somebody else leaves other balances behind; the action says what the bridge account and issuance gain by it. */
  function OutsideChange(c: Config, s: State, l: Ledger): Action {
    var l' := Ledger(s.ledger.ed, l.accounts, l.issuance);
    Outside(l', l'.Total(c.bridge) - s.ledger.Total(c.bridge), l'.issuance - s.ledger.issuance)
  }

  function Whitelist(c: Config, s: State, chain: ChainId): Effect {
    if chain == c.ownChain then Fails(InvalidChainId)
    else Guarded(chain !in s.nonces, ChainAlreadyWhitelisted, Whitelisted(chain))
  }

  function Register(s: State, relayer: AccountId): Effect {
    Guarded(relayer !in s.relayers, RelayerAlreadyExists, RelayerAdded(relayer))
  }

  /** A balance transfer that lets the source account die. */
  function Move(s: State, from: AccountId, to: AccountId, amount: nat): Effect {
    var r := s.ledger.Transfer(from, to, amount);
    if r.Ok? then Acts(Moved(from, to, amount, s.ledger.Dust(from, to, amount))) else Fails(Currency(r.error))
  }

  function PayFee(s: State, source: AccountId): Effect {
    match s.feeDestination
    case Some(destination) => Move(s, source, destination, s.swapFee)
    case None => Effect([], Ok(Done))
  }

  /** The fee goes first, then the amount, both from the same source. */
  function Collect(c: Config, s: State, source: AccountId, amount: nat): Effect {
    var fee := PayFee(s, source);
    if fee.result.Err? then fee
    else Move(Replay(c, s, fee.trace), source, c.bridge, amount).After(fee.trace)
  }

  function SwapOut(c: Config, s: State, source: AccountId, amount: nat, recipient: Bytes, dest: ChainId): Effect {
    if dest !in s.nonces then Fails(DestinationNotWhitelisted)
    else if s.ledger.Free(source) < amount + s.swapFee then Fails(Error.InsufficientBalance)
    else
      var paid := Collect(c, s, source, amount);
      if paid.result.Err? then paid
      else Acts(Sent(dest, s.nonces[dest] + 1, c.nativeToken, Fungible(amount, recipient))).After(paid.trace)
  }

  /** The three bridge transfers other pallets may start. */
  function Send(s: State, dest: ChainId, resource: ResourceId, payload: Payload): Effect {
    if dest !in s.nonces then Fails(ChainNotWhitelisted)
    else Acts(Sent(dest, s.nonces[dest] + 1, resource, payload))
  }

  function Ballot(c: Config, s: State, o: Origin, resource: ResourceId, key: Key, inFavour: bool): Effect
    decreases key.call, 8
  {
    if !o.Signed? then Fails(BadOrigin)
    else if o.who !in s.relayers then Fails(MustBeRelayer)
    else if key.src !in s.nonces then Fails(ChainNotWhitelisted)
    else if resource !in s.resources then Fails(ResourceDoesNotExist)
    else
      var v := Record(c, s, key);
      if v.IsComplete() then Fails(ProposalAlreadyComplete)
      else if v.IsExpired(s.now) then Fails(ProposalExpired)
      else if v.HasVoted(o.who) then Fails(RelayerAlreadyVoted)
      else
        var vote := Voted(key, o.who, inFavour);
        Resolve(c, Apply(c, s, vote), key).After([vote])
  }

  function Resolve(c: Config, s: State, key: Key): Effect
    decreases key.call, 7
  {
    if key !in s.votes then Fails(ProposalDoesNotExist)
    else
      var v := s.votes[key];
      if v.IsComplete() then Fails(ProposalAlreadyComplete)
      else if v.IsExpired(s.now) then Fails(ProposalExpired)
      else match v.Decide(s.threshold, s.relayerCount)
        case Approved => Finalize(c, s, key)
        case Rejected => Acts(ProposalRejected(key))
        case Initiated => Effect([], Ok(Done))
  }

  function Finalize(c: Config, s: State, key: Key): Effect
    decreases key.call, 6
  {
    var approval := ProposalApproved(key);
    var r := Dispatch(c, Apply(c, s, approval), Signed(c.bridge), key.call);
    if r.result.Err? then r.After([approval])
    else Effect([approval] + r.trace + [ProposalSucceeded(key)], Ok(Done))
  }

  // ---------- runs ----------

  /**
   What can happen at the top level: an extrinsic, a transfer started by another pallet, a new block, or
   anything other pallets do to balances.
   */
  datatype Step =
    | Extrinsic(origin: Origin, call: Call)
    | PalletTransfer(dest: ChainId, resource: ResourceId, payload: Payload)
    | NewBlock(block: nat)
    | External(ledger: Ledger)

  function StepEffect(c: Config, s: State, step: Step): Effect {
    match step
    case Extrinsic(o, call) => Dispatch(c, s, o, call)
    case PalletTransfer(dest, resource, payload) => Send(s, dest, resource, payload)
    case NewBlock(block) => if s.now <= block then Acts(BlockReached(block)) else Effect([], Ok(Done))
    case External(l) => Acts(OutsideChange(c, s, l))
  }

  function Next(c: Config, s: State, step: Step): State {
    Replay(c, s, StepEffect(c, s, step).trace)
  }

  function Run(c: Config, s: State, steps: seq<Step>): State
    decreases |steps|
  {
    if steps == [] then s else Run(c, Next(c, s, steps[0]), steps[1..])
  }

  // ---------- genesis ----------

  /** Storage before the bridge is configured; the default threshold is one. */
  function Genesis(l: Ledger, fee: nat, destination: Option<AccountId>): State {
    State(map[], 1, {}, 0, map[], map[], fee, destination, l, 0, [])
  }

  /** The configuration written at genesis, in order. */
  function Setup(chains: seq<ChainId>, members: seq<AccountId>, handlers: seq<(ResourceId, Bytes)>, threshold: nat)
    : seq<Action>
  {
    seq(|chains|, i requires 0 <= i < |chains| => Whitelisted(chains[i]))
    + seq(|members|, i requires 0 <= i < |members| => RelayerAdded(members[i]))
    + seq(|handlers|, i requires 0 <= i < |handlers| => ResourceSet(handlers[i].0, handlers[i].1))
    + [ThresholdChanged(threshold)]
  }
}
