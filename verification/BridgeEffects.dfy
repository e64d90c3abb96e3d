/**
 What the calls of the bridge and the swap pallet mean for those who make them: who pays and who receives in a
 native transfer and in an executed proposal, which votes count and why others are refused, and what the
 administrative calls set.
 */
module BridgeEffects {
  import opened Wrappers
  import opened Ledgers
  import opened Bridge
  import opened BridgeTraces
  import opened BridgeSafety

  // ---------- native transfers ----------

  /** What leaving the given amount out of an account burns, if that leaves too little to live on. */
  function Burnt(l: Ledger, who: AccountId, out: nat): nat {
    if 0 < out <= l.Total(who) && l.Total(who) - out < l.ed then l.Total(who) - out else 0
  }

  /** The fee that leaves the source: none without a destination, or when the source is the destination. */
  function FeeOut(s: State, source: AccountId): nat {
    if s.feeDestination.Some? && s.feeDestination.value != source then s.swapFee else 0
  }

  /** l' is l after a fee has gone from a source to a destination and an amount to the bridge. */
  predicate PaidOut(
      l: Ledger, l': Ledger, source: AccountId, destination: Option<AccountId>, fee: nat,
      bridge: AccountId, amount: nat, x: AccountId)
  {
    var out := if source == bridge then 0 else amount;
    l'.Total(x) == l.Total(x)
      + (if destination == Some(x) then fee else 0)
      + (if x == bridge then out else 0)
      - (if x == source then fee + out + Burnt(l, source, fee + out) else 0)
  }

  lemma {:induction false} FirstPaid(l: Ledger, source: AccountId, destination: AccountId, fee: nat, x: AccountId)
    requires l.Transfer(source, destination, fee).Ok?
    ensures var l', out := l.Transfer(source, destination, fee).value, if source == destination then 0 else fee;
      && l'.ed == l.ed
      && l'.Total(x) == l.Total(x) + (if x == destination then out else 0)
           - (if x == source then out + Burnt(l, source, out) else 0)
      && out <= l.Total(source)
  {
    TransferMoves(l, source, destination, fee, x);
  }

  /** Two transfers in a row: if the first kills the source, nothing is left for the second. */
  lemma {:induction false} BothPaid(
      l: Ledger, l1: Ledger, l2: Ledger, source: AccountId, destination: AccountId, fee: nat,
      bridge: AccountId, amount: nat, x: AccountId)
    requires l.Transfer(source, destination, fee) == Ok(l1) && l1.Transfer(source, bridge, amount) == Ok(l2)
    ensures PaidOut(l, l2, source, Some(destination), if source == destination then 0 else fee, bridge, amount, x)
  {
    FirstPaid(l, source, destination, fee, x);
    FirstPaid(l, source, destination, fee, source);
    FirstPaid(l1, source, bridge, amount, x);
    FirstPaid(l1, source, bridge, amount, source);
  }

  lemma {:induction false} OnePaid(l: Ledger, l2: Ledger, source: AccountId, bridge: AccountId, amount: nat, x: AccountId)
    requires l.Transfer(source, bridge, amount) == Ok(l2)
    ensures PaidOut(l, l2, source, None, 0, bridge, amount, x)
  {
    FirstPaid(l, source, bridge, amount, x);
  }

  /** The ledger a collection leaves, transfer by transfer. */
  lemma {:induction false} CollectLedger(c: Config, s: State, source: AccountId, amount: nat)
    requires Collect(c, s, source, amount).result.Ok?
    ensures var s' := Replay(c, s, Collect(c, s, source, amount).trace);
      && s'.nonces == s.nonces
      && match s.feeDestination
         case None => s.ledger.Transfer(source, c.bridge, amount) == Ok(s'.ledger)
         case Some(destination) =>
           var first := s.ledger.Transfer(source, destination, s.swapFee);
           first.Ok? && first.value.Transfer(source, c.bridge, amount) == Ok(s'.ledger)
  {
    var fee := PayFee(s, source);
    var s1 := Replay(c, s, fee.trace);
    CollectSound(c, s, source, amount);
    MoveLedger(c, s1, source, c.bridge, amount);
    var second := Move(s1, source, c.bridge, amount);
    ReplayConcat(c, s, fee.trace, second.trace);
    if s.feeDestination.Some? {
      MoveLedger(c, s, source, s.feeDestination.value, s.swapFee);
    }
  }

  lemma {:induction false} MoveLedger(c: Config, s: State, from: AccountId, to: AccountId, amount: nat)
    ensures var r := Move(s, from, to, amount);
      && (r.result.Ok? <==> s.ledger.Transfer(from, to, amount).Ok?)
      && (r.result.Ok? ==>
            && s.ledger.Transfer(from, to, amount) == Ok(Replay(c, s, r.trace).ledger)
            && Replay(c, s, r.trace).swapFee == s.swapFee)
  {
    if s.ledger.Transfer(from, to, amount).Ok? {
      ReplayOne(c, s, Moved(from, to, amount, s.ledger.Dust(from, to, amount)));
    }
  }

  /**
   A native transfer that succeeds: the fee destination gets exactly the fee, the bridge account exactly the
   amount, the source pays both and loses at most the dust that is left of it, and nobody else is touched;
   the transfer is logged last, with the amount, the recipient and the next nonce of the chain.
   */
  lemma {:induction false} NativeTransfer(
      c: Config, s: State, source: AccountId, amount: nat, recipient: Bytes, dest: ChainId, x: AccountId)
    requires Execute(c, s, Signed(source), TransferNative(amount, recipient, dest)).result.Ok?
    ensures var s' := Replay(c, s, Execute(c, s, Signed(source), TransferNative(amount, recipient, dest)).trace);
      && PaidOut(s.ledger, s'.ledger, source, s.feeDestination, FeeOut(s, source), c.bridge, amount, x)
      && dest in s.nonces && s'.nonces == s.nonces[dest := s.nonces[dest] + 1]
      && |s'.log| > 0
      && s'.log[|s'.log| - 1] == Sent(dest, s.nonces[dest] + 1, c.nativeToken, Fungible(amount, recipient))
  {
    NativeParts(c, s, source, amount, recipient, dest);
    CollectPaid(c, s, source, amount, x);
  }

  /** A native transfer is the collection, then the entry in the log. */
  lemma {:induction false} NativeParts(
      c: Config, s: State, source: AccountId, amount: nat, recipient: Bytes, dest: ChainId)
    requires Execute(c, s, Signed(source), TransferNative(amount, recipient, dest)).result.Ok?
    ensures var s' := Replay(c, s, Execute(c, s, Signed(source), TransferNative(amount, recipient, dest)).trace);
      var paid := Collect(c, s, source, amount);
      && paid.result.Ok? && s'.ledger == Replay(c, s, paid.trace).ledger
      && dest in s.nonces && s'.nonces == s.nonces[dest := s.nonces[dest] + 1]
      && |s'.log| > 0
      && s'.log[|s'.log| - 1] == Sent(dest, s.nonces[dest] + 1, c.nativeToken, Fungible(amount, recipient))
  {
    var s1 := Replay(c, s, Collect(c, s, source, amount).trace);
    CollectLedger(c, s, source, amount);
    SwapOutParts(c, s, source, amount, recipient, dest);
    ReplayOne(c, s1, Sent(dest, s.nonces[dest] + 1, c.nativeToken, Fungible(amount, recipient)));
  }

  lemma {:induction false} CollectPaid(c: Config, s: State, source: AccountId, amount: nat, x: AccountId)
    requires Collect(c, s, source, amount).result.Ok?
    ensures PaidOut(s.ledger, Replay(c, s, Collect(c, s, source, amount).trace).ledger,
      source, s.feeDestination, FeeOut(s, source), c.bridge, amount, x)
  {
    var l' := Replay(c, s, Collect(c, s, source, amount).trace).ledger;
    CollectLedger(c, s, source, amount);
    match s.feeDestination
    case None => OnePaid(s.ledger, l', source, c.bridge, amount, x);
    case Some(destination) =>
      var first := s.ledger.Transfer(source, destination, s.swapFee).value;
      BothPaid(s.ledger, first, l', source, destination, s.swapFee, c.bridge, amount, x);
  }

  /** Why a native transfer is refused before any money moves. */
  lemma {:induction false} NativeTransferRefused(
      c: Config, s: State, o: Origin, amount: nat, recipient: Bytes, dest: ChainId)
    ensures var r := Execute(c, s, o, TransferNative(amount, recipient, dest));
      && (r == Effect([], Err(BadOrigin)) <==> !o.Signed?)
      && (r == Effect([], Err(DestinationNotWhitelisted)) <==> o.Signed? && dest !in s.nonces)
      && (r == Effect([], Err(Error.InsufficientBalance)) <==>
            o.Signed? && dest in s.nonces && s.ledger.Free(o.who) < amount + s.swapFee)
  {
  }

  /** The fee goes first: if it fails nothing has moved, and if the amount fails only the fee has. */
  lemma {:induction false} FeeFirst(
      c: Config, s: State, source: AccountId, destination: AccountId, amount: nat, recipient: Bytes, dest: ChainId)
    requires dest in s.nonces && s.ledger.Free(source) >= amount + s.swapFee && s.feeDestination == Some(destination)
    ensures var r := Execute(c, s, Signed(source), TransferNative(amount, recipient, dest));
      var first := s.ledger.Transfer(source, destination, s.swapFee);
      if first.Err? then r == Effect([], Err(Currency(first.error)))
      else
        var second := first.value.Transfer(source, c.bridge, amount);
        second.Err? ==> r.result == Err(Currency(second.error)) && Replay(c, s, r.trace).ledger == first.value
  {
    var fee := PayFee(s, source);
    MoveLedger(c, s, source, destination, s.swapFee);
    assert fee == Move(s, source, destination, s.swapFee);
    if fee.result.Ok? {
      MoveLedger(c, Replay(c, s, fee.trace), source, c.bridge, amount);
      assert fee.trace + [] == fee.trace;
    }
  }

  /** A transfer started by another pallet succeeds exactly to a whitelisted chain, with its next nonce. */
  lemma {:induction false} PalletTransfers(c: Config, s: State, dest: ChainId, resource: ResourceId, payload: Payload)
    ensures var s' := Next(c, s, PalletTransfer(dest, resource, payload));
      if dest in s.nonces then
        && s'.log == s.log + [Sent(dest, s.nonces[dest] + 1, resource, payload)]
        && s'.nonces == s.nonces[dest := s.nonces[dest] + 1] && s'.ledger == s.ledger
      else s' == s
  {
    if dest in s.nonces {
      ReplayOne(c, s, Sent(dest, s.nonces[dest] + 1, resource, payload));
    }
  }

  // ---------- votes ----------

  /** The proposal is decided, one way or the other. */
  predicate Decided(s: State, key: Key) {
    ProposalApproved(key) in s.log || ProposalRejected(key) in s.log
  }

  /** The lifetime of the proposal, from the block of its first vote on, is over. */
  predicate Late(c: Config, s: State, key: Key) {
    match FirstVote(s.log, key)
    case None => c.lifetime == 0
    case Some(block) => s.now >= block + c.lifetime
  }

  /** Why a vote is refused, read from the settings and the log; None if it counts. */
  function WhyNot(c: Config, s: State, who: AccountId, resource: ResourceId, key: Key): Option<Error> {
    if who !in s.relayers then Some(MustBeRelayer)
    else if key.src !in s.nonces then Some(ChainNotWhitelisted)
    else if resource !in s.resources then Some(ResourceDoesNotExist)
    else if Decided(s, key) then Some(ProposalAlreadyComplete)
    else if Late(c, s, key) then Some(ProposalExpired)
    else if who in Voters(s.log, key, true) || who in Voters(s.log, key, false) then Some(RelayerAlreadyVoted)
    else None
  }

  /** What the log says about the stored record of a proposal. */
  lemma {:induction false} RecordLogged(c: Config, s: State, key: Key)
    requires Inv(c, s)
    ensures var v := Record(c, s, key);
      && (v.IsComplete() <==> Decided(s, key))
      && (v.IsExpired(s.now) <==> Late(c, s, key))
      && v.votesFor == Voters(s.log, key, true) && v.votesAgainst == Voters(s.log, key, false)
      && (key in s.votes <==> FirstVote(s.log, key).Some?)
  {
    assert Voters(s.log, key, true) == Stored(s, key, true);
    assert Voters(s.log, key, false) == Stored(s, key, false);
    assert ProposalApproved(key) in s.log <==> key in s.votes && s.votes[key].status == Approved;
    assert ProposalRejected(key) in s.log <==> key in s.votes && s.votes[key].status == Rejected;
    assert match FirstVote(s.log, key)
      case None => key !in s.votes
      case Some(block) => key in s.votes && s.votes[key].expiry == block + c.lifetime;
  }

  function BallotCall(key: Key, resource: ResourceId, inFavour: bool): Call {
    if inFavour then Acknowledge(key.nonce, key.src, resource, key.call)
    else Reject(key.nonce, key.src, resource, key.call)
  }

  /** A vote counts unless there is a reason against it; a refused vote writes nothing and reports the reason. */
  lemma {:induction false} VoteCounts(
      c: Config, s: State, who: AccountId, resource: ResourceId, key: Key, inFavour: bool)
    requires Inv(c, s)
    ensures var r := Execute(c, s, Signed(who), BallotCall(key, resource, inFavour));
      match WhyNot(c, s, who, resource, key)
      case Some(reason) => r == Effect([], Err(reason))
      case None => |r.trace| > 0 && r.trace[0] == Voted(key, who, inFavour)
  {
    RecordLogged(c, s, key);
    assert Execute(c, s, Signed(who), BallotCall(key, resource, inFavour)) ==
      Ballot(c, s, Signed(who), resource, key, inFavour);
  }

  // ---------- decisions ----------

  /** The votes in the log reach the threshold. */
  predicate Carried(s: State, key: Key) {
    |Voters(s.log, key, true)| >= s.threshold
  }

  /** Even all remaining relayers together could not reach the threshold any more. */
  predicate Lost(s: State, key: Key) {
    s.threshold <= |s.relayers| && |s.relayers| - |Voters(s.log, key, false)| < s.threshold
  }

  /** Evaluating a proposal decides it by the votes in the log and the settings of the moment, or says why it cannot. */
  lemma {:induction false} Evaluated(c: Config, s: State, who: AccountId, key: Key)
    requires Inv(c, s)
    ensures var r := Execute(c, s, Signed(who), EvalVoteState(key.nonce, key.src, key.call));
      if FirstVote(s.log, key).None? then r == Effect([], Err(ProposalDoesNotExist))
      else if Decided(s, key) then r == Effect([], Err(ProposalAlreadyComplete))
      else if Late(c, s, key) then r == Effect([], Err(ProposalExpired))
      else if Carried(s, key) then |r.trace| > 0 && r.trace[0] == ProposalApproved(key)
      else if Lost(s, key) then r == Effect([ProposalRejected(key)], Ok(Done))
      else r == Effect([], Ok(Done))
  {
    RecordLogged(c, s, key);
    assert Execute(c, s, Signed(who), EvalVoteState(key.nonce, key.src, key.call)) == Resolve(c, s, key);
    ApprovalFirst(c, s, key);
  }

  lemma {:induction false} ApprovalFirst(c: Config, s: State, key: Key)
    ensures var trace := Finalize(c, s, key).trace; |trace| > 0 && trace[0] == ProposalApproved(key)
  {
    var approval := ProposalApproved(key);
    var r := Dispatch(c, Apply(c, s, approval), Signed(c.bridge), key.call);
    assert ([approval] + r.trace)[0] == approval;
    assert ([approval] + r.trace + [ProposalSucceeded(key)])[0] == approval;
  }

  /** A Transfer proposal that is carried pays its recipient from the bridge account, and is logged as executed. */
  lemma {:induction false} CarriedTransferPays(
      c: Config, s: State, who: AccountId, key: Key, to: AccountId, amount: nat, x: AccountId)
    requires Inv(c, s) && key.call == Transfer(to, amount) && to != c.bridge
    requires FirstVote(s.log, key).Some? && !Decided(s, key) && !Late(c, s, key) && Carried(s, key)
    requires s.ledger.Transfer(c.bridge, to, amount).Ok?
    ensures var r := Execute(c, s, Signed(who), EvalVoteState(key.nonce, key.src, key.call));
      var s' := Replay(c, s, r.trace);
      && r.result == Ok(Done)
      && ProposalApproved(key) in s'.log && ProposalSucceeded(key) in s'.log
      && s'.ledger.Total(x) == s.ledger.Total(x) + (if x == to then amount else 0)
           - (if x == c.bridge then amount + Burnt(s.ledger, c.bridge, amount) else 0)
  {
    RecordLogged(c, s, key);
    assert Execute(c, s, Signed(who), EvalVoteState(key.nonce, key.src, key.call)) == Finalize(c, s, key);
    FirstPaid(s.ledger, c.bridge, to, amount, x);
    FinalizedTransfer(c, s, key, to, amount);
  }

  lemma {:induction false} FinalizedTransfer(c: Config, s: State, key: Key, to: AccountId, amount: nat)
    requires key.call == Transfer(to, amount) && s.ledger.Transfer(c.bridge, to, amount).Ok?
    ensures var r := Finalize(c, s, key); var s' := Replay(c, s, r.trace);
      && r.result == Ok(Done)
      && ProposalApproved(key) in s'.log && ProposalSucceeded(key) in s'.log
      && s'.ledger == s.ledger.Transfer(c.bridge, to, amount).value
  {
    var approval, success := ProposalApproved(key), ProposalSucceeded(key);
    var s1 := Apply(c, s, approval);
    var moved := Moved(c.bridge, to, amount, s.ledger.Dust(c.bridge, to, amount));
    assert Dispatch(c, s1, Signed(c.bridge), key.call) == Acts(moved);
    var s2 := Apply(c, s1, moved);
    assert Finalize(c, s, key).trace == [approval] + [moved] + [success];
    ReplayConcat(c, s, [approval] + [moved], [success]);
    ReplayConcat(c, s, [approval], [moved]);
    ReplayOne(c, s, approval);
    ReplayOne(c, s1, moved);
    ReplayOne(c, s2, success);
  }

  // ---------- administration ----------

  /** Calls that only an administrator may make. */
  predicate Administrative(call: Call) {
    || call.SetSwapFee? || call.SetFeeDestination? || call.SetThreshold? || call.SetResource?
    || call.RemoveResource? || call.WhitelistChain? || call.AddRelayer? || call.RemoveRelayer?
  }

  /** An administrator is root, the collective, or a listed account; anybody else is refused. */
  lemma {:induction false} AdministratorsOnly(c: Config, s: State, o: Origin, call: Call)
    requires Administrative(call)
    ensures Execute(c, s, o, call) == Effect([], Err(BadOrigin)) <==>
      o.Signed? && o.who !in c.admins
  {
  }

  /** Everything but the named setting and the log is as before. */
  predicate Kept(s: State, s': State, call: Call) {
    && (call.WhitelistChain? || s'.nonces == s.nonces)
    && (call.SetThreshold? || s'.threshold == s.threshold)
    && (call.AddRelayer? || call.RemoveRelayer? || (s'.relayers == s.relayers && s'.relayerCount == s.relayerCount))
    && (call.SetResource? || call.RemoveResource? || s'.resources == s.resources)
    && (call.SetSwapFee? || s'.swapFee == s.swapFee)
    && (call.SetFeeDestination? || s'.feeDestination == s.feeDestination)
    && s'.votes == s.votes && s'.ledger == s.ledger && s'.now == s.now
  }

  /** What an administrator's call sets, when it is refused, and that it sets nothing else. */
  lemma {:induction false} Administered(c: Config, s: State, call: Call)
    requires Administrative(call)
    ensures var r := Execute(c, s, Root, call); var s' := Replay(c, s, r.trace);
      && Kept(s, s', call)
      && (r.result.Err? ==> s' == s)
      && match call
         case SetSwapFee(fee) => r.result.Ok? && s'.swapFee == fee
         case SetFeeDestination(destination) => r.result.Ok? && s'.feeDestination == Some(destination)
         case SetThreshold(threshold) =>
           if threshold == 0 then r.result == Err(InvalidThreshold)
           else r.result.Ok? && s'.threshold == threshold
         case SetResource(id, handler) => r.result.Ok? && s'.resources == s.resources[id := handler]
         case RemoveResource(id) => r.result.Ok? && s'.resources == s.resources - {id}
         case WhitelistChain(chain) =>
           if chain == c.ownChain then r.result == Err(InvalidChainId)
           else if chain in s.nonces then r.result == Err(ChainAlreadyWhitelisted)
           else r.result.Ok? && s'.nonces == s.nonces[chain := 0]
         case AddRelayer(relayer) =>
           if relayer in s.relayers then r.result == Err(RelayerAlreadyExists)
           else r.result.Ok? && s'.relayers == s.relayers + {relayer}
         case RemoveRelayer(relayer) =>
           if relayer !in s.relayers then r.result == Err(RelayerInvalid)
           else r.result.Ok? && s'.relayers == s.relayers - {relayer}
  {
    var trace := Execute(c, s, Root, call).trace;
    if trace != [] {
      assert trace == [trace[0]];
      ReplayOne(c, s, trace[0]);
    }
  }
}
