/**
 The storage of the bridge and swap pallets and the code that updates it in place. Every method is proved
 to perform exactly the trace that the state machine in Bridge describes, and to return its result.
 */
module BridgePallet {
  import opened Wrappers
  import opened Ledgers
  import opened Bridge
  import opened BridgeTraces
  import opened BridgeSafety

  /** Why a vote on a record is refused. */
  function Refusal(v: Votes, now: nat): Error {
    if v.IsComplete() then ProposalAlreadyComplete
    else if v.IsExpired(now) then ProposalExpired
    else RelayerAlreadyVoted
  }

  class Runtime {
    const c: Config
    var nonces: map<ChainId, Nonce>
    var threshold: nat
    var relayers: set<AccountId>
    var relayerCount: nat
    var votes: map<Key, Votes>
    var resources: map<ResourceId, Bytes>
    var swapFee: nat
    var feeDestination: Option<AccountId>
    var ledger: Ledger
    var now: nat
    var log: seq<Action>

    function Snapshot(): State
      reads this
    {
      State(nonces, threshold, relayers, relayerCount, votes, resources, swapFee, feeDestination, ledger, now, log)
    }

    /** The pallet has gone from s to its present state by the given effect. */
    ghost predicate Did(s: State, e: Effect, result: Result<Done, Error>)
      reads this
    {
      Snapshot() == Replay(c, s, e.trace) && result == e.result
    }

    constructor (config: Config, l: Ledger, fee: nat, destination: Option<AccountId>)
      ensures c == config && Snapshot() == Genesis(l, fee, destination)
    {
      c := config;
      nonces, threshold, relayers, relayerCount, votes := map[], 1, {}, 0, map[];
      resources, swapFee, feeDestination := map[], fee, destination;
      ledger, now, log := l, 0, [];
    }

    /** Undo everything since a saved state, as a failed storage layer does. */
    method Restore(s: State)
      modifies this
      ensures Snapshot() == s
    {
      nonces, threshold, relayers, relayerCount, votes := s.nonces, s.threshold, s.relayers, s.relayerCount, s.votes;
      resources, swapFee, feeDestination := s.resources, s.swapFee, s.feeDestination;
      ledger, now, log := s.ledger, s.now, s.log;
    }

    // ---------- configuration ----------

    method Whitelist(chain: ChainId) returns (r: Result<Done, Error>)
      modifies this
      ensures Did(old(Snapshot()), Bridge.Whitelist(c, old(Snapshot()), chain), r)
      ensures relayerCount == old(relayerCount) && relayers == old(relayers)
    {
      if chain == c.ownChain {
        return Err(InvalidChainId);
      }
      if chain in nonces {
        return Err(ChainAlreadyWhitelisted);
      }
      nonces := nonces[chain := 0];
      log := log + [Whitelisted(chain)];
      LegalOne(c, old(Snapshot()), Whitelisted(chain));
      r := Ok(Done);
    }

    method RegisterRelayer(relayer: AccountId) returns (r: Result<Done, Error>)
      requires relayerCount == |relayers|
      modifies this
      ensures Did(old(Snapshot()), Register(old(Snapshot()), relayer), r)
      ensures relayerCount == |relayers|
    {
      if relayer in relayers {
        return Err(RelayerAlreadyExists);
      }
      relayers := relayers + {relayer};
      relayerCount := relayerCount + 1;
      log := log + [RelayerAdded(relayer)];
      LegalOne(c, old(Snapshot()), RelayerAdded(relayer));
      r := Ok(Done);
    }

    /** The count never underflows because it is the size of the relayer set. */
    method UnregisterRelayer(relayer: AccountId) returns (r: Result<Done, Error>)
      requires relayerCount == |relayers|
      modifies this
      ensures Did(old(Snapshot()), Guarded(relayer in old(relayers), RelayerInvalid, RelayerRemoved(relayer)), r)
      ensures relayerCount == |relayers|
    {
      if relayer !in relayers {
        return Err(RelayerInvalid);
      }
      assert relayers == {relayer} + (relayers - {relayer});
      relayers := relayers - {relayer};
      relayerCount := relayerCount - 1;
      log := log + [RelayerRemoved(relayer)];
      LegalOne(c, old(Snapshot()), RelayerRemoved(relayer));
      r := Ok(Done);
    }

    method SetRelayerThreshold(value: nat) returns (r: Result<Done, Error>)
      modifies this
      ensures Did(old(Snapshot()), Guarded(value > 0, InvalidThreshold, ThresholdChanged(value)), r)
      ensures relayerCount == old(relayerCount) && relayers == old(relayers)
    {
      if value == 0 {
        return Err(InvalidThreshold);
      }
      threshold := value;
      log := log + [ThresholdChanged(value)];
      LegalOne(c, old(Snapshot()), ThresholdChanged(value));
      r := Ok(Done);
    }

    method RegisterResource(id: ResourceId, handler: Bytes) returns (r: Result<Done, Error>)
      modifies this
      ensures Did(old(Snapshot()), Acts(ResourceSet(id, handler)), r)
      ensures relayerCount == old(relayerCount) && relayers == old(relayers)
    {
      resources := resources[id := handler];
      log := log + [ResourceSet(id, handler)];
      LegalOne(c, old(Snapshot()), ResourceSet(id, handler));
      r := Ok(Done);
    }

    method UnregisterResource(id: ResourceId) returns (r: Result<Done, Error>)
      modifies this
      ensures Did(old(Snapshot()), Acts(ResourceRemoved(id)), r)
      ensures relayerCount == old(relayerCount) && relayers == old(relayers)
    {
      resources := resources - {id};
      log := log + [ResourceRemoved(id)];
      LegalOne(c, old(Snapshot()), ResourceRemoved(id));
      r := Ok(Done);
    }

    /** Genesis configuration: it stops at the first entry that is refused. */
    method Initialize(chains: seq<ChainId>, members: seq<AccountId>, handlers: seq<(ResourceId, Bytes)>, value: nat)
      returns (r: Result<Done, Error>)
      requires relayerCount == |relayers|
      modifies this
      ensures r.Ok? <==> Legal(c, old(Snapshot()), Setup(chains, members, handlers, value))
      ensures r.Ok? ==> Snapshot() == Replay(c, old(Snapshot()), Setup(chains, members, handlers, value))
    {
      ghost var s := Snapshot();
      ghost var setup := Setup(chains, members, handlers, value);
      r := InitializeChains(s, setup, chains);
      if r.Err? {
        return;
      }
      r := InitializeRelayers(s, setup, |chains|, members);
      if r.Err? {
        return;
      }
      InitializeResources(s, setup, |chains| + |members|, handlers);
      SetupStep(s, setup, |setup| - 1);
      r := SetRelayerThreshold(value);
      assert setup[..|setup|] == setup;
    }

    method InitializeChains(ghost s: State, ghost setup: seq<Action>, chains: seq<ChainId>)
      returns (r: Result<Done, Error>)
      requires SetUp(s, setup, 0) && relayerCount == |relayers|
      requires |chains| <= |setup| && forall i :: 0 <= i < |chains| ==> setup[i] == Whitelisted(chains[i])
      modifies this
      ensures r.Ok? ==> SetUp(s, setup, |chains|)
      ensures r.Err? ==> !Legal(c, s, setup)
      ensures relayerCount == |relayers|
    {
      r := Ok(Done);
      for i := 0 to |chains|
        invariant SetUp(s, setup, i) && r.Ok?
        invariant relayerCount == |relayers|
      {
        SetupStep(s, setup, i);
        r := Whitelist(chains[i]);
        if r.Err? {
          return;
        }
      }
    }

    method InitializeRelayers(ghost s: State, ghost setup: seq<Action>, ghost from: nat, members: seq<AccountId>)
      returns (r: Result<Done, Error>)
      requires SetUp(s, setup, from) && relayerCount == |relayers|
      requires from + |members| <= |setup|
      requires forall i :: 0 <= i < |members| ==> setup[from + i] == RelayerAdded(members[i])
      modifies this
      ensures r.Ok? ==> SetUp(s, setup, from + |members|)
      ensures r.Err? ==> !Legal(c, s, setup)
    {
      r := Ok(Done);
      for i := 0 to |members|
        invariant SetUp(s, setup, from + i) && r.Ok?
        invariant relayerCount == |relayers|
      {
        SetupStep(s, setup, from + i);
        r := RegisterRelayer(members[i]);
        if r.Err? {
          return;
        }
      }
    }

    method InitializeResources(
        ghost s: State, ghost setup: seq<Action>, ghost from: nat, handlers: seq<(ResourceId, Bytes)>)
      requires SetUp(s, setup, from)
      requires from + |handlers| <= |setup|
      requires forall i :: 0 <= i < |handlers| ==> setup[from + i] == ResourceSet(handlers[i].0, handlers[i].1)
      modifies this
      ensures SetUp(s, setup, from + |handlers|)
    {
      for i := 0 to |handlers|
        invariant SetUp(s, setup, from + i)
      {
        SetupStep(s, setup, from + i);
        var r := RegisterResource(handlers[i].0, handlers[i].1);
      }
    }

    /** The first n setup actions have been carried out, all of them legally. */
    ghost predicate SetUp(s: State, setup: seq<Action>, n: nat)
      reads this
    {
      && n <= |setup|
      && Legal(c, s, setup[..n])
      && Snapshot() == Replay(c, s, setup[..n])
    }

    /** The setup is legal only if the next action is enabled now. */
    lemma {:induction false} SetupStep(s: State, setup: seq<Action>, n: nat)
      requires SetUp(s, setup, n) && n < |setup|
      ensures Enabled(c, Snapshot(), setup[n]) ==>
        Legal(c, s, setup[..n + 1]) && Replay(c, s, setup[..n + 1]) == Apply(c, Snapshot(), setup[n])
      ensures Legal(c, s, setup) ==> Enabled(c, Snapshot(), setup[n])
      ensures Replay(c, Snapshot(), [setup[n]]) == Apply(c, Snapshot(), setup[n])
    {
      var before, a := setup[..n], setup[n];
      ReplayOne(c, Snapshot(), a);
      assert setup[..n + 1] == before + [a];
      ReplayConcat(c, s, before, [a]);
      if Enabled(c, Snapshot(), a) {
        LegalOne(c, Snapshot(), a);
        LegalConcat(c, s, before, [a]);
      }
      if Legal(c, s, setup) {
        assert setup == before + setup[n..];
        LegalSplit(c, s, before, setup[n..]);
      }
    }

    // ---------- voting ----------

    method CommitVote(who: AccountId, key: Key, inFavour: bool) returns (r: Result<Done, Error>)
      requires who in relayers
      modifies this
      ensures r.Ok? <==> Enabled(c, old(Snapshot()), Voted(key, who, inFavour))
      ensures r.Ok? ==> Snapshot() == Apply(c, old(Snapshot()), Voted(key, who, inFavour))
      ensures r.Err? ==> Snapshot() == old(Snapshot())
      ensures r.Err? ==> r.error == Refusal(Record(c, old(Snapshot()), key), old(now))
    {
      var v := if key in votes then votes[key] else Votes([], [], Initiated, now + c.lifetime);
      if v.IsComplete() {
        return Err(ProposalAlreadyComplete);
      }
      if v.IsExpired(now) {
        return Err(ProposalExpired);
      }
      if v.HasVoted(who) {
        return Err(RelayerAlreadyVoted);
      }
      v := v.Push(who, inFavour);
      log := log + [Voted(key, who, inFavour)];
      votes := votes[key := v];
      r := Ok(Done);
    }

    method TryResolveProposal(key: Key) returns (r: Result<Done, Error>)
      requires Settled(Snapshot()) && relayerCount == |relayers|
      modifies this
      ensures Did(old(Snapshot()), Resolve(c, old(Snapshot()), key), r)
      ensures relayerCount == |relayers|
      decreases key.call, 7
    {
      ghost var s := Snapshot();
      if key !in votes {
        return Err(ProposalDoesNotExist);
      }
      var v := votes[key];
      if v.IsComplete() {
        return Err(ProposalAlreadyComplete);
      }
      if v.IsExpired(now) {
        return Err(ProposalExpired);
      }
      match v.Decide(threshold, relayerCount) {
        case Approved =>
          votes := votes[key := v.Completed(Approved)];
          r := FinalizeExecution(s, key);
        case Rejected =>
          votes := votes[key := v.Completed(Rejected)];
          log := log + [ProposalRejected(key)];
          LegalOne(c, s, ProposalRejected(key));
          r := Ok(Done);
        case Initiated =>
          votes := votes[key := v];
          assert votes == s.votes;
          r := Ok(Done);
      }
    }

    /** s is the state before the approval was stored. */
    method FinalizeExecution(ghost s: State, key: Key) returns (r: Result<Done, Error>)
      requires Settled(s) && s.relayerCount == |s.relayers|
      requires Enabled(c, s, ProposalApproved(key))
      requires log == s.log && votes == VotesAfter(c, s, ProposalApproved(key))
      requires nonces == s.nonces && threshold == s.threshold && relayers == s.relayers
      requires relayerCount == s.relayerCount && resources == s.resources && swapFee == s.swapFee
      requires feeDestination == s.feeDestination && ledger == s.ledger && now == s.now
      modifies this
      ensures Did(s, Finalize(c, s, key), r)
      ensures relayerCount == |relayers|
      decreases key.call, 6
    {
      ghost var approval := ProposalApproved(key);
      log := log + [ProposalApproved(key)];
      assert Snapshot() == Apply(c, s, approval);
      SettledStays(c, s, approval);
      ghost var inner := Bridge.Dispatch(c, Apply(c, s, approval), Signed(c.bridge), key.call);
      LegalOne(c, s, approval);
      ReplayConcat(c, s, [approval], inner.trace);
      r := Dispatch(Signed(c.bridge), key.call);
      if r.Err? {
        return;
      }
      ghost var s2 := Snapshot();
      log := log + [ProposalSucceeded(key)];
      assert Snapshot() == Apply(c, s2, ProposalSucceeded(key));
      ReplayOne(c, s2, ProposalSucceeded(key));
      ReplayConcat(c, s, [approval] + inner.trace, [ProposalSucceeded(key)]);
      r := Ok(Done);
    }

    method Vote(o: Origin, resource: ResourceId, key: Key, inFavour: bool) returns (r: Result<Done, Error>)
      requires Settled(Snapshot()) && relayerCount == |relayers|
      modifies this
      ensures Did(old(Snapshot()), Ballot(c, old(Snapshot()), o, resource, key, inFavour), r)
      ensures relayerCount == |relayers|
      decreases key.call, 8
    {
      ghost var s := Snapshot();
      if !o.Signed? {
        return Err(BadOrigin);
      }
      if o.who !in relayers {
        return Err(MustBeRelayer);
      }
      if key.src !in nonces {
        return Err(ChainNotWhitelisted);
      }
      if resource !in resources {
        return Err(ResourceDoesNotExist);
      }
      r := CommitVote(o.who, key, inFavour);
      if r.Err? {
        return;
      }
      ghost var vote := Voted(key, o.who, inFavour);
      SettledStays(c, s, vote);
      LegalOne(c, s, vote);
      ReplayConcat(c, s, [vote], Resolve(c, Apply(c, s, vote), key).trace);
      r := TryResolveProposal(key);
    }

    // ---------- transfers ----------

    method CurrencyTransfer(from: AccountId, to: AccountId, amount: nat) returns (r: Result<Done, Error>)
      modifies this
      ensures Did(old(Snapshot()), Move(old(Snapshot()), from, to, amount), r)
      ensures relayerCount == old(relayerCount) && relayers == old(relayers)
    {
      ghost var a := Moved(from, to, amount, ledger.Dust(from, to, amount));
      var t := ledger.Transfer(from, to, amount);
      if t.Err? {
        return Err(Currency(t.error));
      }
      log := log + [Moved(from, to, amount, ledger.Dust(from, to, amount))];
      ledger := t.value;
      LegalOne(c, old(Snapshot()), a);
      r := Ok(Done);
    }

    method BumpNonce(chain: ChainId) returns (nonce: Nonce)
      requires chain in nonces
      modifies this`nonces
      ensures nonce == old(nonces)[chain] + 1 && nonces == old(nonces)[chain := nonce]
    {
      nonce := nonces[chain] + 1;
      nonces := nonces[chain := nonce];
    }

    /** transfer_fungible, transfer_nonfungible and transfer_generic differ in the payload only. */
    method StartTransfer(dest: ChainId, resource: ResourceId, payload: Payload) returns (r: Result<Done, Error>)
      modifies this
      ensures Did(old(Snapshot()), Send(old(Snapshot()), dest, resource, payload), r)
      ensures relayerCount == old(relayerCount) && relayers == old(relayers)
    {
      if dest !in nonces {
        return Err(ChainNotWhitelisted);
      }
      var nonce := BumpNonce(dest);
      log := log + [Sent(dest, nonce, resource, payload)];
      LegalOne(c, old(Snapshot()), Sent(dest, nonce, resource, payload));
      r := Ok(Done);
    }

    method CollectFrom(source: AccountId, amount: nat) returns (r: Result<Done, Error>)
      modifies this
      ensures Did(old(Snapshot()), Collect(c, old(Snapshot()), source, amount), r)
      ensures relayerCount == old(relayerCount) && relayers == old(relayers)
    {
      ghost var s := Snapshot();
      ghost var fee := PayFee(s, source);
      if feeDestination.Some? {
        r := CurrencyTransfer(source, feeDestination.value, swapFee);
        if r.Err? {
          return;
        }
      }
      ReplayConcat(c, s, fee.trace, Move(Replay(c, s, fee.trace), source, c.bridge, amount).trace);
      r := CurrencyTransfer(source, c.bridge, amount);
    }

    method TransferNative(source: AccountId, amount: nat, recipient: Bytes, dest: ChainId)
      returns (r: Result<Done, Error>)
      modifies this
      ensures Did(old(Snapshot()), SwapOut(c, old(Snapshot()), source, amount, recipient, dest), r)
      ensures relayerCount == old(relayerCount) && relayers == old(relayers)
    {
      ghost var s := Snapshot();
      if dest !in nonces {
        return Err(DestinationNotWhitelisted);
      }
      if ledger.Free(source) < amount + swapFee {
        return Err(Error.InsufficientBalance);
      }
      ghost var paid := Collect(c, s, source, amount).trace;
      SwapOutParts(c, s, source, amount, recipient, dest);
      r := CollectFrom(source, amount);
      if r.Err? {
        return;
      }
      r := StartTransfer(dest, c.nativeToken, Fungible(amount, recipient));
    }

    // ---------- dispatch ----------

    /** A signed or administrative extrinsic; it keeps everything the bridge promises. */
    method Extrinsic(o: Origin, call: Call) returns (r: Result<Done, Error>)
      requires BridgeSafety.Inv(c, Snapshot())
      modifies this
      ensures Did(old(Snapshot()), Bridge.Dispatch(c, old(Snapshot()), o, call), r)
      ensures BridgeSafety.Inv(c, Snapshot())
    {
      DispatchKeepsInv(c, Snapshot(), o, call);
      r := Dispatch(o, call);
    }

    method Dispatch(o: Origin, call: Call) returns (r: Result<Done, Error>)
      requires Settled(Snapshot()) && relayerCount == |relayers|
      modifies this
      ensures Did(old(Snapshot()), Bridge.Dispatch(c, old(Snapshot()), o, call), r)
      ensures relayerCount == |relayers|
      decreases call, 4
    {
      var saved := Snapshot();
      r := Perform(o, call);
      if r.Err? && c.transactional {
        Restore(saved);
      }
    }

    method Perform(o: Origin, call: Call) returns (r: Result<Done, Error>)
      requires Settled(Snapshot()) && relayerCount == |relayers|
      modifies this
      ensures Did(old(Snapshot()), Execute(c, old(Snapshot()), o, call), r)
      ensures relayerCount == |relayers|
      decreases call, 3
    {
      if call.Acknowledge? {
        r := Vote(o, call.resource, Key(call.src, call.nonce, call.call), true);
        return;
      }
      if call.Reject? {
        r := Vote(o, call.resource, Key(call.src, call.nonce, call.call), false);
        return;
      }
      if call.EvalVoteState? {
        if !o.Signed? {
          return Err(BadOrigin);
        }
        r := TryResolveProposal(Key(call.src, call.nonce, call.call));
        return;
      }
      if call.Transfer? || call.TransferNative? || call.Foreign? {
        r := PerformOpen(o, call);
        return;
      }
      if !IsAdmin(c, o) {
        return Err(BadOrigin);
      }
      r := PerformAdmin(call);
    }

    /** What a call of another pallet leaves of the balances. */
    method BalancesChange(l: Ledger)
      modifies this`ledger, this`log
      ensures Snapshot() == Replay(c, old(Snapshot()), [OutsideChange(c, old(Snapshot()), l)])
    {
      var change := OutsideChange(c, Snapshot(), l);
      LegalOne(c, Snapshot(), change);
      ledger := change.ledger;
      log := log + [change];
    }

    /** Calls anyone may make. */
    method PerformOpen(o: Origin, call: Call) returns (r: Result<Done, Error>)
      requires call.Transfer? || call.TransferNative? || call.Foreign?
      modifies this
      ensures Did(old(Snapshot()), Execute(c, old(Snapshot()), o, call), r)
      ensures relayerCount == old(relayerCount) && relayers == old(relayers)
    {
      match call
      case Transfer(to, amount) =>
        if o != Signed(c.bridge) {
          return Err(BadOrigin);
        }
        r := CurrencyTransfer(c.bridge, to, amount);
      case TransferNative(amount, recipient, dest) =>
        if !o.Signed? {
          return Err(BadOrigin);
        }
        r := TransferNative(o.who, amount, recipient, dest);
      case Foreign(succeeds, effect) =>
        if effect.Some? {
          BalancesChange(effect.value);
        }
        r := if succeeds then Ok(Done) else Err(ForeignFailure);
    }

    /** Calls of the admin origin, once the origin has been checked. */
    method PerformAdmin(call: Call) returns (r: Result<Done, Error>)
      requires !call.Acknowledge? && !call.Reject? && !call.EvalVoteState?
      requires !call.Transfer? && !call.TransferNative? && !call.Foreign?
      requires relayerCount == |relayers|
      modifies this
      ensures Did(old(Snapshot()), Execute(c, old(Snapshot()), Root, call), r)
      ensures relayerCount == |relayers|
    {
      match call
      case SetSwapFee(fee) =>
        swapFee := fee;
        log := log + [FeeChanged(fee)];
        LegalOne(c, old(Snapshot()), FeeChanged(fee));
        r := Ok(Done);
      case SetFeeDestination(destination) =>
        feeDestination := Some(destination);
        log := log + [FeeDestinationChanged(destination)];
        LegalOne(c, old(Snapshot()), FeeDestinationChanged(destination));
        r := Ok(Done);
      case SetThreshold(value) => r := SetRelayerThreshold(value);
      case SetResource(id, handler) => r := RegisterResource(id, handler);
      case RemoveResource(id) => r := UnregisterResource(id);
      case WhitelistChain(chain) => r := Whitelist(chain);
      case AddRelayer(relayer) => r := RegisterRelayer(relayer);
      case RemoveRelayer(relayer) => r := UnregisterRelayer(relayer);
    }
  }
}
