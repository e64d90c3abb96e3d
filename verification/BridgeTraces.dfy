/**
 Dispatch stays inside the atomic state machine: whatever a run does, re-entrantly or not, rolled back
 or not, is a legal trace of atomic actions. Every law of the bridge is then a law of legal traces.
 */
module BridgeTraces {
  import opened Wrappers
  import opened Ledgers
  import opened Bridge

  lemma {:induction false} ReplayConcat(c: Config, s: State, a: seq<Action>, b: seq<Action>)
    ensures Replay(c, s, a + b) == Replay(c, Replay(c, s, a), b)
    decreases |a|
  {
    if a == [] {
      assert a + b == b;
    } else {
      ReplayConcat(c, Apply(c, s, a[0]), a[1..], b);
      assert (a + b)[0] == a[0] && (a + b)[1..] == a[1..] + b;
    }
  }

  lemma {:induction false} LegalConcat(c: Config, s: State, a: seq<Action>, b: seq<Action>)
    requires Legal(c, s, a) && Legal(c, Replay(c, s, a), b)
    ensures Legal(c, s, a + b)
    decreases |a|
  {
    if a == [] {
      assert a + b == b;
    } else {
      LegalConcat(c, Apply(c, s, a[0]), a[1..], b);
      assert (a + b)[0] == a[0] && (a + b)[1..] == a[1..] + b;
    }
  }

  lemma {:induction false} LegalSplit(c: Config, s: State, a: seq<Action>, b: seq<Action>)
    requires Legal(c, s, a + b)
    ensures Legal(c, s, a) && Legal(c, Replay(c, s, a), b)
    decreases |a|
  {
    if a == [] {
      assert a + b == b;
    } else {
      assert (a + b)[0] == a[0] && (a + b)[1..] == a[1..] + b;
      LegalSplit(c, Apply(c, s, a[0]), a[1..], b);
    }
  }

  lemma {:induction false} ReplayOne(c: Config, s: State, a: Action)
    ensures Replay(c, s, [a]) == Apply(c, s, a)
  {
    var rest := [a][1..];
    assert rest == [];
    assert Replay(c, Apply(c, s, a), rest) == Apply(c, s, a);
  }

  lemma {:induction false} LegalOne(c: Config, s: State, a: Action)
    requires Enabled(c, s, a)
    ensures Legal(c, s, [a]) && Replay(c, s, [a]) == Apply(c, s, a)
  {
    ReplayOne(c, s, a);
    assert [a][1..] == [];
  }

  lemma {:induction false} ReplayLog(c: Config, s: State, trace: seq<Action>)
    ensures Replay(c, s, trace).log == s.log + trace
    decreases |trace|
  {
    if trace != [] {
      ReplayLog(c, Apply(c, s, trace[0]), trace[1..]);
      assert s.log + trace == s.log + [trace[0]] + trace[1..];
    }
  }

  // ---------- records that can no longer change ----------

  /** A record is closed once it is approved, rejected or expired. */
  predicate Closed(s: State, key: Key) {
    key in s.votes && !s.votes[key].Open(s.now)
  }

  lemma {:induction false} ClosedStays(c: Config, s: State, a: Action, key: Key)
    requires Enabled(c, s, a) && Closed(s, key)
    ensures Closed(Apply(c, s, a), key) && Apply(c, s, a).votes[key] == s.votes[key]
  {
  }

  /** A record never changes again after approval, rejection or expiry, whatever legal actions follow. */
  lemma {:induction false} ClosedForever(c: Config, s: State, trace: seq<Action>, key: Key)
    requires Legal(c, s, trace) && Closed(s, key)
    ensures Closed(Replay(c, s, trace), key) && Replay(c, s, trace).votes[key] == s.votes[key]
    decreases |trace|
  {
    if trace != [] {
      ClosedStays(c, s, trace[0], key);
      ClosedForever(c, Apply(c, s, trace[0]), trace[1..], key);
    }
  }

  /** Only approved proposals have been executed. */
  ghost predicate Settled(s: State) {
    forall key {:trigger ProposalSucceeded(key)} :: ProposalSucceeded(key) in s.log ==>
      key in s.votes && s.votes[key].status == Approved
  }

  lemma {:induction false} SettledStays(c: Config, s: State, a: Action)
    requires Enabled(c, s, a) && Settled(s)
    ensures Settled(Apply(c, s, a))
  {
    var s' := Apply(c, s, a);
    forall key {:trigger ProposalSucceeded(key)} | ProposalSucceeded(key) in s'.log
      ensures key in s'.votes && s'.votes[key].status == Approved
    {
      assert key in s.votes && s.votes[key].status == Approved;
      ClosedStays(c, s, a, key);
    }
  }

  lemma {:induction false} SettledAfter(c: Config, s: State, trace: seq<Action>)
    requires Legal(c, s, trace) && Settled(s)
    ensures Settled(Replay(c, s, trace))
    decreases |trace|
  {
    if trace != [] {
      SettledStays(c, s, trace[0]);
      SettledAfter(c, Apply(c, s, trace[0]), trace[1..]);
    }
  }

  // ---------- dispatch is legal ----------

  /** A trace that executes no proposal whose record was already closed. */
  ghost predicate Sound(c: Config, s: State, trace: seq<Action>) {
    && Legal(c, s, trace)
    && forall key {:trigger ProposalSucceeded(key)} :: Closed(s, key) ==> ProposalSucceeded(key) !in trace
  }

  lemma {:induction false} SoundOne(c: Config, s: State, a: Action)
    requires Enabled(c, s, a) && !a.ProposalSucceeded?
    ensures Sound(c, s, [a]) && Replay(c, s, [a]) == Apply(c, s, a)
  {
    LegalOne(c, s, a);
  }

  lemma {:induction false} SoundConcat(c: Config, s: State, a: seq<Action>, b: seq<Action>)
    requires Sound(c, s, a) && Sound(c, Replay(c, s, a), b)
    ensures Sound(c, s, a + b)
  {
    LegalConcat(c, s, a, b);
    forall key {:trigger ProposalSucceeded(key)} | Closed(s, key)
      ensures ProposalSucceeded(key) !in a + b
    {
      ClosedForever(c, s, a, key);
    }
  }

  lemma {:induction false} DispatchSound(c: Config, s: State, o: Origin, call: Call)
    requires Settled(s)
    ensures Sound(c, s, Dispatch(c, s, o, call).trace)
    decreases call, 4
  {
    ExecuteSound(c, s, o, call);
  }

  lemma {:induction false} ExecuteSound(c: Config, s: State, o: Origin, call: Call)
    requires Settled(s)
    ensures Sound(c, s, Execute(c, s, o, call).trace)
    decreases call, 3
  {
    match call
    case Acknowledge(nonce, src, resource, inner) => BallotSound(c, s, o, resource, Key(src, nonce, inner), true);
    case Reject(nonce, src, resource, inner) => BallotSound(c, s, o, resource, Key(src, nonce, inner), false);
    case EvalVoteState(nonce, src, inner) => ResolveSound(c, s, Key(src, nonce, inner));
    case TransferNative(amount, recipient, dest) =>
      if o.Signed? {
        SwapOutSound(c, s, o.who, amount, recipient, dest);
      }
    case _ => SingleSound(c, s, o, call);
  }

  lemma {:induction false} SingleSound(c: Config, s: State, o: Origin, call: Call)
    requires !call.Acknowledge? && !call.Reject? && !call.EvalVoteState? && !call.TransferNative?
    ensures Sound(c, s, Execute(c, s, o, call).trace)
  {
    var trace := Execute(c, s, o, call).trace;
    assert |trace| <= 1;
    if trace != [] {
      assert trace == [trace[0]];
      SoundOne(c, s, trace[0]);
    }
  }

  lemma {:induction false} MoveSound(c: Config, s: State, from: AccountId, to: AccountId, amount: nat)
    ensures var r := Move(s, from, to, amount);
      Sound(c, s, r.trace) && Replay(c, s, r.trace).nonces == s.nonces
  {
    if s.ledger.Transfer(from, to, amount).Ok? {
      SoundOne(c, s, Moved(from, to, amount, s.ledger.Dust(from, to, amount)));
    }
  }

  lemma {:induction false} PayFeeSound(c: Config, s: State, source: AccountId)
    ensures var r := PayFee(s, source);
      Sound(c, s, r.trace) && Replay(c, s, r.trace).nonces == s.nonces
  {
    if s.feeDestination.Some? {
      MoveSound(c, s, source, s.feeDestination.value, s.swapFee);
    }
  }

  lemma {:induction false} CollectSound(c: Config, s: State, source: AccountId, amount: nat)
    ensures var r := Collect(c, s, source, amount);
      Sound(c, s, r.trace) && Replay(c, s, r.trace).nonces == s.nonces
  {
    var fee := PayFee(s, source).trace;
    PayFeeSound(c, s, source);
    var s1 := Replay(c, s, fee);
    var paid := Move(s1, source, c.bridge, amount).trace;
    MoveSound(c, s1, source, c.bridge, amount);
    SoundConcat(c, s, fee, paid);
    ReplayConcat(c, s, fee, paid);
  }

  /** A swap out is the collection followed by the bridge transfer, which cannot fail any more. */
  lemma {:induction false} SwapOutParts(
      c: Config, s: State, source: AccountId, amount: nat, recipient: Bytes, dest: ChainId)
    requires dest in s.nonces && s.ledger.Free(source) >= amount + s.swapFee
    ensures var paid := Collect(c, s, source, amount);
      var s1 := Replay(c, s, paid.trace);
      var sent := Send(s1, dest, c.nativeToken, Fungible(amount, recipient));
      var all := SwapOut(c, s, source, amount, recipient, dest);
      if paid.result.Err? then all == paid
      else all.result == sent.result && Replay(c, s, all.trace) == Replay(c, s1, sent.trace)
  {
    var paid := Collect(c, s, source, amount).trace;
    CollectSound(c, s, source, amount);
    ReplayConcat(c, s, paid, [Sent(dest, s.nonces[dest] + 1, c.nativeToken, Fungible(amount, recipient))]);
  }

  lemma {:induction false} SwapOutSound(
      c: Config, s: State, source: AccountId, amount: nat, recipient: Bytes, dest: ChainId)
    ensures Sound(c, s, SwapOut(c, s, source, amount, recipient, dest).trace)
  {
    var paid := Collect(c, s, source, amount).trace;
    CollectSound(c, s, source, amount);
    if dest in s.nonces {
      var sent := Sent(dest, s.nonces[dest] + 1, c.nativeToken, Fungible(amount, recipient));
      SoundOne(c, Replay(c, s, paid), sent);
      SoundConcat(c, s, paid, [sent]);
    }
  }

  lemma {:induction false} BallotSound(
      c: Config, s: State, o: Origin, resource: ResourceId, key: Key, inFavour: bool)
    requires Settled(s)
    ensures Sound(c, s, Ballot(c, s, o, resource, key, inFavour).trace)
    decreases key.call, 8
  {
    if Ballot(c, s, o, resource, key, inFavour).trace != [] {
      var vote := Voted(key, o.who, inFavour);
      SoundOne(c, s, vote);
      SettledStays(c, s, vote);
      ResolveSound(c, Apply(c, s, vote), key);
      SoundConcat(c, s, [vote], Resolve(c, Apply(c, s, vote), key).trace);
    }
  }

  lemma {:induction false} ResolveSound(c: Config, s: State, key: Key)
    requires Settled(s)
    ensures Sound(c, s, Resolve(c, s, key).trace)
    decreases key.call, 7
  {
    if key in s.votes && s.votes[key].Open(s.now) {
      match s.votes[key].Decide(s.threshold, s.relayerCount)
      case Approved => FinalizeSound(c, s, key);
      case Rejected => SoundOne(c, s, ProposalRejected(key));
      case Initiated =>
    }
  }

  /** Approval is stored before the call is dispatched, so nothing inside the call can execute it again. */
  lemma {:induction false} FinalizeSound(c: Config, s: State, key: Key)
    requires Settled(s)
    requires Enabled(c, s, ProposalApproved(key))
    ensures Sound(c, s, Finalize(c, s, key).trace)
    decreases key.call, 6
  {
    var approval := ProposalApproved(key);
    SoundOne(c, s, approval);
    SettledStays(c, s, approval);
    var s1 := Apply(c, s, approval);
    var r := Dispatch(c, s1, Signed(c.bridge), key.call);
    DispatchSound(c, s1, Signed(c.bridge), key.call);
    SoundConcat(c, s, [approval], r.trace);
    if r.result.Ok? {
      var before := [approval] + r.trace;
      var s2 := Replay(c, s1, r.trace);
      ReplayConcat(c, s, [approval], r.trace);
      assert Closed(s1, key);
      ClosedForever(c, s1, r.trace, key);
      ReplayLog(c, s, before);
      assert ProposalSucceeded(key) !in s.log;
      LegalOne(c, s2, ProposalSucceeded(key));
      LegalConcat(c, s, before, [ProposalSucceeded(key)]);
    }
  }
}
