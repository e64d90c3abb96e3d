/**
 The bridge account is backed by the log: its balance is what it started with, plus every amount sent out
 in a native fungible transfer, minus every amount paid by a successfully executed Transfer proposal, plus
 what others put into it and minus what others took out.
 */
module BridgeBacking {
  import opened Wrappers
  import opened Ledgers
  import opened Bridge
  import opened BridgeTraces
  import opened BridgeSafety

  // ---------- what the log says about the bridge account ----------

  /** The amount an action locks in the bridge: a native fungible transfer to another chain. */
  function Locked(c: Config, a: Action): nat {
    if a.Sent? && a.resource == c.nativeToken && a.payload.Fungible? then a.payload.amount else 0
  }

  /** The amount an action releases: a Transfer proposal that executed. */
  function Released(a: Action): nat {
    if a.ProposalSucceeded? && a.key.call.Transfer? then a.key.call.amount else 0
  }

  /** What the bridge account loses as dust in an action. */
  function BridgeDust(c: Config, a: Action): nat {
    if a.Moved? && a.from == c.bridge then a.dust else 0
  }

  /** How an action changes the balance of the bridge account. */
  function BridgeDelta(c: Config, a: Action): int {
    if a.Outside? then a.gain
    else if !a.Moved? || a.from == a.to then 0
    else if a.to == c.bridge then a.amount
    else if a.from == c.bridge then 0 - a.amount - a.dust
    else 0
  }

  function LockedIn(c: Config, trace: seq<Action>): nat
    decreases |trace|
  {
    if trace == [] then 0 else Locked(c, trace[0]) + LockedIn(c, trace[1..])
  }

  function ReleasedIn(trace: seq<Action>): nat
    decreases |trace|
  {
    if trace == [] then 0 else Released(trace[0]) + ReleasedIn(trace[1..])
  }

  function BridgeDustIn(c: Config, trace: seq<Action>): nat
    decreases |trace|
  {
    if trace == [] then 0 else BridgeDust(c, trace[0]) + BridgeDustIn(c, trace[1..])
  }

  function BridgeDeltaIn(c: Config, trace: seq<Action>): int
    decreases |trace|
  {
    if trace == [] then 0 else BridgeDelta(c, trace[0]) + BridgeDeltaIn(c, trace[1..])
  }

  /** What others put into the bridge account, less what they took out. */
  function GainIn(trace: seq<Action>): int
    decreases |trace|
  {
    if trace == [] then 0 else (if trace[0].Outside? then trace[0].gain else 0) + GainIn(trace[1..])
  }

  /** What others added to all accounts together. */
  function NetIn(trace: seq<Action>): int
    decreases |trace|
  {
    if trace == [] then 0 else (if trace[0].Outside? then trace[0].net else 0) + NetIn(trace[1..])
  }

  /** Others, too, leave issuance counting what accounts hold. */
  ghost predicate OthersBacked(trace: seq<Action>) {
    forall a :: a in trace && a.Outside? ==> Backed(a.ledger)
  }

  /** All dust burned, whoever lost it. */
  function DustIn(trace: seq<Action>): nat
    decreases |trace|
  {
    if trace == [] then 0
    else (if trace[0].Moved? then trace[0].dust else 0) + DustIn(trace[1..])
  }

  /** By how much the bridge account is ahead of the log after a trace. */
  function Excess(c: Config, trace: seq<Action>): int {
    BridgeDeltaIn(c, trace) - LockedIn(c, trace) + ReleasedIn(trace) + BridgeDustIn(c, trace) - GainIn(trace)
  }

  lemma {:induction false} SumsConcat(c: Config, a: seq<Action>, b: seq<Action>)
    ensures LockedIn(c, a + b) == LockedIn(c, a) + LockedIn(c, b)
    ensures ReleasedIn(a + b) == ReleasedIn(a) + ReleasedIn(b)
    ensures BridgeDustIn(c, a + b) == BridgeDustIn(c, a) + BridgeDustIn(c, b)
    ensures BridgeDeltaIn(c, a + b) == BridgeDeltaIn(c, a) + BridgeDeltaIn(c, b)
    ensures Excess(c, a + b) == Excess(c, a) + Excess(c, b)
    ensures DustIn(a + b) == DustIn(a) + DustIn(b)
    ensures GainIn(a + b) == GainIn(a) + GainIn(b) && NetIn(a + b) == NetIn(a) + NetIn(b)
    decreases |a|
  {
    if a == [] {
      assert a + b == b;
    } else {
      SumsConcat(c, a[1..], b);
      assert (a + b)[0] == a[0] && (a + b)[1..] == a[1..] + b;
    }
  }

  lemma {:induction false} ExcessOne(c: Config, a: Action)
    ensures Excess(c, [a]) == BridgeDelta(c, a) - Locked(c, a) + Released(a) + BridgeDust(c, a)
      - (if a.Outside? then a.gain else 0)
  {
    var rest := [a][1..];
    assert rest == [];
    assert LockedIn(c, rest) == 0 && ReleasedIn(rest) == 0 && BridgeDustIn(c, rest) == 0;
    assert BridgeDeltaIn(c, rest) == 0 && GainIn(rest) == 0;
  }

  // ---------- the ledger side ----------

  lemma {:induction false} LedgerStep(c: Config, s: State, a: Action)
    requires Enabled(c, s, a) && Backed(s.ledger) && (a.Outside? ==> Backed(a.ledger))
    ensures var l' := Apply(c, s, a).ledger;
      && Backed(l')
      && l'.Total(c.bridge) == s.ledger.Total(c.bridge) + BridgeDelta(c, a)
      && Held(l') == Held(s.ledger) - (if a.Moved? then a.dust else 0) + (if a.Outside? then a.net else 0)
  {
    if a.Moved? {
      TransferConserves(s.ledger, a.from, a.to, a.amount);
      TransferMoves(s.ledger, a.from, a.to, a.amount, c.bridge);
    }
  }

  /** Over any legal trace the accounts together change only by dust and by what others do, and issuance matches them. */
  lemma {:induction false} LedgerReplay(c: Config, s: State, trace: seq<Action>)
    requires Legal(c, s, trace) && Backed(s.ledger) && OthersBacked(trace)
    ensures var l' := Replay(c, s, trace).ledger;
      && Backed(l')
      && l'.Total(c.bridge) == s.ledger.Total(c.bridge) + BridgeDeltaIn(c, trace)
      && Held(l') == Held(s.ledger) - DustIn(trace) + NetIn(trace)
    decreases |trace|
  {
    if trace != [] {
      LedgerStep(c, s, trace[0]);
      LedgerReplay(c, Apply(c, s, trace[0]), trace[1..]);
    }
  }

  // ---------- the dispatch side ----------

  /**
   No transfer has the bridge account on both sides of the bargain, at any depth of the call, and foreign
   calls keep issuance matching the accounts.
   */
  ghost predicate Plain(c: Config, o: Origin, call: Call)
    decreases call
  {
    match call
    case Transfer(to, _) => to != c.bridge
    case TransferNative(_, _, _) => o != Signed(c.bridge)
    case SetFeeDestination(destination) => destination != c.bridge
    case Acknowledge(_, _, _, inner) => Plain(c, Signed(c.bridge), inner)
    case Reject(_, _, _, inner) => Plain(c, Signed(c.bridge), inner)
    case EvalVoteState(_, _, inner) => Plain(c, Signed(c.bridge), inner)
    case Foreign(_, effect) => effect.Some? ==> Backed(effect.value)
    case _ => true
  }

  predicate PlainState(c: Config, s: State) {
    s.feeDestination != Some(c.bridge)
  }

  /** The bridge account has no key, so it signs nothing; and no other pallet sends the native token. */
  ghost predicate PlainStep(c: Config, step: Step) {
    match step
    case Extrinsic(o, call) => o != Signed(c.bridge) && Plain(c, o, call)
    case PalletTransfer(_, resource, payload) => resource != c.nativeToken || !payload.Fungible?
    case NewBlock(_) => true
    case External(l) => Backed(l)
  }

  /** The trace leaves the bridge ahead of the log by the given amount and keeps fees away from it. */
  ghost predicate Books(c: Config, trace: seq<Action>, excess: int) {
    && Excess(c, trace) == excess
    && OthersBacked(trace)
    && FeeDestinationChanged(c.bridge) !in trace
  }

  /** A Transfer call itself pays out; the release is logged by the proposal around it. */
  function Owed(c: Config, o: Origin, call: Call, result: Result<Done, Error>): int {
    if call.Transfer? && o == Signed(c.bridge) && result.Ok? then 0 - call.amount else 0
  }

  lemma {:induction false} BooksOne(c: Config, a: Action)
    requires a != FeeDestinationChanged(c.bridge) && (a.Outside? ==> Backed(a.ledger))
    ensures Books(c, [a], BridgeDelta(c, a) - Locked(c, a) + Released(a) + BridgeDust(c, a)
      - (if a.Outside? then a.gain else 0))
  {
    ExcessOne(c, a);
  }

  lemma {:induction false} BooksConcat(c: Config, a: seq<Action>, x: int, b: seq<Action>, y: int)
    requires Books(c, a, x) && Books(c, b, y)
    ensures Books(c, a + b, x + y)
  {
    SumsConcat(c, a, b);
  }

  lemma {:induction false} PlainAfter(c: Config, s: State, trace: seq<Action>)
    requires PlainState(c, s) && FeeDestinationChanged(c.bridge) !in trace
    ensures PlainState(c, Replay(c, s, trace))
    decreases |trace|
  {
    if trace != [] {
      PlainAfter(c, Apply(c, s, trace[0]), trace[1..]);
    }
  }

  lemma {:induction false} DispatchBooks(c: Config, s: State, o: Origin, call: Call)
    requires PlainState(c, s) && Plain(c, o, call)
    ensures var r := Dispatch(c, s, o, call);
      Books(c, r.trace, Owed(c, o, call, r.result))
    decreases call, 4
  {
    ExecuteBooks(c, s, o, call);
  }

  lemma {:induction false} ExecuteBooks(c: Config, s: State, o: Origin, call: Call)
    requires PlainState(c, s) && Plain(c, o, call)
    ensures var r := Execute(c, s, o, call);
      Books(c, r.trace, Owed(c, o, call, r.result))
    decreases call, 3
  {
    match call
    case Acknowledge(nonce, src, resource, inner) => BallotBooks(c, s, o, resource, Key(src, nonce, inner), true);
    case Reject(nonce, src, resource, inner) => BallotBooks(c, s, o, resource, Key(src, nonce, inner), false);
    case EvalVoteState(nonce, src, inner) => ResolveBooks(c, s, Key(src, nonce, inner));
    case TransferNative(amount, recipient, dest) =>
      if o.Signed? {
        SwapOutBooks(c, s, o.who, amount, recipient, dest);
      }
    case _ => SingleBooks(c, s, o, call);
  }

  lemma {:induction false} SingleBooks(c: Config, s: State, o: Origin, call: Call)
    requires !call.Acknowledge? && !call.Reject? && !call.EvalVoteState? && !call.TransferNative?
    requires Plain(c, o, call)
    ensures var r := Execute(c, s, o, call);
      Books(c, r.trace, Owed(c, o, call, r.result))
  {
    var trace := Execute(c, s, o, call).trace;
    if call.Foreign? && call.effect.Some? {
      OutsideBacked(c, s, call.effect.value);
    }
    if trace != [] {
      assert trace == [trace[0]];
      BooksOne(c, trace[0]);
    }
  }

  lemma {:induction false} OutsideBacked(c: Config, s: State, l: Ledger)
    requires Backed(l)
    ensures Backed(OutsideChange(c, s, l).ledger)
  {
  }

  /** A transfer that is not paid by the bridge puts into it exactly what reaches it. */
  lemma {:induction false} MoveBooks(c: Config, s: State, from: AccountId, to: AccountId, amount: nat)
    requires from != c.bridge
    ensures var r := Move(s, from, to, amount);
      Books(c, r.trace, if r.result.Ok? && to == c.bridge then amount else 0)
  {
    if s.ledger.Transfer(from, to, amount).Ok? {
      BooksOne(c, Moved(from, to, amount, s.ledger.Dust(from, to, amount)));
    }
  }

  lemma {:induction false} PayFeeBooks(c: Config, s: State, source: AccountId)
    requires PlainState(c, s) && source != c.bridge
    ensures Books(c, PayFee(s, source).trace, 0)
  {
    if s.feeDestination.Some? {
      MoveBooks(c, s, source, s.feeDestination.value, s.swapFee);
    }
  }

  lemma {:induction false} CollectBooks(c: Config, s: State, source: AccountId, amount: nat)
    requires PlainState(c, s) && source != c.bridge
    ensures var r := Collect(c, s, source, amount);
      Books(c, r.trace, if r.result.Ok? then amount else 0)
  {
    var fee := PayFee(s, source).trace;
    PayFeeBooks(c, s, source);
    var paid := Move(Replay(c, s, fee), source, c.bridge, amount);
    MoveBooks(c, Replay(c, s, fee), source, c.bridge, amount);
    BooksConcat(c, fee, 0, paid.trace, if paid.result.Ok? then amount else 0);
  }

  lemma {:induction false} SwapOutBooks(
      c: Config, s: State, source: AccountId, amount: nat, recipient: Bytes, dest: ChainId)
    requires PlainState(c, s) && source != c.bridge
    ensures Books(c, SwapOut(c, s, source, amount, recipient, dest).trace, 0)
  {
    var paid := Collect(c, s, source, amount);
    CollectBooks(c, s, source, amount);
    if dest in s.nonces && paid.result.Ok? {
      var sent := Sent(dest, s.nonces[dest] + 1, c.nativeToken, Fungible(amount, recipient));
      BooksOne(c, sent);
      BooksConcat(c, paid.trace, amount, [sent], 0 - amount);
    }
  }

  lemma {:induction false} BallotBooks(
      c: Config, s: State, o: Origin, resource: ResourceId, key: Key, inFavour: bool)
    requires PlainState(c, s) && Plain(c, Signed(c.bridge), key.call)
    ensures Books(c, Ballot(c, s, o, resource, key, inFavour).trace, 0)
    decreases key.call, 8
  {
    if Ballot(c, s, o, resource, key, inFavour).trace != [] {
      var vote := Voted(key, o.who, inFavour);
      var rest := Resolve(c, Apply(c, s, vote), key);
      BooksOne(c, vote);
      ResolveBooks(c, Apply(c, s, vote), key);
      BooksConcat(c, [vote], 0, rest.trace, 0);
    }
  }

  lemma {:induction false} ResolveBooks(c: Config, s: State, key: Key)
    requires PlainState(c, s) && Plain(c, Signed(c.bridge), key.call)
    ensures Books(c, Resolve(c, s, key).trace, 0)
    decreases key.call, 7
  {
    if key in s.votes && s.votes[key].Open(s.now) {
      match s.votes[key].Decide(s.threshold, s.relayerCount)
      case Approved => FinalizeBooks(c, s, key);
      case Rejected => BooksOne(c, ProposalRejected(key));
      case Initiated =>
    }
  }

  lemma {:induction false} FinalizeBooks(c: Config, s: State, key: Key)
    requires PlainState(c, s) && Plain(c, Signed(c.bridge), key.call)
    ensures Books(c, Finalize(c, s, key).trace, 0)
    decreases key.call, 6
  {
    var approval, success := ProposalApproved(key), ProposalSucceeded(key);
    var o := Signed(c.bridge);
    var r := Dispatch(c, Apply(c, s, approval), o, key.call);
    var owed := Owed(c, o, key.call, r.result);
    DispatchBooks(c, Apply(c, s, approval), o, key.call);
    BooksOne(c, approval);
    BooksConcat(c, [approval], 0, r.trace, owed);
    if r.result.Ok? {
      BooksOne(c, success);
      BooksConcat(c, [approval] + r.trace, owed, [success], 0 - owed);
    }
  }

  // ---------- whole runs ----------

  /** Everything a run does, in order. */
  function RunTrace(c: Config, s: State, steps: seq<Step>): seq<Action>
    decreases |steps|
  {
    if steps == [] then [] else StepEffect(c, s, steps[0]).trace + RunTrace(c, Next(c, s, steps[0]), steps[1..])
  }

  lemma {:induction false} StepBooks(c: Config, s: State, step: Step)
    requires PlainState(c, s) && PlainStep(c, step)
    ensures Books(c, StepEffect(c, s, step).trace, 0)
  {
    match step
    case Extrinsic(o, call) => DispatchBooks(c, s, o, call);
    case PalletTransfer(dest, resource, payload) =>
      if dest in s.nonces {
        BooksOne(c, Sent(dest, s.nonces[dest] + 1, resource, payload));
      }
    case NewBlock(block) =>
      if s.now <= block {
        BooksOne(c, BlockReached(block));
      }
    case External(l) =>
      OutsideBacked(c, s, l);
      BooksOne(c, OutsideChange(c, s, l));
  }

  /** s' follows from s by a trace that the bridge account is exactly backed by. */
  ghost predicate BackedBy(c: Config, s: State, trace: seq<Action>, s': State) {
    && s'.log == s.log + trace
    && s'.ledger.Total(c.bridge) == s.ledger.Total(c.bridge)
         + LockedIn(c, trace) - ReleasedIn(trace) - BridgeDustIn(c, trace) + GainIn(trace)
    && Held(s'.ledger) == Held(s.ledger) - DustIn(trace) + NetIn(trace)
    && Backed(s'.ledger)
  }

  lemma {:induction false} LogAssoc(a: seq<Action>, b: seq<Action>, c: seq<Action>)
    ensures (a + b) + c == a + (b + c)
  {
  }

  lemma {:induction false} BackedByConcat(
      c: Config, s: State, a: seq<Action>, s1: State, b: seq<Action>, s2: State)
    requires BackedBy(c, s, a, s1) && BackedBy(c, s1, b, s2)
    ensures BackedBy(c, s, a + b, s2)
  {
    SumsConcat(c, a, b);
    LogAssoc(s.log, a, b);
  }

  lemma {:induction false} StepBacked(c: Config, s: State, step: Step)
    requires Settled(s) && Backed(s.ledger) && PlainState(c, s) && PlainStep(c, step)
    ensures BackedBy(c, s, StepEffect(c, s, step).trace, Next(c, s, step))
    ensures Settled(Next(c, s, step)) && PlainState(c, Next(c, s, step))
  {
    var trace := StepEffect(c, s, step).trace;
    StepBooks(c, s, step);
    StepSound(c, s, step);
    SettledAfter(c, s, trace);
    LedgerReplay(c, s, trace);
    ReplayLog(c, s, trace);
    PlainAfter(c, s, trace);
  }

  /**
   The backing law. When the bridge account is never a source, a fee destination or a recipient, its
   balance moves by exactly what the log locks, less what it releases, less dust, plus what others put in
   or took out; and all accounts together change by nothing but dust and what others did.
   */
  lemma {:induction false} RunBacked(c: Config, s: State, steps: seq<Step>)
    requires Settled(s) && Backed(s.ledger)
    requires PlainState(c, s) && forall step :: step in steps ==> PlainStep(c, step)
    ensures BackedBy(c, s, RunTrace(c, s, steps), Run(c, s, steps))
    decreases |steps|
  {
    if steps == [] {
      assert s.log + [] == s.log;
    } else {
      assert PlainStep(c, steps[0]);
      var s1 := Next(c, s, steps[0]);
      StepBacked(c, s, steps[0]);
      RunBacked(c, s1, steps[1..]);
      BackedByConcat(c, s, StepEffect(c, s, steps[0]).trace, s1,
        RunTrace(c, s1, steps[1..]), Run(c, s, steps));
    }
  }
}
