/**
 What every run of the bridge keeps. The stored state is a function of the action log, and the log alone
 shows that proposals execute at most once, that approvals had the votes, and that nonces have no gap.
 */
module BridgeSafety {
  import opened Wrappers
  import opened Ledgers
  import opened Bridge
  import opened BridgeTraces

  // ---------- reading the log ----------

  /** The relayers that voted on one side of a proposal, in order. */
  function Voters(log: seq<Action>, key: Key, inFavour: bool): seq<AccountId>
    decreases |log|
  {
    if log == [] then []
    else
      var last, rest := log[|log| - 1], Voters(log[..|log| - 1], key, inFavour);
      if last.Voted? && last.key == key && last.inFavour == inFavour then rest + [last.who] else rest
  }

  /** The threshold in force after the logged actions; one until it is first set. */
  function ThresholdAt(log: seq<Action>): nat
    decreases |log|
  {
    if log == [] then 1
    else
      var last := log[|log| - 1];
      if last.ThresholdChanged? then last.threshold else ThresholdAt(log[..|log| - 1])
  }

  /** The relayers registered and not removed again. */
  function RelayersAt(log: seq<Action>): set<AccountId>
    decreases |log|
  {
    if log == [] then {}
    else
      var last, rest := log[|log| - 1], RelayersAt(log[..|log| - 1]);
      if last.RelayerAdded? then rest + {last.relayer}
      else if last.RelayerRemoved? then rest - {last.relayer}
      else rest
  }

  /** The nonces of all transfers sent to one chain, fungible or not, in order. */
  function SentNonces(log: seq<Action>, dest: ChainId): seq<Nonce>
    decreases |log|
  {
    if log == [] then []
    else
      var last, rest := log[|log| - 1], SentNonces(log[..|log| - 1], dest);
      if last.Sent? && last.dest == dest then rest + [last.nonce] else rest
  }

  /** The block in force after the logged actions; zero until one is reached. */
  function NowAt(log: seq<Action>): nat
    decreases |log|
  {
    if log == [] then 0
    else
      var last := log[|log| - 1];
      if last.BlockReached? then last.block else NowAt(log[..|log| - 1])
  }

  /** The block in force at the first vote on a proposal, if there has been one. */
  function FirstVote(log: seq<Action>, key: Key): Option<nat>
    decreases |log|
  {
    if log == [] then None
    else
      var last, before := log[|log| - 1], log[..|log| - 1];
      var earlier := FirstVote(before, key);
      if earlier.Some? then earlier
      else if last.Voted? && last.key == key then Some(NowAt(before))
      else None
  }

  lemma {:induction false} Snoc(log: seq<Action>, a: Action)
    ensures (log + [a])[..|log|] == log && (log + [a])[|log|] == a
  {
  }

  /** 1, 2, ..., k. */
  function CountTo(k: nat): seq<Nonce> {
    seq(k, i => i + 1)
  }

  function StoredNonce(s: State, dest: ChainId): Nonce {
    if dest in s.nonces then s.nonces[dest] else 0
  }

  function Stored(s: State, key: Key, inFavour: bool): seq<AccountId> {
    if key in s.votes then s.votes[key].Side(inFavour) else []
  }

  // ---------- the invariant ----------

  ghost predicate NoDuplicates<T>(q: seq<T>) {
    forall i, j :: 0 <= i < j < |q| ==> q[i] != q[j]
  }

  /** Nobody votes twice: both voter lists are duplicate-free and they share no relayer. */
  ghost predicate OneVoteEach(v: Votes) {
    && NoDuplicates(v.votesFor)
    && NoDuplicates(v.votesAgainst)
    && forall who :: !(who in v.votesFor && who in v.votesAgainst)
  }

  ghost predicate VotesSound(s: State) {
    forall key :: key in s.votes ==> OneVoteEach(s.votes[key])
  }

  /** The relayer set, its count and the threshold are what the log says. */
  ghost predicate SettingsLogged(s: State) {
    && s.relayerCount == |s.relayers|
    && s.relayers == RelayersAt(s.log)
    && s.threshold == ThresholdAt(s.log)
    && s.threshold > 0
  }

  ghost predicate VotesLogged(s: State) {
    forall key, inFavour :: Voters(s.log, key, inFavour) == Stored(s, key, inFavour)
  }

  /** A record exists from the first vote on, and expires its lifetime after the block of that vote. */
  ghost predicate TimesLogged(c: Config, s: State) {
    && s.now == NowAt(s.log)
    && forall key :: match FirstVote(s.log, key)
         case None => key !in s.votes
         case Some(block) => key in s.votes && s.votes[key].expiry == block + c.lifetime
  }

  /** The transfers to every chain carry the nonces 1, 2, ..., k and the stored counter is k. */
  ghost predicate NoncesLogged(s: State) {
    forall dest :: SentNonces(s.log, dest) == CountTo(StoredNonce(s, dest))
  }

  ghost predicate AtMostOnce(s: State) {
    forall key {:trigger ProposalSucceeded(key)} :: multiset(s.log)[ProposalSucceeded(key)] <= 1
  }

  /** A status is final exactly when the log holds the matching decision. */
  ghost predicate OutcomesLogged(s: State) {
    forall key {:trigger ProposalApproved(key)} {:trigger ProposalRejected(key)} ::
      && (ProposalApproved(key) in s.log <==> key in s.votes && s.votes[key].status == Approved)
      && (ProposalRejected(key) in s.log <==> key in s.votes && s.votes[key].status == Rejected)
  }

  /** A decision was backed by the votes, the threshold and the relayers in force at that moment. */
  ghost predicate Justified(before: seq<Action>, a: Action) {
    match a
    case ProposalApproved(key) => |Voters(before, key, true)| >= ThresholdAt(before)
    case ProposalRejected(key) =>
      && |Voters(before, key, true)| < ThresholdAt(before) <= |RelayersAt(before)|
      && |RelayersAt(before)| - |Voters(before, key, false)| < ThresholdAt(before)
    case _ => true
  }

  ghost predicate DecisionsJustified(s: State) {
    forall i :: 0 <= i < |s.log| ==> Justified(s.log[..i], s.log[i])
  }

  ghost predicate Inv(c: Config, s: State) {
    && Settled(s)
    && VotesSound(s)
    && SettingsLogged(s)
    && VotesLogged(s)
    && TimesLogged(c, s)
    && NoncesLogged(s)
    && AtMostOnce(s)
    && OutcomesLogged(s)
    && DecisionsJustified(s)
  }

  // ---------- preserved by every action ----------

  lemma {:induction false} PushSound(v: Votes, who: AccountId, inFavour: bool)
    requires OneVoteEach(v) && !v.HasVoted(who)
    ensures OneVoteEach(v.Push(who, inFavour))
  {
  }

  lemma {:induction false} VotesSoundStep(c: Config, s: State, a: Action)
    requires Enabled(c, s, a) && VotesSound(s)
    ensures VotesSound(Apply(c, s, a))
  {
    if a.Voted? {
      PushSound(Record(c, s, a.key), a.who, a.inFavour);
    }
  }

  lemma {:induction false} SettingsStep(c: Config, s: State, a: Action)
    requires Enabled(c, s, a) && SettingsLogged(s)
    ensures SettingsLogged(Apply(c, s, a))
  {
    Snoc(s.log, a);
    var s' := Apply(c, s, a);
    assert RelayersAt(s'.log) == s'.relayers;
    assert ThresholdAt(s'.log) == s'.threshold;
    if a.RelayerRemoved? {
      assert s.relayers == s'.relayers + {a.relayer};
    }
  }

  lemma {:induction false} VotesLoggedStep(c: Config, s: State, a: Action)
    requires Enabled(c, s, a) && VotesLogged(s)
    ensures VotesLogged(Apply(c, s, a))
  {
    Snoc(s.log, a);
    var s' := Apply(c, s, a);
    forall key, inFavour
      ensures Voters(s'.log, key, inFavour) == Stored(s', key, inFavour)
    {
      assert Voters(s.log, key, inFavour) == Stored(s, key, inFavour);
    }
  }

  lemma {:induction false} TimesStep(c: Config, s: State, a: Action)
    requires Enabled(c, s, a) && TimesLogged(c, s)
    ensures TimesLogged(c, Apply(c, s, a))
  {
    Snoc(s.log, a);
    var s' := Apply(c, s, a);
    assert s'.now == NowAt(s'.log);
    forall key
      ensures match FirstVote(s'.log, key)
        case None => key !in s'.votes
        case Some(block) => key in s'.votes && s'.votes[key].expiry == block + c.lifetime
    {
      assert match FirstVote(s.log, key)
        case None => key !in s.votes
        case Some(block) => key in s.votes && s.votes[key].expiry == block + c.lifetime;
    }
  }

  lemma {:induction false} NoncesStep(c: Config, s: State, a: Action)
    requires Enabled(c, s, a) && NoncesLogged(s)
    ensures NoncesLogged(Apply(c, s, a))
  {
    Snoc(s.log, a);
    var s' := Apply(c, s, a);
    forall dest
      ensures SentNonces(s'.log, dest) == CountTo(StoredNonce(s', dest))
    {
      assert SentNonces(s.log, dest) == CountTo(StoredNonce(s, dest));
    }
  }

  lemma {:induction false} OutcomesStep(c: Config, s: State, a: Action)
    requires Enabled(c, s, a) && OutcomesLogged(s)
    ensures OutcomesLogged(Apply(c, s, a))
  {
    var s' := Apply(c, s, a);
    forall key {:trigger ProposalApproved(key)}
      ensures ProposalApproved(key) in s'.log <==> key in s'.votes && s'.votes[key].status == Approved
      ensures ProposalRejected(key) in s'.log <==> key in s'.votes && s'.votes[key].status == Rejected
    {
      assert ProposalApproved(key) in s.log <==> key in s.votes && s.votes[key].status == Approved;
      assert ProposalRejected(key) in s.log <==> key in s.votes && s.votes[key].status == Rejected;
    }
  }

  lemma {:induction false} OnceStep(c: Config, s: State, a: Action)
    requires Enabled(c, s, a) && AtMostOnce(s)
    ensures AtMostOnce(Apply(c, s, a))
  {
    var s' := Apply(c, s, a);
    assert multiset(s'.log) == multiset(s.log) + multiset{a};
    forall key {:trigger ProposalSucceeded(key)}
      ensures multiset(s'.log)[ProposalSucceeded(key)] <= 1
    {
      assert multiset(s.log)[ProposalSucceeded(key)] <= 1;
      assert ProposalSucceeded(key) !in s.log ==> multiset(s.log)[ProposalSucceeded(key)] == 0;
    }
  }

  lemma {:induction false} JustifiedStep(c: Config, s: State, a: Action)
    requires Enabled(c, s, a) && SettingsLogged(s) && VotesLogged(s) && DecisionsJustified(s)
    ensures DecisionsJustified(Apply(c, s, a))
  {
    var s' := Apply(c, s, a);
    Snoc(s.log, a);
    assert Justified(s.log, a);
    forall i | 0 <= i < |s'.log|
      ensures Justified(s'.log[..i], s'.log[i])
    {
      if i < |s.log| {
        assert s'.log[..i] == s.log[..i];
        assert Justified(s.log[..i], s.log[i]);
      }
    }
  }

  lemma {:induction false} InvStep(c: Config, s: State, a: Action)
    requires Enabled(c, s, a) && Inv(c, s)
    ensures Inv(c, Apply(c, s, a))
  {
    SettledStays(c, s, a);
    VotesSoundStep(c, s, a);
    SettingsStep(c, s, a);
    VotesLoggedStep(c, s, a);
    TimesStep(c, s, a);
    NoncesStep(c, s, a);
    OnceStep(c, s, a);
    OutcomesStep(c, s, a);
    JustifiedStep(c, s, a);
  }

  lemma {:induction false} InvReplay(c: Config, s: State, trace: seq<Action>)
    requires Legal(c, s, trace) && Inv(c, s)
    ensures Inv(c, Replay(c, s, trace))
    decreases |trace|
  {
    if trace != [] {
      InvStep(c, s, trace[0]);
      InvReplay(c, Apply(c, s, trace[0]), trace[1..]);
    }
  }

  // ---------- whole runs ----------

  lemma {:induction false} StepSound(c: Config, s: State, step: Step)
    requires Settled(s)
    ensures Sound(c, s, StepEffect(c, s, step).trace)
  {
    match step
    case Extrinsic(o, call) => DispatchSound(c, s, o, call);
    case PalletTransfer(dest, resource, payload) =>
      if dest in s.nonces {
        SoundOne(c, s, Sent(dest, s.nonces[dest] + 1, resource, payload));
      }
    case NewBlock(block) =>
      if s.now <= block {
        SoundOne(c, s, BlockReached(block));
      }
    case External(l) => SoundOne(c, s, OutsideChange(c, s, l));
  }

  lemma {:induction false} DispatchKeepsInv(c: Config, s: State, o: Origin, call: Call)
    requires Inv(c, s)
    ensures Inv(c, Replay(c, s, Dispatch(c, s, o, call).trace))
  {
    DispatchSound(c, s, o, call);
    InvReplay(c, s, Dispatch(c, s, o, call).trace);
  }

  lemma {:induction false} StepKeepsInv(c: Config, s: State, step: Step)
    requires Inv(c, s)
    ensures Inv(c, Next(c, s, step))
  {
    StepSound(c, s, step);
    InvReplay(c, s, StepEffect(c, s, step).trace);
  }

  /** Every run, from any state that satisfies the invariant, ends in one that does. */
  lemma {:induction false} RunKeepsInv(c: Config, s: State, steps: seq<Step>)
    requires Inv(c, s)
    ensures Inv(c, Run(c, s, steps))
    decreases |steps|
  {
    if steps != [] {
      StepKeepsInv(c, s, steps[0]);
      RunKeepsInv(c, Next(c, s, steps[0]), steps[1..]);
    }
  }

  /** A proposal that is approved, rejected or expired keeps its record for the rest of the run. */
  lemma {:induction false} RunKeepsClosed(c: Config, s: State, steps: seq<Step>, key: Key)
    requires Settled(s) && Closed(s, key)
    ensures key in Run(c, s, steps).votes && Run(c, s, steps).votes[key] == s.votes[key]
    decreases |steps|
  {
    if steps != [] {
      var trace := StepEffect(c, s, steps[0]).trace;
      StepSound(c, s, steps[0]);
      ClosedForever(c, s, trace, key);
      SettledAfter(c, s, trace);
      RunKeepsClosed(c, Next(c, s, steps[0]), steps[1..], key);
    }
  }

  // ---------- genesis ----------

  lemma {:induction false} GenesisInv(c: Config, l: Ledger, fee: nat, destination: Option<AccountId>)
    ensures Inv(c, Genesis(l, fee, destination))
  {
  }

  predicate IsSetup(a: Action) {
    a.Whitelisted? || a.RelayerAdded? || a.ResourceSet? || a.ThresholdChanged?
  }

  /** A setup action is accepted when it repeats no earlier one and respects its own bound. */
  predicate Accepted(c: Config, earlier: seq<Action>, a: Action) {
    match a
    case Whitelisted(chain) => chain != c.ownChain && a !in earlier
    case RelayerAdded(_) => a !in earlier
    case ThresholdChanged(threshold) => threshold > 0
    case _ => true
  }

  lemma {:induction false} SetupState(c: Config, g: State, trace: seq<Action>)
    requires g.nonces == map[] && g.relayers == {}
    requires forall a :: a in trace ==> IsSetup(a)
    ensures var s := Replay(c, g, trace);
      && (forall chain {:trigger Whitelisted(chain)} :: chain in s.nonces <==> Whitelisted(chain) in trace)
      && (forall who {:trigger RelayerAdded(who)} :: who in s.relayers <==> RelayerAdded(who) in trace)
    decreases |trace|
  {
    if trace != [] {
      var n := |trace| - 1;
      var before, last := trace[..n], trace[n];
      SetupState(c, g, before);
      assert trace == before + [last] && last in trace;
      ReplayConcat(c, g, before, [last]);
      ReplayOne(c, Replay(c, g, before), last);
      assert forall a :: a in trace <==> a in before || a == last;
    }
  }

  lemma {:induction false} SetupAccepted(c: Config, g: State, trace: seq<Action>)
    requires g.nonces == map[] && g.relayers == {}
    requires forall a :: a in trace ==> IsSetup(a)
    ensures Legal(c, g, trace) <==> AllAccepted(c, trace)
    decreases |trace|
  {
    if trace != [] {
      var n := |trace| - 1;
      var before, last := trace[..n], trace[n];
      assert trace == before + [last];
      SetupAccepted(c, g, before);
      SetupState(c, g, before);
      assert last in trace;
      assert Enabled(c, Replay(c, g, before), last) <==> Accepted(c, before, last);
      LegalSnoc(c, g, before, last);
      AcceptedSnoc(c, trace);
    }
  }

  predicate AllAccepted(c: Config, trace: seq<Action>) {
    forall i :: 0 <= i < |trace| ==> Accepted(c, trace[..i], trace[i])
  }

  lemma {:induction false} AcceptedSnoc(c: Config, trace: seq<Action>)
    requires trace != []
    ensures var n := |trace| - 1;
      AllAccepted(c, trace) <==> AllAccepted(c, trace[..n]) && Accepted(c, trace[..n], trace[n])
  {
    var before := trace[..|trace| - 1];
    forall i | 0 <= i < |before|
      ensures before[..i] == trace[..i] && before[i] == trace[i]
    {
    }
  }

  lemma {:induction false} LegalSnoc(c: Config, s: State, before: seq<Action>, last: Action)
    ensures Legal(c, s, before + [last]) <==> Legal(c, s, before) && Enabled(c, Replay(c, s, before), last)
  {
    if Legal(c, s, before + [last]) {
      LegalSplit(c, s, before, [last]);
    } else if Legal(c, s, before) && Enabled(c, Replay(c, s, before), last) {
      LegalOne(c, Replay(c, s, before), last);
      LegalConcat(c, s, before, [last]);
    }
  }

  /** Genesis succeeds exactly for distinct foreign chains, distinct relayers and a positive threshold. */
  lemma {:induction false} SetupLegal(
      c: Config, l: Ledger, fee: nat, destination: Option<AccountId>,
      chains: seq<ChainId>, members: seq<AccountId>, handlers: seq<(ResourceId, Bytes)>, threshold: nat)
    ensures Legal(c, Genesis(l, fee, destination), Setup(chains, members, handlers, threshold)) <==>
      c.ownChain !in chains && NoDuplicates(chains) && NoDuplicates(members) && threshold > 0
  {
    var trace := Setup(chains, members, handlers, threshold);
    SetupAccepted(c, Genesis(l, fee, destination), trace);
    var m, n := |chains|, |chains| + |members|;
    ChainEntries(c, trace, chains);
    MemberEntries(c, trace, m, members);
    forall i | n <= i < |trace| - 1
      ensures Accepted(c, trace[..i], trace[i])
    {
      assert trace[i].ResourceSet?;
    }
    var last := |trace| - 1;
    assert Accepted(c, trace[..last], trace[last]) <==> threshold > 0;
    AllEntries(c, trace, m, n, threshold > 0, c.ownChain !in chains && NoDuplicates(chains), NoDuplicates(members));
  }

  /** The whole safety invariant, in every state reachable from a genesis that succeeds. */
  lemma {:induction false} SafeForever(
      c: Config, l: Ledger, fee: nat, destination: Option<AccountId>,
      chains: seq<ChainId>, members: seq<AccountId>, handlers: seq<(ResourceId, Bytes)>, threshold: nat,
      steps: seq<Step>)
    requires c.ownChain !in chains && NoDuplicates(chains) && NoDuplicates(members) && threshold > 0
    ensures var g := Genesis(l, fee, destination);
      Inv(c, Run(c, Replay(c, g, Setup(chains, members, handlers, threshold)), steps))
  {
    var g, trace := Genesis(l, fee, destination), Setup(chains, members, handlers, threshold);
    GenesisInv(c, l, fee, destination);
    SetupLegal(c, l, fee, destination, chains, members, handlers, threshold);
    InvReplay(c, g, trace);
    RunKeepsInv(c, Replay(c, g, trace), steps);
  }

  /** A trace is accepted when its three parts and its last action are. */
  lemma {:induction false} AllEntries(
      c: Config, trace: seq<Action>, m: nat, n: nat, last: bool, chains: bool, members: bool)
    requires m <= n < |trace|
    requires chains <==> forall i :: 0 <= i < m ==> Accepted(c, trace[..i], trace[i])
    requires members <==> forall i :: m <= i < n ==> Accepted(c, trace[..i], trace[i])
    requires forall i :: n <= i < |trace| - 1 ==> Accepted(c, trace[..i], trace[i])
    requires last <==> Accepted(c, trace[..|trace| - 1], trace[|trace| - 1])
    ensures AllAccepted(c, trace) <==> chains && members && last
  {
    if chains && members && last {
      forall i | 0 <= i < |trace|
        ensures Accepted(c, trace[..i], trace[i])
      {
        if i == |trace| - 1 {
        } else if i < m {
        } else if i < n {
        } else {
        }
      }
    }
  }

  lemma {:induction false} ChainEntries(c: Config, trace: seq<Action>, chains: seq<ChainId>)
    requires |chains| <= |trace|
    requires forall i :: 0 <= i < |chains| ==> trace[i] == Whitelisted(chains[i])
    ensures (c.ownChain !in chains && NoDuplicates(chains)) <==>
      forall i :: 0 <= i < |chains| ==> Accepted(c, trace[..i], trace[i])
  {
    NoDuplicatesByPrefix(chains);
    forall i | 0 <= i < |chains|
      ensures Accepted(c, trace[..i], trace[i]) <==> chains[i] != c.ownChain && chains[i] !in chains[..i]
    {
      var earlier := trace[..i];
      if chains[i] in chains[..i] {
        var j :| 0 <= j < i && chains[j] == chains[i];
        assert earlier[j] == trace[i];
      }
      if trace[i] in earlier {
        var j :| 0 <= j < i && earlier[j] == trace[i];
        assert chains[..i][j] == chains[i];
      }
    }
  }

  lemma {:induction false} MemberEntries(c: Config, trace: seq<Action>, m: nat, members: seq<AccountId>)
    requires m + |members| <= |trace|
    requires forall i :: 0 <= i < m ==> trace[i].Whitelisted?
    requires forall i :: 0 <= i < |members| ==> trace[m + i] == RelayerAdded(members[i])
    ensures NoDuplicates(members) <==> forall i :: m <= i < m + |members| ==> Accepted(c, trace[..i], trace[i])
  {
    NoDuplicatesByPrefix(members);
    forall i | 0 <= i < |members|
      ensures Accepted(c, trace[..m + i], trace[m + i]) <==> members[i] !in members[..i]
    {
      var earlier := trace[..m + i];
      if members[i] in members[..i] {
        var j :| 0 <= j < i && members[j] == members[i];
        assert earlier[m + j] == trace[m + i];
      }
      if trace[m + i] in earlier {
        var k :| 0 <= k < m + i && earlier[k] == trace[m + i];
        assert earlier[k] == trace[k];
        assert k >= m;
        assert trace[m + (k - m)] == RelayerAdded(members[k - m]);
        assert members[..i][k - m] == members[i];
      }
    }
    if forall i :: m <= i < m + |members| ==> Accepted(c, trace[..i], trace[i]) {
      forall i | 0 <= i < |members|
        ensures members[i] !in members[..i]
      {
        assert Accepted(c, trace[..m + i], trace[m + i]);
      }
    }
    if forall i :: 0 <= i < |members| ==> members[i] !in members[..i] {
      forall i | m <= i < m + |members|
        ensures Accepted(c, trace[..i], trace[i])
      {
        assert members[i - m] !in members[..i - m] && m + (i - m) == i;
      }
    }
  }

  lemma {:induction false} NoDuplicatesByPrefix<T>(q: seq<T>)
    ensures NoDuplicates(q) <==> forall i :: 0 <= i < |q| ==> q[i] !in q[..i]
  {
    if !NoDuplicates(q) {
      var i, j :| 0 <= i < j < |q| && q[i] == q[j];
      assert q[..j][i] == q[j];
    }
  }
}
