/**
 The order of votes does not matter. Once every relayer has attempted its vote on a proposal, the outcome
 depends only on how many were in favour, whatever else happens on the chain between the votes.
 */
module BridgeVoting {
  import opened Wrappers
  import opened Ledgers
  import opened Bridge
  import opened BridgeTraces
  import opened BridgeSafety

  datatype Choice = Choice(who: AccountId, inFavour: bool)

  function Attempt(key: Key, resource: ResourceId, b: Choice): Step {
    Extrinsic(Signed(b.who),
      if b.inFavour then Acknowledge(key.nonce, key.src, resource, key.call)
      else Reject(key.nonce, key.src, resource, key.call))
  }

  /** A run consists of attempts to vote and of anything else. */
  datatype Event = Cast(choice: Choice) | Other(step: Step)

  function StepOf(key: Key, resource: ResourceId, e: Event): Step {
    if e.Cast? then Attempt(key, resource, e.choice) else e.step
  }

  function StepsOf(key: Key, resource: ResourceId, events: seq<Event>): (r: seq<Step>)
    ensures |r| == |events|
  {
    if events == [] then [] else [StepOf(key, resource, events[0])] + StepsOf(key, resource, events[1..])
  }

  /** The attempts of a run, in order. */
  function Choices(events: seq<Event>): seq<Choice> {
    if events == [] then []
    else if events[0].Cast? then [events[0].choice] + Choices(events[1..])
    else Choices(events[1..])
  }

  /** The relayers on one side, in voting order. */
  function Side(choices: seq<Choice>, inFavour: bool): seq<AccountId> {
    if choices == [] then []
    else
      var last, rest := choices[|choices| - 1], Side(choices[..|choices| - 1], inFavour);
      if last.inFavour == inFavour then rest + [last.who] else rest
  }

  function Whos(choices: seq<Choice>): set<AccountId> {
    set b | b in choices :: b.who
  }

  ghost predicate Distinct(choices: seq<Choice>) {
    forall i, j :: 0 <= i < j < |choices| ==> choices[i].who != choices[j].who
  }

  /** The lifetime of a proposal, counted from the block of the first vote in the log, has not passed. */
  predicate InTime(c: Config, s: State, key: Key) {
    match FirstVote(s.log, key)
    case None => true
    case Some(block) => s.now < block + c.lifetime
  }

  predicate Undecided(s: State, key: Key) {
    key !in s.votes || s.votes[key].status == Initiated
  }

  /** A step that leaves relayers, threshold and the record alone, within the lifetime of the proposal. */
  predicate Quiet(c: Config, s: State, s': State, key: Key, resource: ResourceId) {
    && s'.relayers == s.relayers && s'.relayerCount == s.relayerCount && s'.threshold == s.threshold
    && key.src in s'.nonces && resource in s'.resources
    && (key in s'.votes <==> key in s.votes)
    && (key in s.votes ==> s'.votes[key] == s.votes[key])
    && InTime(c, s', key)
  }

  /** If this vote approves the proposal, its call succeeds. */
  predicate CallSucceeds(c: Config, s: State, key: Key, b: Choice) {
    var s1 := Apply(c, s, Voted(key, b.who, b.inFavour));
    key in s1.votes && s1.votes[key].Decide(s1.threshold, s1.relayerCount) == Approved ==>
      Dispatch(c, Apply(c, s1, ProposalApproved(key)), Signed(c.bridge), key.call).result.Ok?
  }

  /** While the proposal is undecided its call does not fail and everything but the votes is quiet. */
  predicate Smooth(c: Config, s: State, key: Key, resource: ResourceId, events: seq<Event>)
    decreases |events|
  {
    events == [] ||
      var step := StepOf(key, resource, events[0]);
      && (Undecided(s, key) ==>
            if events[0].Cast? then CallSucceeds(c, s, key, events[0].choice)
            else Quiet(c, s, Next(c, s, step), key, resource))
      && Smooth(c, Next(c, s, step), key, resource, events[1..])
  }

  /** After the given choices the record is still open and the settings of s0 are in force. */
  predicate StillOpen(c: Config, s0: State, s: State, key: Key, resource: ResourceId, done: seq<Choice>) {
    && s.relayers == s0.relayers && s.relayerCount == s0.relayerCount && s.threshold == s0.threshold
    && key.src in s.nonces && resource in s.resources
    && var v := Record(c, s, key);
    && v.votesFor == Side(done, true) && v.votesAgainst == Side(done, false) && v.Open(s.now)
    && (done != [] ==> key in s.votes && v.Decide(s.threshold, s.relayerCount) == Initiated)
  }

  predicate Has(s: State, key: Key, status: Status) {
    key in s.votes && s.votes[key].status == status
  }

  lemma {:induction false} SideSnoc(done: seq<Choice>, b: Choice, inFavour: bool)
    ensures Side(done + [b], inFavour) == if b.inFavour == inFavour then Side(done, inFavour) + [b.who] else Side(done, inFavour)
  {
    assert (done + [b])[..|done|] == done;
  }

  lemma {:induction false} SideSizes(choices: seq<Choice>)
    ensures |Side(choices, true)| + |Side(choices, false)| == |choices|
  {
    if choices != [] {
      SideSizes(choices[..|choices| - 1]);
    }
  }

  lemma {:induction false} SideMembers(choices: seq<Choice>, inFavour: bool, who: AccountId)
    requires who in Side(choices, inFavour)
    ensures who in Whos(choices)
  {
    var last := choices[|choices| - 1];
    if !(last.inFavour == inFavour && last.who == who) {
      SideMembers(choices[..|choices| - 1], inFavour, who);
    }
  }

  lemma {:induction false} SideGrows(a: seq<Choice>, b: seq<Choice>, inFavour: bool)
    ensures |Side(a, inFavour)| <= |Side(a + b, inFavour)|
    decreases |b|
  {
    if b == [] {
      assert a + b == a;
    } else {
      var n := |b| - 1;
      SideGrows(a, b[..n], inFavour);
      SideSnoc(a + b[..n], b[n], inFavour);
      assert a + b == a + b[..n] + [b[n]];
    }
  }

  lemma {:induction false} DistinctSize(choices: seq<Choice>)
    requires Distinct(choices)
    ensures |Whos(choices)| == |choices|
  {
    if choices != [] {
      var n := |choices| - 1;
      DistinctSize(choices[..n]);
      assert choices == choices[..n] + [choices[n]];
      assert Whos(choices) == Whos(choices[..n]) + {choices[n].who};
    }
  }

  // ---------- one attempt ----------

  /** What deciding an open record does to it, provided the call of an approved proposal succeeds. */
  lemma {:induction false} ResolveOutcome(c: Config, s: State, key: Key)
    requires Settled(s)
    requires key in s.votes && s.votes[key].Open(s.now)
    requires Resolve(c, s, key).result.Ok?
    ensures var s' := Replay(c, s, Resolve(c, s, key).trace);
      match s.votes[key].Decide(s.threshold, s.relayerCount)
      case Initiated => s' == s
      case outcome => Has(s', key, outcome) && Closed(s', key)
    ensures Legal(c, s, Resolve(c, s, key).trace)
  {
    var trace := Resolve(c, s, key).trace;
    ResolveSound(c, s, key);
    match s.votes[key].Decide(s.threshold, s.relayerCount)
    case Initiated =>
    case Rejected => LegalOne(c, s, ProposalRejected(key));
    case Approved =>
      assert trace[0] == ProposalApproved(key);
      ClosedForever(c, Apply(c, s, trace[0]), trace[1..], key);
  }

  /** An accepted attempt on an open record adds the vote and then tries to resolve. */
  lemma {:induction false} AttemptParts(c: Config, s: State, key: Key, resource: ResourceId, b: Choice)
    requires key.src in s.nonces && resource in s.resources
    requires Enabled(c, s, Voted(key, b.who, b.inFavour))
    ensures var step := Attempt(key, resource, b); var vote := Voted(key, b.who, b.inFavour);
      StepEffect(c, s, step).result.Ok? ==>
        StepEffect(c, s, step) == Resolve(c, Apply(c, s, vote), key).After([vote])
  {
    var step := Attempt(key, resource, b);
    var ballot := Ballot(c, s, Signed(b.who), resource, key, b.inFavour);
    assert Execute(c, s, Signed(b.who), step.call) == ballot;
    if StepEffect(c, s, step).result.Ok? {
      assert StepEffect(c, s, step) == Dispatch(c, s, Signed(b.who), step.call) == ballot;
    }
  }

  /** Such an attempt succeeds unless the call of the proposal fails. */
  lemma {:induction false} AttemptSucceeds(c: Config, s: State, key: Key, resource: ResourceId, b: Choice)
    requires key.src in s.nonces && resource in s.resources
    requires Enabled(c, s, Voted(key, b.who, b.inFavour)) && CallSucceeds(c, s, key, b)
    ensures StepEffect(c, s, Attempt(key, resource, b)).result.Ok?
  {
    var vote := Voted(key, b.who, b.inFavour);
    ResolveSucceeds(c, Apply(c, s, vote), key);
    var ballot := Ballot(c, s, Signed(b.who), resource, key, b.inFavour);
    assert Execute(c, s, Signed(b.who), Attempt(key, resource, b).call) == ballot;
  }

  lemma {:induction false} ResolveSucceeds(c: Config, s: State, key: Key)
    requires key in s.votes && s.votes[key].Open(s.now)
    requires s.votes[key].Decide(s.threshold, s.relayerCount) == Approved ==>
      Dispatch(c, Apply(c, s, ProposalApproved(key)), Signed(c.bridge), key.call).result.Ok?
    ensures Resolve(c, s, key).result.Ok?
  {
  }

  /** A first vote opens the record for the whole lifetime, a later one finds it open. */
  lemma {:induction false} VotePossible(
      c: Config, s0: State, s: State, key: Key, resource: ResourceId, done: seq<Choice>, b: Choice)
    requires c.lifetime > 0 && StillOpen(c, s0, s, key, resource, done)
    requires b.who in s0.relayers && b.who !in Whos(done)
    ensures Enabled(c, s, Voted(key, b.who, b.inFavour))
  {
    NotVoted(done, b);
  }

  /** One attempt on an open record by a relayer that has not voted yet. */
  lemma {:induction false} AttemptOutcome(
      c: Config, s0: State, s: State, key: Key, resource: ResourceId, done: seq<Choice>, b: Choice)
    requires Settled(s) && c.lifetime > 0
    requires StillOpen(c, s0, s, key, resource, done)
    requires b.who in s0.relayers && b.who !in Whos(done)
    requires StepEffect(c, s, Attempt(key, resource, b)).result.Ok?
    ensures var s' := Next(c, s, Attempt(key, resource, b)); var now := done + [b];
      match Votes(Side(now, true), Side(now, false), Initiated, 0).Decide(s0.threshold, s0.relayerCount)
      case Initiated => StillOpen(c, s0, s', key, resource, now)
      case outcome => Has(s', key, outcome) && Closed(s', key)
    ensures Settled(Next(c, s, Attempt(key, resource, b)))
  {
    var step := Attempt(key, resource, b);
    StepSound(c, s, step);
    SettledAfter(c, s, StepEffect(c, s, step).trace);
    NotVoted(done, b);
    SideSnoc(done, b, true);
    SideSnoc(done, b, false);
    var vote := Voted(key, b.who, b.inFavour);
    assert Enabled(c, s, vote);
    var s1 := Apply(c, s, vote);
    SettledStays(c, s, vote);
    var rest := Resolve(c, s1, key);
    AttemptParts(c, s, key, resource, b);
    ReplayConcat(c, s, [vote], rest.trace);
    LegalOne(c, s, vote);
    ResolveOutcome(c, s1, key);
  }

  lemma {:induction false} NotVoted(done: seq<Choice>, b: Choice)
    requires b.who !in Whos(done)
    ensures b.who !in Side(done, true) && b.who !in Side(done, false)
  {
    if b.who in Side(done, true) {
      SideMembers(done, true, b.who);
    }
    if b.who in Side(done, false) {
      SideMembers(done, false, b.who);
    }
  }

  // ---------- all attempts ----------

  /** The outcome all votes together call for. */
  function Verdict(inFavour: nat, threshold: nat, relayers: nat): Status {
    if threshold > relayers then Initiated
    else if inFavour >= threshold then Approved
    else Rejected
  }

  lemma {:induction false} VotesDecide(
      c: Config, s0: State, s: State, key: Key, resource: ResourceId, done: seq<Choice>, todo: seq<Event>)
    requires Inv(c, s) && c.lifetime > 0
    requires s0.relayerCount == |s0.relayers| && s0.threshold > 0
    requires StillOpen(c, s0, s, key, resource, done)
    requires Distinct(done + Choices(todo)) && Whos(done + Choices(todo)) == s0.relayers
    requires Smooth(c, s, key, resource, todo)
    ensures var s', all := Run(c, s, StepsOf(key, resource, todo)), done + Choices(todo);
      && Record(c, s', key).status == Verdict(|Side(all, true)|, s0.threshold, |s0.relayers|)
      && (all != [] ==> key in s'.votes)
    decreases |todo|, 1
  {
    if todo == [] {
      assert done + Choices(todo) == done;
      DistinctSize(done);
      SideSizes(done);
    } else {
      var step, rest := StepOf(key, resource, todo[0]), todo[1..];
      var steps := StepsOf(key, resource, todo);
      assert steps[0] == step && steps[1..] == StepsOf(key, resource, rest);
      if todo[0].Cast? {
        var b := todo[0].choice;
        assert done + Choices(todo) == done + [b] + Choices(rest);
        VoteDecides(c, s0, s, key, resource, done, b, rest);
      } else {
        StepKeepsInv(c, s, step);
        QuietStaysOpen(c, s0, s, Next(c, s, step), key, resource, done);
        VotesDecide(c, s0, Next(c, s, step), key, resource, done, rest);
      }
    }
  }

  /** Within the lifetime, which the log shows, an undecided record is open. */
  lemma {:induction false} QuietStaysOpen(
      c: Config, s0: State, s: State, s': State, key: Key, resource: ResourceId, done: seq<Choice>)
    requires c.lifetime > 0 && StillOpen(c, s0, s, key, resource, done)
    requires Inv(c, s') && Quiet(c, s, s', key, resource)
    ensures StillOpen(c, s0, s', key, resource, done)
  {
    assert match FirstVote(s'.log, key)
      case None => key !in s'.votes
      case Some(block) => key in s'.votes && s'.votes[key].expiry == block + c.lifetime;
  }

  /** A vote either leaves the rest to decide or closes the record with the verdict of all votes. */
  lemma {:induction false} VoteDecides(
      c: Config, s0: State, s: State, key: Key, resource: ResourceId, done: seq<Choice>, b: Choice, rest: seq<Event>)
    requires Inv(c, s) && c.lifetime > 0
    requires s0.relayerCount == |s0.relayers| && s0.threshold > 0
    requires StillOpen(c, s0, s, key, resource, done)
    requires var all := done + [b] + Choices(rest); Distinct(all) && Whos(all) == s0.relayers
    requires CallSucceeds(c, s, key, b)
    requires Smooth(c, Next(c, s, Attempt(key, resource, b)), key, resource, rest)
    ensures var s1 := Next(c, s, Attempt(key, resource, b));
      var s', all := Run(c, s1, StepsOf(key, resource, rest)), done + [b] + Choices(rest);
      key in s'.votes && s'.votes[key].status == Verdict(|Side(all, true)|, s0.threshold, |s0.relayers|)
    decreases |rest|, 2
  {
    var s1, now, all := Next(c, s, Attempt(key, resource, b)), done + [b], done + [b] + Choices(rest);
    DistinctSize(all);
    SideSizes(all);
    assert all[|done|] == b && b in all;
    FirstIsNew(done, b, Choices(rest));
    VotePossible(c, s0, s, key, resource, done, b);
    AttemptSucceeds(c, s, key, resource, b);
    StepKeepsInv(c, s, Attempt(key, resource, b));
    AttemptOutcome(c, s0, s, key, resource, done, b);
    match Votes(Side(now, true), Side(now, false), Initiated, 0).Decide(s0.threshold, s0.relayerCount)
    case Initiated => VotesDecide(c, s0, s1, key, resource, now, rest);
    case _ =>
      RunKeepsClosed(c, s1, StepsOf(key, resource, rest), key);
      SideGrows(now, Choices(rest), true);
      SideGrows(now, Choices(rest), false);
  }

  lemma {:induction false} FirstIsNew(done: seq<Choice>, b: Choice, rest: seq<Choice>)
    requires Distinct(done + [b] + rest)
    ensures b.who !in Whos(done)
  {
    var all := done + [b] + rest;
    assert all[|done|] == b;
    forall i | 0 <= i < |done|
      ensures done[i].who != b.who
    {
      assert all[i] == done[i];
    }
  }

  /**
   Order-independence. A fresh proposal, voted on once by every relayer in any order and with anything in
   between that is quiet, ends up approved if at least the threshold were in favour and rejected otherwise;
   with a threshold above the number of relayers it stays open.
   */
  lemma {:induction false} OrderIndependent(c: Config, s: State, key: Key, resource: ResourceId, events: seq<Event>)
    requires Inv(c, s) && c.lifetime > 0
    requires key.src in s.nonces && resource in s.resources && key !in s.votes
    requires Distinct(Choices(events)) && Whos(Choices(events)) == s.relayers && Choices(events) != []
    requires Smooth(c, s, key, resource, events)
    ensures var s' := Run(c, s, StepsOf(key, resource, events));
      && key in s'.votes
      && s'.votes[key].status == Verdict(|Side(Choices(events), true)|, s.threshold, |s.relayers|)
  {
    assert [] + Choices(events) == Choices(events);
    VotesDecide(c, s, s, key, resource, [], events);
  }

  /** Two runs with the same ballots in different orders agree, because only the number in favour counts. */
  lemma {:induction false} PermutedVotesAgree(
      c: Config, s: State, key: Key, resource: ResourceId, first: seq<Event>, second: seq<Event>)
    requires Inv(c, s) && c.lifetime > 0
    requires key.src in s.nonces && resource in s.resources && key !in s.votes
    requires multiset(Choices(first)) == multiset(Choices(second))
    requires Distinct(Choices(first)) && Distinct(Choices(second))
    requires Whos(Choices(first)) == s.relayers && Choices(first) != []
    requires Smooth(c, s, key, resource, first) && Smooth(c, s, key, resource, second)
    ensures var s1, s2 := Run(c, s, StepsOf(key, resource, first)), Run(c, s, StepsOf(key, resource, second));
      key in s1.votes && key in s2.votes && s1.votes[key].status == s2.votes[key].status
  {
    SameBallots(Choices(first), Choices(second));
    OrderIndependent(c, s, key, resource, first);
    OrderIndependent(c, s, key, resource, second);
  }

  lemma {:induction false} SameBallots(first: seq<Choice>, second: seq<Choice>)
    requires multiset(first) == multiset(second) && Distinct(first) && Distinct(second)
    ensures Whos(first) == Whos(second) && (first == [] <==> second == [])
    ensures |Side(first, true)| == |Side(second, true)|
  {
    assert forall b :: b in first <==> b in multiset(first);
    assert forall b :: b in second <==> b in multiset(second);
    SideCount(first);
    SideCount(second);
    assert |first| == |multiset(first)| == |multiset(second)| == |second|;
  }

  function InFavour(m: multiset<Choice>): set<AccountId> {
    set b | b in m && b.inFavour :: b.who
  }

  lemma {:induction false} SideCount(choices: seq<Choice>)
    requires Distinct(choices)
    ensures |Side(choices, true)| == |InFavour(multiset(choices))|
  {
    if choices != [] {
      var n := |choices| - 1;
      var last, rest := choices[n], choices[..n];
      assert choices == rest + [last];
      SideCount(rest);
      var before := InFavour(multiset(rest));
      assert last.who !in before;
      if last.inFavour {
        assert InFavour(multiset(choices)) == before + {last.who};
      } else {
        assert InFavour(multiset(choices)) == before;
      }
    } else {
      assert InFavour(multiset(choices)) == {};
    }
  }
}
