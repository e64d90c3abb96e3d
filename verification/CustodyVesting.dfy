/**
 Exact vesting over a complete run: whatever was paid when, and however much was bonded meanwhile, a
 member has received exactly the allocation plus everything others put into the two accounts, minus
 everything others took out, once the final payout finds nothing frozen or reserved.
 */
module CustodyVesting {
  import opened Wrappers
  import opened Ledgers
  import opened Perbills
  import opened Custody
  import opened CustodyBooks
  import opened CustodyPayouts

  // ---------- what an account ever held ----------

  /** Everything paid out of an account so far. */
  function PaidFrom(events: seq<Event>, x: AccountId): nat {
    if events == [] then 0
    else
      var last, rest := events[|events| - 1], PaidFrom(events[..|events| - 1], x);
      if last.Paid? && last.from == x then rest + last.amount else rest
  }

  function DustFrom(events: seq<Event>, x: AccountId): nat {
    if events == [] then 0
    else
      var last, rest := events[|events| - 1], DustFrom(events[..|events| - 1], x);
      if last.Paid? && last.from == x then rest + last.dust else rest
  }

  function EverHeld(s: State, x: AccountId): nat {
    s.ledger.Total(x) + PaidFrom(s.events, x) + DustFrom(s.events, x)
  }

  /** A custody or reserve account that s0 has set up for a member. */
  predicate IsPot(s0: State, x: AccountId) {
    x.Pure? && x.owner in s0.team && (x == s0.team[x.owner].custody || x == s0.team[x.owner].reserve)
  }

  /** No member is itself a custody or reserve account, so no payout goes into one. */
  predicate MembersApart(s0: State, s: State) {
    forall who :: who in s.team ==> !IsPot(s0, who)
  }

  lemma {:induction false} EventSnoc(events: seq<Event>, e: Event, x: AccountId)
    ensures PaidFrom(events + [e], x) == PaidFrom(events, x) + (if e.Paid? && e.from == x then e.amount else 0)
    ensures DustFrom(events + [e], x) == DustFrom(events, x) + (if e.Paid? && e.from == x then e.dust else 0)
  {
    assert (events + [e])[..|events|] == events;
  }

  // ---------- single operations ----------

  lemma {:induction false} TransferLive(l: Ledger, from: AccountId, to: AccountId, amount: nat)
    requires Live(l) && l.Transfer(from, to, amount).Ok?
    ensures Live(l.Transfer(from, to, amount).value)
    ensures l.Transfer(from, to, amount).value.ed == l.ed
  {
    if amount != 0 && from != to {
      PutLive(l, to, l.Get(to).Credit(amount));
      PutLive(l.Put(to, l.Get(to).Credit(amount)), from, l.Get(from).Debit(amount));
    }
  }

  lemma {:induction false} PayHolds(s: State, from: AccountId, to: AccountId, amount: nat, x: AccountId)
    requires Live(s.ledger) && x != to && Pay(s, from, to, amount).Ok?
    ensures var s' := Pay(s, from, to, amount).value;
      Live(s'.ledger) && s'.ledger.ed == s.ledger.ed && EverHeld(s', x) == EverHeld(s, x)
  {
    PayIsTransfer(s, from, to, amount);
    TransferLive(s.ledger, from, to, amount);
    TransferMoves(s.ledger, from, to, amount, x);
    EventSnoc(s.events, Paid(from, to, amount, s.ledger.Dust(from, to, amount)), x);
  }

  lemma {:induction false} PayBothHolds(s: State, info: Info, to: AccountId, first: nat, second: nat, x: AccountId)
    requires Live(s.ledger) && x != to && PayBoth(s, info, to, first, second).Ok?
    ensures var s' := PayBoth(s, info, to, first, second).value;
      Live(s'.ledger) && s'.ledger.ed == s.ledger.ed && EverHeld(s', x) == EverHeld(s, x)
  {
    PayHolds(s, info.custody, to, first, x);
    PayHolds(Pay(s, info.custody, to, first).value, info.reserve, to, second, x);
  }

  lemma {:induction false} SettleHolds(s: State, who: AccountId, info: Info, withdraw: nat, keepAlive: bool, x: AccountId)
    ensures var s' := Settle(s, who, info, withdraw, keepAlive);
      s'.ledger == s.ledger && s'.events == s.events && EverHeld(s', x) == EverHeld(s, x)
  {
  }

  lemma {:induction false} DisburseHolds(
      s: State, who: AccountId, info: Info, first: nat, second: nat, keepAlive: bool, x: AccountId)
    requires Live(s.ledger) && x != who && Disburse(s, who, info, first, second, keepAlive).Ok?
    ensures var s' := Disburse(s, who, info, first, second, keepAlive).value;
      Live(s'.ledger) && s'.ledger.ed == s.ledger.ed && EverHeld(s', x) == EverHeld(s, x)
  {
    PayBothHolds(s, info, who, first, second, x);
    SettleHolds(PayBoth(s, info, who, first, second).value, who, info, first + second, keepAlive, x);
  }

  /** Changing what is frozen or reserved, but not the total, leaves every total alone. */
  lemma {:induction false} PutSameTotal(l: Ledger, who: AccountId, a: Account, x: AccountId)
    requires Live(l) && a.Total() == l.Total(who)
    ensures var l' := l.Put(who, a);
      Live(l') && l'.ed == l.ed && l'.Total(x) == l.Total(x)
  {
    PutLive(l, who, a);
    PutGet(l, who, a, x);
  }

  lemma {:induction false} ReleaseHolds(s: State, custody: AccountId, u: Unstaking, x: AccountId)
    requires Live(s.ledger)
    ensures var s' := Release(s, custody, u);
      && Live(s'.ledger) && s'.ledger.ed == s.ledger.ed
      && s'.ledger.Total(x) == s.ledger.Total(x) && s'.events == s.events
  {
    UnstakeHolds(s, custody, u, x);
    RemoveProxiesHolds(Unstake(s, custody, u), custody, x);
  }

  lemma {:induction false} UnstakeHolds(s: State, custody: AccountId, u: Unstaking, x: AccountId)
    requires Live(s.ledger)
    ensures var s' := Unstake(s, custody, u);
      && Live(s'.ledger) && s'.ledger.ed == s.ledger.ed
      && s'.ledger.Total(x) == s.ledger.Total(x) && s'.events == s.events
  {
    if u.Released? {
      PutSameTotal(s.ledger, custody, s.ledger.Get(custody).Refrozen(u.frozen), x);
    }
  }

  lemma {:induction false} RemoveProxiesHolds(s: State, custody: AccountId, x: AccountId)
    requires Live(s.ledger)
    ensures var s' := RemoveProxies(s, custody);
      && Live(s'.ledger) && s'.ledger.ed == s.ledger.ed
      && s'.ledger.Total(x) == s.ledger.Total(x) && s'.events == s.events
  {
    PutSameTotal(s.ledger, custody, s.ledger.Get(custody).Unreserved(ProxyDeposit(s, custody)), x);
  }

  lemma {:induction false} FinalHolds(s: State, who: AccountId, info: Info, u: Unstaking, x: AccountId)
    requires Live(s.ledger) && x != who && FinalPayout(s, who, info, u).Ok?
    ensures var s' := FinalPayout(s, who, info, u).value;
      Live(s'.ledger) && s'.ledger.ed == s.ledger.ed && EverHeld(s', x) == EverHeld(s, x)
  {
    var released := Release(s, info.custody, u);
    ReleaseHolds(s, info.custody, u, x);
    var shares := Withdrawals(released.ledger, info, 0, false);
    var paid := Disburse(released, who, info, shares.0, shares.1, false);
    assert DoPayout(released, who, 0, info, false) == paid;
    DisburseHolds(released, who, info, shares.0, shares.1, false, x);
    EventSnoc(paid.value.events, CustodyDone(who), x);
  }

  lemma {:induction false} PartialHolds(c: Config, s: State, who: AccountId, info: Info, x: AccountId)
    requires Live(s.ledger) && x != who && PartialPayout(c, s, who, info).Ok?
    ensures var s' := PartialPayout(c, s, who, info).value;
      Live(s'.ledger) && s'.ledger.ed == s.ledger.ed && EverHeld(s', x) == EverHeld(s, x)
  {
    var due := Requested(c, s.block, info);
    var shares := Withdrawals(s.ledger, info, due, true);
    assert DoPayout(s, who, due, info, true) == Disburse(s, who, info, shares.0, shares.1, true);
    DisburseHolds(s, who, info, shares.0, shares.1, true, x);
  }

  // ---------- steps and runs ----------

  /** Other pallets leave no account below the existential deposit, and no pot of s0 becomes a member. */
  predicate StepOk(s0: State, step: Step) {
    match step
    case External(l, _) => Live(Ledger(s0.ledger.ed, l.accounts, l.issuance))
    case ReplaceMember(_, successor) => !IsPot(s0, successor)
    case _ => true
  }

  /** What other pallets put into an account in a step: donations and rewards, less slashes. */
  function Outside(s: State, step: Step, x: AccountId): int {
    if step.External? then Ledger(s.ledger.ed, step.ledger.accounts, step.ledger.issuance).Total(x) - s.ledger.Total(x)
    else 0
  }

  function OutsideIn(c: Config, s: State, steps: seq<Step>, x: AccountId): int
    decreases |steps|
  {
    if steps == [] then 0 else Outside(s, steps[0], x) + OutsideIn(c, Next(c, s, steps[0]), steps[1..], x)
  }

  lemma {:induction false} PayoutHolds(c: Config, s: State, who: AccountId, u: Unstaking, x: AccountId)
    requires Live(s.ledger) && x != who && Payout(c, s, who, u).Ok?
    ensures var s' := Payout(c, s, who, u).value;
      Live(s'.ledger) && s'.ledger.ed == s.ledger.ed && EverHeld(s', x) == EverHeld(s, x)
  {
    if IsDone(c, s.block) {
      FinalHolds(s, who, s.team[who], u, x);
    } else {
      PartialHolds(c, s, who, s.team[who], x);
    }
  }

  lemma {:induction false} StepHolds(c: Config, s0: State, s: State, step: Step, x: AccountId)
    requires Live(s.ledger) && s.ledger.ed == s0.ledger.ed && x !in s.team && StepOk(s0, step)
    ensures var s' := Next(c, s, step);
      && Live(s'.ledger) && s'.ledger.ed == s.ledger.ed
      && EverHeld(s', x) == EverHeld(s, x) + Outside(s, step, x)
  {
    if step.TakePayout? && Payout(c, s, step.who, step.unstaking).Ok? {
      PayoutHolds(c, s, step.who, step.unstaking, x);
    }
  }

  /** Each member's accounts and allocation are those that genesis gave to the owner of the accounts. */
  predicate Descends(s0: State, s: State) {
    forall who :: who in s.team ==>
      && s.team[who].custody.Pure?
      && var owner := s.team[who].custody.owner;
      && owner in s0.team
      && s.team[who].custody == s0.team[owner].custody
      && s.team[who].reserve == s0.team[owner].reserve
      && s.team[who].allocation == s0.team[owner].allocation
  }

  predicate SameShare(a: Info, b: Info) {
    b.custody == a.custody && b.reserve == a.reserve && b.allocation == a.allocation
  }

  lemma {:induction false} StepDescends(c: Config, s0: State, s: State, step: Step)
    requires Descends(s0, s) && MembersApart(s0, s) && StepOk(s0, step)
    ensures Descends(s0, Next(c, s, step)) && MembersApart(s0, Next(c, s, step))
  {
    var s' := Next(c, s, step);
    if step.TakePayout? && Payout(c, s, step.who, step.unstaking).Ok? {
      PayoutTeam(c, s, step.who, step.unstaking);
    }
    forall w | w in s'.team
      ensures exists v :: v in s.team && SameShare(s.team[v], s'.team[w])
    {
      var v := if step.ReplaceMember? && w !in s.team then step.who else w;
      assert v in s.team && SameShare(s.team[v], s'.team[w]);
    }
  }

  // ---------- no dust before the end ----------

  /** No account of a present member has lost anything as dust. */
  predicate NoDust(s: State) {
    forall who :: who in s.team ==>
      DustFrom(s.events, s.team[who].custody) == 0 && DustFrom(s.events, s.team[who].reserve) == 0
  }

  lemma {:induction false} PayDust(s: State, from: AccountId, to: AccountId, amount: nat, x: AccountId)
    requires Pay(s, from, to, amount).Ok?
    ensures DustFrom(Pay(s, from, to, amount).value.events, x) ==
      DustFrom(s.events, x) + (if x == from then s.ledger.Dust(from, to, amount) else 0)
  {
    EventSnoc(s.events, Paid(from, to, amount, s.ledger.Dust(from, to, amount)), x);
  }

  /** Only the paying accounts can lose dust. */
  lemma {:induction false} DisburseDustElsewhere(
      s: State, who: AccountId, info: Info, first: nat, second: nat, keepAlive: bool, x: AccountId)
    requires x != info.custody && x != info.reserve
    requires Disburse(s, who, info, first, second, keepAlive).Ok?
    ensures DustFrom(Disburse(s, who, info, first, second, keepAlive).value.events, x) == DustFrom(s.events, x)
  {
    PayDust(s, info.custody, who, first, x);
    var p := Pay(s, info.custody, who, first).value;
    PayDust(p, info.reserve, who, second, x);
    SettleHolds(PayBoth(s, info, who, first, second).value, who, info, first + second, keepAlive, x);
  }

  /** And with keep-alive amounts not even they do. */
  lemma {:induction false} DisburseNoDust(s: State, who: AccountId, info: Info, first: nat, second: nat, x: AccountId)
    requires Apart(who, info)
    requires first <= s.ledger.Get(info.custody).Reducible(s.ledger.ed, true)
    requires second <= s.ledger.Get(info.reserve).Reducible(s.ledger.ed, true)
    requires Disburse(s, who, info, first, second, true).Ok?
    ensures DustFrom(Disburse(s, who, info, first, second, true).value.events, x) == DustFrom(s.events, x)
  {
    var p := Pay(s, info.custody, who, first);
    DisburseIsPayBoth(s, who, info, first, second);
    PayIsTransfer(s, info.custody, who, first);
    KeepAliveTransfer(s.ledger, info.custody, who, first);
    PayDust(s, info.custody, who, first, x);
    TransferMoves(s.ledger, info.custody, who, first, info.reserve);
    SecondNoDust(p.value, info, who, second, x);
    SettleHolds(PayBoth(s, info, who, first, second).value, who, info, first + second, true, x);
  }

  lemma {:induction false} SecondNoDust(s: State, info: Info, who: AccountId, second: nat, x: AccountId)
    requires who != info.reserve && Pay(s, info.reserve, who, second).Ok?
    requires second <= s.ledger.Get(info.reserve).Reducible(s.ledger.ed, true)
    ensures DustFrom(Pay(s, info.reserve, who, second).value.events, x) == DustFrom(s.events, x)
  {
    PayIsTransfer(s, info.reserve, who, second);
    KeepAliveTransfer(s.ledger, info.reserve, who, second);
    PayDust(s, info.reserve, who, second, x);
  }

  lemma {:induction false} PartialNoDust(c: Config, s: State, who: AccountId, info: Info, x: AccountId)
    requires Apart(who, info) && PartialPayout(c, s, who, info).Ok?
    ensures DustFrom(PartialPayout(c, s, who, info).value.events, x) == DustFrom(s.events, x)
  {
    var due := Requested(c, s.block, info);
    var shares := Withdrawals(s.ledger, info, due, true);
    WithdrawalsAddUp(s.ledger, info, due);
    assert DoPayout(s, who, due, info, true) == Disburse(s, who, info, shares.0, shares.1, true);
    DisburseNoDust(s, who, info, shares.0, shares.1, x);
  }

  lemma {:induction false} FinalNoDustElsewhere(s: State, who: AccountId, info: Info, u: Unstaking, x: AccountId)
    requires Live(s.ledger) && x != info.custody && x != info.reserve && FinalPayout(s, who, info, u).Ok?
    ensures DustFrom(FinalPayout(s, who, info, u).value.events, x) == DustFrom(s.events, x)
  {
    var released := Release(s, info.custody, u);
    ReleaseHolds(s, info.custody, u, x);
    var shares := Withdrawals(released.ledger, info, 0, false);
    var paid := Disburse(released, who, info, shares.0, shares.1, false);
    assert DoPayout(released, who, 0, info, false) == paid;
    DisburseDustElsewhere(released, who, info, shares.0, shares.1, false, x);
    EventSnoc(paid.value.events, CustodyDone(who), x);
  }

  /** Members' accounts are pairs with one owner each, so no two members share any account. */
  lemma {:induction false} AccountsApart(c: Config, s: State, w: AccountId, v: AccountId)
    requires TeamOk(c, s) && AccountsExact(s) && w in s.team && v in s.team && w != v
    ensures s.team[w].custody != s.team[v].custody && s.team[w].custody != s.team[v].reserve
    ensures s.team[w].reserve != s.team[v].custody && s.team[w].reserve != s.team[v].reserve
  {
    assert MemberOk(c, s.block, s.team[w]) && MemberOk(c, s.block, s.team[v]);
  }

  /** A member's pair of accounts are two pots of s0, and the member is neither. */
  lemma {:induction false} MemberApart(c: Config, s0: State, s: State, who: AccountId)
    requires TeamOk(c, s) && Descends(s0, s) && MembersApart(s0, s) && who in s.team
    ensures IsPot(s0, s.team[who].custody) && IsPot(s0, s.team[who].reserve)
    ensures Apart(who, s.team[who])
  {
    assert MemberOk(c, s.block, s.team[who]);
  }

  lemma {:induction false} PayoutNoDust(c: Config, s0: State, s: State, who: AccountId, u: Unstaking)
    requires Structure(c, s) && Live(s.ledger) && NoDust(s)
    requires Descends(s0, s) && MembersApart(s0, s) && Payout(c, s, who, u).Ok?
    ensures NoDust(Payout(c, s, who, u).value)
  {
    var s' := Payout(c, s, who, u).value;
    PayoutTeam(c, s, who, u);
    MemberApart(c, s0, s, who);
    forall w | w in s'.team
      ensures DustFrom(s'.events, s'.team[w].custody) == 0 && DustFrom(s'.events, s'.team[w].reserve) == 0
    {
      var info := s.team[w];
      if IsDone(c, s.block) {
        FinalBooks(s, who, s.team[who], u);
        AccountsApart(c, s, w, who);
        FinalNoDustElsewhere(s, who, s.team[who], u, info.custody);
        FinalNoDustElsewhere(s, who, s.team[who], u, info.reserve);
      } else {
        PartialNoDust(c, s, who, s.team[who], info.custody);
        PartialNoDust(c, s, who, s.team[who], info.reserve);
      }
    }
  }

  lemma {:induction false} StepNoDust(c: Config, s0: State, s: State, step: Step)
    requires Structure(c, s) && Live(s.ledger) && NoDust(s) && Descends(s0, s) && MembersApart(s0, s)
    ensures NoDust(Next(c, s, step))
  {
    if step.TakePayout? && Payout(c, s, step.who, step.unstaking).Ok? {
      PayoutNoDust(c, s0, s, step.who, step.unstaking);
    }
  }

  // ---------- the complete run ----------

  /** What the run law carries along. */
  predicate Sound(c: Config, s0: State, s: State) {
    && Structure(c, s) && Live(s.ledger) && s.ledger.ed == s0.ledger.ed
    && MembersApart(s0, s) && NoDust(s) && Descends(s0, s)
  }

  predicate StepsOk(s0: State, steps: seq<Step>) {
    forall step :: step in steps ==> StepOk(s0, step)
  }

  lemma {:induction false} StepSound(c: Config, s0: State, s: State, step: Step)
    requires Sound(c, s0, s) && StepOk(s0, step)
    ensures Sound(c, s0, Next(c, s, step))
  {
    StepStructure(c, s, step);
    StepLive(c, s0, s, step);
    StepNoDust(c, s0, s, step);
    StepDescends(c, s0, s, step);
  }

  lemma {:induction false} StepLive(c: Config, s0: State, s: State, step: Step)
    requires Live(s.ledger) && s.ledger.ed == s0.ledger.ed && StepOk(s0, step)
    ensures Live(Next(c, s, step).ledger) && Next(c, s, step).ledger.ed == s0.ledger.ed
  {
    if step.TakePayout? && Payout(c, s, step.who, step.unstaking).Ok? {
      PayoutHolds(c, s, step.who, step.unstaking, Pure(step.who, 0));
    }
  }

  /** What a pot holds and has paid out is what it started with plus what other pallets put in. */
  lemma {:induction false} RunHolds(c: Config, s0: State, s: State, steps: seq<Step>, x: AccountId)
    requires Sound(c, s0, s) && IsPot(s0, x) && StepsOk(s0, steps)
    ensures EverHeld(Run(c, s, steps), x) == EverHeld(s, x) + OutsideIn(c, s, steps, x)
    decreases |steps|
  {
    if steps != [] {
      assert StepOk(s0, steps[0]);
      StepSound(c, s0, s, steps[0]);
      StepHolds(c, s0, s, steps[0], x);
      RunHolds(c, s0, Next(c, s, steps[0]), steps[1..], x);
    }
  }

  lemma {:induction false} RunSound(c: Config, s0: State, s: State, steps: seq<Step>)
    requires Sound(c, s0, s) && StepsOk(s0, steps)
    ensures Sound(c, s0, Run(c, s, steps))
    decreases |steps|
  {
    if steps != [] {
      StepSound(c, s0, s, steps[0]);
      RunSound(c, s0, Next(c, s, steps[0]), steps[1..]);
    }
  }

  /**
   Nothing will stay frozen or reserved: unstaking leaves no lock on the custody account, nothing is reserved
   there beyond the deposit on record for its proxies, and the reserve account is untouched.
   */
  predicate NothingHeldBack(s: State, info: Info, u: Unstaking) {
    var custody, reserve := s.ledger.Get(info.custody), s.ledger.Get(info.reserve);
    && ((u.NotBonded? && custody.frozen == 0) || (u.Released? && u.frozen == 0))
    && custody.reserved <= (if info.custody in s.proxies then s.proxies[info.custody] else 0)
    && reserve.frozen == 0 && reserve.reserved == 0
  }

  /** Then the accounts are free of locks and reserves when the final payout looks at them, and hold what they held. */
  lemma {:induction false} ReleaseFrees(s: State, info: Info, u: Unstaking)
    requires Live(s.ledger) && info.custody != info.reserve && NothingHeldBack(s, info, u)
    ensures var l := Release(s, info.custody, u).ledger;
      && l.Get(info.custody).frozen == 0 && l.Get(info.custody).reserved == 0
      && l.Get(info.reserve) == s.ledger.Get(info.reserve)
  {
    var unstaked := Unstake(s, info.custody, u);
    UnstakeFrees(s, info.custody, info.reserve, u);
    RemoveProxiesFrees(unstaked, info.custody, info.reserve);
  }

  lemma {:induction false} UnstakeFrees(s: State, custody: AccountId, x: AccountId, u: Unstaking)
    requires Live(s.ledger) && custody != x
    requires (u.NotBonded? && s.ledger.Get(custody).frozen == 0) || (u.Released? && u.frozen == 0)
    ensures var s' := Unstake(s, custody, u);
      && s'.ledger.Get(custody).frozen == 0 && s'.ledger.Get(custody).reserved == s.ledger.Get(custody).reserved
      && s'.ledger.Get(x) == s.ledger.Get(x) && s'.proxies == s.proxies && s'.ledger.ed == s.ledger.ed
  {
    if u.Released? {
      PutGet(s.ledger, custody, s.ledger.Get(custody).Refrozen(u.frozen), custody);
      PutGet(s.ledger, custody, s.ledger.Get(custody).Refrozen(u.frozen), x);
    }
  }

  lemma {:induction false} RemoveProxiesFrees(s: State, custody: AccountId, x: AccountId)
    requires custody != x && s.ledger.Get(custody).frozen == 0
    requires s.ledger.Get(custody).reserved <= (if custody in s.proxies then s.proxies[custody] else 0)
    ensures var s' := RemoveProxies(s, custody);
      && s'.ledger.Get(custody).frozen == 0 && s'.ledger.Get(custody).reserved == 0
      && s'.ledger.Get(x) == s.ledger.Get(x)
  {
    var a := s.ledger.Get(custody).Unreserved(ProxyDeposit(s, custody));
    PutGet(s.ledger, custody, a, custody);
    PutGet(s.ledger, custody, a, x);
  }

  /** A transfer of everything an account has empties it and burns nothing. */
  lemma {:induction false} SweepAccount(s: State, from: AccountId, to: AccountId)
    requires from != to && Live(s.ledger)
    requires s.ledger.Get(from).frozen == 0 && s.ledger.Get(from).reserved == 0
    requires Pay(s, from, to, s.ledger.Free(from)).Ok?
    ensures var s' := Pay(s, from, to, s.ledger.Free(from)).value;
      && s'.ledger.Total(from) == 0
      && DustFrom(s'.events, from) == DustFrom(s.events, from)
  {
    var amount := s.ledger.Free(from);
    PayIsTransfer(s, from, to, amount);
    TransferMoves(s.ledger, from, to, amount, from);
    PayDust(s, from, to, amount, from);
    SweepNoDust(s.ledger, from, to);
  }

  lemma {:induction false} SweepNoDust(l: Ledger, from: AccountId, to: AccountId)
    requires l.Get(from).reserved == 0
    ensures l.Dust(from, to, l.Free(from)) == 0
  {
  }

  lemma {:induction false} SweepBoth(s: State, info: Info, who: AccountId)
    requires Apart(who, info) && Live(s.ledger)
    requires s.ledger.Get(info.custody).frozen == 0 && s.ledger.Get(info.custody).reserved == 0
    requires s.ledger.Get(info.reserve).frozen == 0 && s.ledger.Get(info.reserve).reserved == 0
    requires PayBoth(s, info, who, s.ledger.Free(info.custody), s.ledger.Free(info.reserve)).Ok?
    ensures var s' := PayBoth(s, info, who, s.ledger.Free(info.custody), s.ledger.Free(info.reserve)).value;
      && s'.ledger.Total(info.custody) == 0 && s'.ledger.Total(info.reserve) == 0
      && s'.ledger.Total(who) == s.ledger.Total(who) + s.ledger.Total(info.custody) + s.ledger.Total(info.reserve)
      && DustFrom(s'.events, info.custody) == DustFrom(s.events, info.custody)
      && DustFrom(s'.events, info.reserve) == DustFrom(s.events, info.reserve)
  {
    var first, second := s.ledger.Free(info.custody), s.ledger.Free(info.reserve);
    SweepAccount(s, info.custody, who);
    PayIsTransfer(s, info.custody, who, first);
    TransferMoves(s.ledger, info.custody, who, first, info.reserve);
    TransferMoves(s.ledger, info.custody, who, first, who);
    PayDust(s, info.custody, who, first, info.reserve);
    PayHolds(s, info.custody, who, first, info.custody);
    var s1 := Pay(s, info.custody, who, first).value;
    SweepAccount(s1, info.reserve, who);
    PayIsTransfer(s1, info.reserve, who, second);
    TransferMoves(s1.ledger, info.reserve, who, second, info.custody);
    TransferMoves(s1.ledger, info.reserve, who, second, who);
    PayDust(s1, info.reserve, who, second, info.custody);
  }

  /** Whatever is held back, a successful final payout leaves no proxies of the custody account on record. */
  lemma {:induction false} ProxiesRemoved(c: Config, s: State, who: AccountId, u: Unstaking)
    requires who in s.team && IsDone(c, s.block) && Payout(c, s, who, u).Ok?
    ensures Payout(c, s, who, u).value.proxies == s.proxies - {s.team[who].custody}
    ensures var events := Payout(c, s, who, u).value.events;
      |events| > 0 && events[|events| - 1] == CustodyDone(who)
  {
    var info := s.team[who];
    var released := Release(s, info.custody, u);
    var shares := Withdrawals(released.ledger, info, 0, false);
    assert DoPayout(released, who, 0, info, false) == Disburse(released, who, info, shares.0, shares.1, false);
    DisburseProxies(released, who, info, shares.0, shares.1, false);
  }

  lemma {:induction false} DisburseProxies(
      s: State, who: AccountId, info: Info, first: nat, second: nat, keepAlive: bool)
    requires Disburse(s, who, info, first, second, keepAlive).Ok?
    ensures Disburse(s, who, info, first, second, keepAlive).value.proxies == s.proxies
  {
    PayProxies(s, info.custody, who, first);
    PayProxies(Pay(s, info.custody, who, first).value, info.reserve, who, second);
  }

  lemma {:induction false} PayProxies(s: State, from: AccountId, to: AccountId, amount: nat)
    requires Pay(s, from, to, amount).Ok?
    ensures Pay(s, from, to, amount).value.proxies == s.proxies
  {
  }

  /** The final payout empties both accounts when nothing is held back. */
  lemma {:induction false} FinalSweeps(s: State, who: AccountId, info: Info, u: Unstaking)
    requires Apart(who, info) && Live(s.ledger) && NothingHeldBack(s, info, u)
    requires FinalPayout(s, who, info, u).Ok?
    ensures var s' := FinalPayout(s, who, info, u).value;
      && s'.ledger.Total(info.custody) == 0 && s'.ledger.Total(info.reserve) == 0
      && s'.ledger.Total(who) == s.ledger.Total(who) + s.ledger.Total(info.custody) + s.ledger.Total(info.reserve)
      && DustFrom(s'.events, info.custody) == DustFrom(s.events, info.custody)
      && DustFrom(s'.events, info.reserve) == DustFrom(s.events, info.reserve)
  {
    var released := Release(s, info.custody, u);
    ReleaseHolds(s, info.custody, u, info.custody);
    ReleaseHolds(s, info.custody, u, info.reserve);
    ReleaseHolds(s, info.custody, u, who);
    ReleaseFrees(s, info, u);
    var first, second := released.ledger.Free(info.custody), released.ledger.Free(info.reserve);
    SweepWithdrawals(released.ledger, info);
    FinalIsPayBoth(s, who, info, u, first, second);
    SweepBoth(released, info, who);
    var both := PayBoth(released, info, who, first, second).value;
    EventSnoc(both.events, CustodyDone(who), info.custody);
    EventSnoc(both.events, CustodyDone(who), info.reserve);
  }

  lemma {:induction false} SweepWithdrawals(l: Ledger, info: Info)
    requires l.Get(info.custody).frozen == 0 && l.Get(info.reserve).frozen == 0
    ensures Withdrawals(l, info, 0, false) == (l.Free(info.custody), l.Free(info.reserve))
  {
    AllReducible(l.Get(info.custody), l.ed);
    AllReducible(l.Get(info.reserve), l.ed);
  }

  lemma {:induction false} FinalIsPayBoth(
      s: State, who: AccountId, info: Info, u: Unstaking, first: nat, second: nat)
    requires FinalPayout(s, who, info, u).Ok?
    requires Withdrawals(Release(s, info.custody, u).ledger, info, 0, false) == (first, second)
    ensures var p, s' := PayBoth(Release(s, info.custody, u), info, who, first, second), FinalPayout(s, who, info, u).value;
      p.Ok? && s'.ledger == p.value.ledger && s'.events == p.value.events + [CustodyDone(who)]
  {
    var released := Release(s, info.custody, u);
    assert DoPayout(released, who, 0, info, false) == Disburse(released, who, info, first, second, false);
    DisburseFinal(released, who, info, first, second);
  }

  lemma {:induction false} DisburseFinal(s: State, who: AccountId, info: Info, first: nat, second: nat)
    ensures var r, p := Disburse(s, who, info, first, second, false), PayBoth(s, info, who, first, second);
      && (r.Ok? <==> p.Ok?)
      && (r.Ok? ==> r.value.ledger == p.value.ledger && r.value.events == p.value.events)
  {
  }

  lemma {:induction false} AllReducible(a: Account, ed: nat)
    requires a.frozen == 0
    ensures a.Reducible(ed, false) == a.free
  {
  }

  /**
   Exact vesting. From any state that already satisfies the invariant, over any run: when nothing is held
   back at the final payout, the member gets all that is left, and the two accounts are empty, have no
   proxies on record, and have paid out exactly what they started with plus what other pallets put in.
   */
  lemma {:induction false} ExactVesting(c: Config, s0: State, steps: seq<Step>, who: AccountId, u: Unstaking)
    requires Sound(c, s0, s0) && s0.events == [] && StepsOk(s0, steps)
    requires var s := Run(c, s0, steps);
      && who in s.team && IsDone(c, s.block) && Payout(c, s, who, u).Ok?
      && NothingHeldBack(s, s.team[who], u)
    ensures var s := Run(c, s0, steps); var info, s' := s.team[who], Payout(c, s, who, u).value;
      && s'.ledger.Total(info.custody) == 0 && s'.ledger.Total(info.reserve) == 0
      && s'.ledger.Total(who) == s.ledger.Total(who) + s.ledger.Total(info.custody) + s.ledger.Total(info.reserve)
      && info.custody !in s'.proxies && who !in s'.team
      && info.custody.Pure? && info.custody.owner in s0.team
      && PaidFrom(s'.events, info.custody) + PaidFrom(s'.events, info.reserve) ==
           s0.ledger.Total(info.custody) + s0.ledger.Total(info.reserve)
           + OutsideIn(c, s0, steps, info.custody) + OutsideIn(c, s0, steps, info.reserve)
  {
    var s := Run(c, s0, steps);
    var info := s.team[who];
    RunSound(c, s0, s0, steps);
    MemberApart(c, s0, s, who);
    RunHolds(c, s0, s0, steps, info.custody);
    RunHolds(c, s0, s0, steps, info.reserve);
    FinalSweeps(s, who, info, u);
    FinalBooks(s, who, info, u);
    ProxiesRemoved(c, s, who, u);
    FinalHolds(s, who, info, u, info.custody);
    FinalHolds(s, who, info, u, info.reserve);
  }

  // ---------- from genesis ----------

  /** What genesis really puts aside: a part too small to open its account is not deposited. */
  function Opened(ed: nat, allocation: nat): nat {
    OpenedPart(ed, CustodyPart(allocation)) + OpenedPart(ed, ReservePart(allocation))
  }

  function OpenedPart(ed: nat, part: nat): nat { if part < ed then 0 else part }

  /** An allocation is put aside in full exactly when each part can open an account, or is nothing at all. */
  lemma {:induction false} OpenedInFull(ed: nat, allocation: nat)
    ensures Opened(ed, allocation) == allocation <==>
      (CustodyPart(allocation) == 0 || CustodyPart(allocation) >= ed)
      && (ReservePart(allocation) == 0 || ReservePart(allocation) >= ed)
  {
    PartsAddUp(allocation);
  }

  /** The accounts of present members hold what was put aside; besides those of l there are no others. */
  predicate Funded(l: Ledger, s: State) {
    && Live(s.ledger) && s.ledger.ed == l.ed
    && (forall who :: who in s.team ==>
          && s.ledger.Total(Pure(who, 0)) == OpenedPart(l.ed, CustodyPart(s.team[who].allocation))
          && s.ledger.Total(Pure(who, 1)) == OpenedPart(l.ed, ReservePart(s.team[who].allocation)))
    && (forall x :: x in s.ledger.accounts ==> x in l.accounts || (x.Pure? && x.owner in s.team))
  }

  lemma {:induction false} DepositIsInsert(l: Ledger, who: AccountId, amount: nat)
    requires who !in l.accounts && amount > 0 && amount >= l.ed
    ensures Deposit(l, who, amount) == Ledger(l.ed, l.accounts[who := Account(who, amount, 0, 0)], l.issuance + amount)
  {
  }

  /** l' is l with one new account that holds the given amount; an account opened with nothing need not exist. */
  ghost predicate Opens(l: Ledger, l': Ledger, who: AccountId, amount: nat) {
    && Live(l') && l'.ed == l.ed && l'.Total(who) == amount
    && forall x :: x != who ==> l'.Get(x) == l.Get(x) && (x in l'.accounts <==> x in l.accounts)
  }

  lemma {:induction false} DepositOpens(l: Ledger, who: AccountId, amount: nat)
    requires Live(l) && who !in l.accounts
    ensures Opens(l, Deposit(l, who, amount), who, OpenedPart(l.ed, amount))
  {
    if amount > 0 && amount >= l.ed {
      DepositIsInsert(l, who, amount);
    } else {
      assert Deposit(l, who, amount) == l;
    }
  }

  /** Opening the custody and the reserve account of somebody leaves all other accounts alone. */
  ghost predicate OpensPair(l: Ledger, l': Ledger, who: AccountId, first: nat, second: nat) {
    && Live(l') && l'.ed == l.ed
    && l'.Total(Pure(who, 0)) == first && l'.Total(Pure(who, 1)) == second
    && forall x :: x != Pure(who, 0) && x != Pure(who, 1) ==>
         l'.Get(x) == l.Get(x) && (x in l'.accounts <==> x in l.accounts)
  }

  lemma {:induction false} TwoOpens(l: Ledger, l1: Ledger, l2: Ledger, who: AccountId, first: nat, second: nat)
    requires Opens(l, l1, Pure(who, 0), first) && Opens(l1, l2, Pure(who, 1), second)
    ensures OpensPair(l, l2, who, first, second)
  {
  }

  lemma {:induction false} InitializeFunds(s: State, who: AccountId, amount: nat)
    requires Live(s.ledger) && Pure(who, 0) !in s.ledger.accounts && Pure(who, 1) !in s.ledger.accounts
    ensures OpensPair(s.ledger, InitializeCustody(s, who, amount).ledger, who,
      OpenedPart(s.ledger.ed, CustodyPart(amount)), OpenedPart(s.ledger.ed, ReservePart(amount)))
  {
    OpenBoth(s.ledger, who, CustodyPart(amount), ReservePart(amount));
    InitializeLedger(s, who, amount);
  }

  lemma {:induction false} OpenBoth(l: Ledger, who: AccountId, first: nat, second: nat)
    requires Live(l) && Pure(who, 0) !in l.accounts && Pure(who, 1) !in l.accounts
    ensures OpensPair(l, Deposit(Deposit(l, Pure(who, 0), first), Pure(who, 1), second), who,
      OpenedPart(l.ed, first), OpenedPart(l.ed, second))
  {
    var l1 := Deposit(l, Pure(who, 0), first);
    DepositOpens(l, Pure(who, 0), first);
    assert Pure(who, 1) !in l1.accounts;
    DepositOpens(l1, Pure(who, 1), second);
    TwoOpens(l, l1, Deposit(l1, Pure(who, 1), second), who, OpenedPart(l.ed, first), OpenedPart(l.ed, second));
  }

  lemma {:induction false} InitializeLedger(s: State, who: AccountId, amount: nat)
    ensures InitializeCustody(s, who, amount).ledger ==
      Deposit(Deposit(s.ledger, Pure(who, 0), CustodyPart(amount)), Pure(who, 1), ReservePart(amount))
  {
  }

  lemma {:induction false} InitializeFunded(l: Ledger, s: State, who: AccountId, amount: nat)
    requires Funded(l, s) && who !in s.team && Pure(who, 0) !in l.accounts && Pure(who, 1) !in l.accounts
    ensures Funded(l, InitializeCustody(s, who, amount))
  {
    InitializeTeam(s, who, amount);
    InitializeFunds(s, who, amount);
    PairFunded(l, s, InitializeCustody(s, who, amount), who, amount);
  }

  lemma {:induction false} PairFunded(l: Ledger, s: State, s': State, who: AccountId, amount: nat)
    requires Funded(l, s) && who !in s.team
    requires OpensPair(s.ledger, s'.ledger, who,
      OpenedPart(l.ed, CustodyPart(amount)), OpenedPart(l.ed, ReservePart(amount)))
    requires s'.team == s.team[who := Info(amount, 0, Pure(who, 0), Pure(who, 1))]
    ensures Funded(l, s')
  {
    forall w | w in s'.team
      ensures s'.ledger.Total(Pure(w, 0)) == OpenedPart(l.ed, CustodyPart(s'.team[w].allocation))
      ensures s'.ledger.Total(Pure(w, 1)) == OpenedPart(l.ed, ReservePart(s'.team[w].allocation))
    {
      if w != who {
        SamePair(s.ledger, s'.ledger, who, w, OpenedPart(l.ed, CustodyPart(amount)), OpenedPart(l.ed, ReservePart(amount)));
      }
    }
    forall x | x in s'.ledger.accounts
      ensures x in l.accounts || (x.Pure? && x.owner in s'.team)
    {
      assert x != Pure(who, 0) && x != Pure(who, 1) ==> x in s.ledger.accounts;
    }
  }

  lemma {:induction false} SamePair(l: Ledger, l': Ledger, who: AccountId, w: AccountId, first: nat, second: nat)
    requires OpensPair(l, l', who, first, second) && w != who
    ensures l'.Total(Pure(w, 0)) == l.Total(Pure(w, 0)) && l'.Total(Pure(w, 1)) == l.Total(Pure(w, 1))
  {
    assert l'.Get(Pure(w, 0)) == l.Get(Pure(w, 0));
    assert l'.Get(Pure(w, 1)) == l.Get(Pure(w, 1));
  }

  /**
   A genesis list of distinct members, none of them the custody or reserve account of another, on a ledger
   that has none of those accounts yet.
   */
  predicate GoodList(l: Ledger, allocations: seq<(AccountId, nat)>) {
    && Live(l)
    && (forall i, j :: 0 <= i < j < |allocations| ==> allocations[i].0 != allocations[j].0)
    && (forall i, j :: 0 <= i < |allocations| && 0 <= j < |allocations| ==>
          allocations[i].0 != Pure(allocations[j].0, 0) && allocations[i].0 != Pure(allocations[j].0, 1))
    && (forall i :: 0 <= i < |allocations| ==>
          Pure(allocations[i].0, 0) !in l.accounts && Pure(allocations[i].0, 1) !in l.accounts)
  }

  /** Only the listed accounts are members. */
  lemma {:induction false} OnlyListed(l: Ledger, allocations: seq<(AccountId, nat)>, who: AccountId)
    requires who in InitializeAll(Genesis(l), allocations).team
    ensures exists i :: 0 <= i < |allocations| && allocations[i].0 == who
    decreases |allocations|
  {
    var n := |allocations| - 1;
    if allocations != [] && who != allocations[n].0 {
      InitializeTeam(InitializeAll(Genesis(l), allocations[..n]), allocations[n].0, allocations[n].1);
      OnlyListed(l, allocations[..n], who);
      var i :| 0 <= i < n && allocations[..n][i].0 == who;
      assert allocations[i].0 == who;
    }
  }

  lemma {:induction false} GenesisFunded(l: Ledger, allocations: seq<(AccountId, nat)>)
    requires GoodList(l, allocations)
    ensures var s := InitializeAll(Genesis(l), allocations);
      Funded(l, s) && s.events == []
    decreases |allocations|
  {
    if allocations != [] {
      var n := |allocations| - 1;
      var before := allocations[..n];
      GenesisFunded(l, before);
      var s0 := InitializeAll(Genesis(l), before);
      var who, amount := allocations[n].0, allocations[n].1;
      LastIsNew(l, allocations);
      InitializeFunded(l, s0, who, amount);
      assert InitializeAll(Genesis(l), allocations) == InitializeCustody(s0, who, amount);
    }
  }

  lemma {:induction false} LastIsNew(l: Ledger, allocations: seq<(AccountId, nat)>)
    requires allocations != []
    requires forall i, j :: 0 <= i < j < |allocations| ==> allocations[i].0 != allocations[j].0
    ensures allocations[|allocations| - 1].0 !in InitializeAll(Genesis(l), allocations[..|allocations| - 1]).team
  {
    var n := |allocations| - 1;
    if allocations[n].0 in InitializeAll(Genesis(l), allocations[..n]).team {
      OnlyListed(l, allocations[..n], allocations[n].0);
    }
  }

  lemma {:induction false} GenesisSound(c: Config, l: Ledger, allocations: seq<(AccountId, nat)>)
    requires GoodList(l, allocations)
    ensures var s := InitializeAll(Genesis(l), allocations);
      Sound(c, s, s) && Funded(l, s) && s.events == []
  {
    var s := InitializeAll(Genesis(l), allocations);
    GenesisFunded(l, allocations);
    GenesisStructure(c, l, allocations);
    GenesisAccounts(l, allocations);
    forall who | who in s.team
      ensures s.team[who].custody == Pure(who, 0) && s.team[who].reserve == Pure(who, 1)
    {
      assert Initial(who, s.team[who]);
    }
    forall who | who in s.team
      ensures !IsPot(s, who)
    {
      OnlyListed(l, allocations, who);
      if who.Pure? && who.owner in s.team {
        OnlyListed(l, allocations, who.owner);
      }
    }
  }

  /**
   How genesis splits an allocation: 5.5555556% of it, to the nearest unit, goes into the reserve account and
   the rest into the custody account; a part below the existential deposit is not deposited.
   */
  lemma {:induction false} GenesisSplit(l: Ledger, allocations: seq<(AccountId, nat)>, i: nat)
    requires GoodList(l, allocations) && i < |allocations|
    ensures var (who, allocation) := allocations[i];
      var s := InitializeAll(Genesis(l), allocations);
      var reserve := ReservePart(allocation);
      && 2 * 55_555_556 * allocation - 1_000_000_000 <= 2 * 1_000_000_000 * reserve
      && 2 * 1_000_000_000 * reserve <= 2 * 55_555_556 * allocation + 1_000_000_000
      && reserve <= allocation
      && who in s.team && s.team[who].allocation == allocation && s.team[who].vested == 0
      && s.team[who].custody == Pure(who, 0) && s.team[who].reserve == Pure(who, 1)
      && s.ledger.Total(Pure(who, 1)) == (if reserve < l.ed then 0 else reserve)
      && s.ledger.Total(Pure(who, 0)) == (if allocation - reserve < l.ed then 0 else allocation - reserve)
  {
    var who, allocation := allocations[i].0, allocations[i].1;
    ReserveShare(allocation);
    PartsAddUp(allocation);
    GenesisFunded(l, allocations);
    GenesisAccounts(l, allocations);
    Listed(l, allocations, i);
    assert Initial(who, InitializeAll(Genesis(l), allocations).team[who]);
  }

  lemma {:induction false} ReserveShare(allocation: nat)
    ensures 2 * 55_555_556 * allocation - BILLION <= 2 * BILLION * ReservePart(allocation)
    ensures 2 * BILLION * ReservePart(allocation) <= 2 * 55_555_556 * allocation + BILLION
  {
    assert RESERVE_RATIO == 55_555_556;
    OfWithinHalf(RESERVE_RATIO, allocation);
  }

  /** Without duplicates every entry of the list is in the team with its amount. */
  lemma {:induction false} Listed(l: Ledger, allocations: seq<(AccountId, nat)>, i: nat)
    requires i < |allocations|
    requires forall j, k :: 0 <= j < k < |allocations| ==> allocations[j].0 != allocations[k].0
    ensures var team := InitializeAll(Genesis(l), allocations).team;
      allocations[i].0 in team && team[allocations[i].0].allocation == allocations[i].1
    decreases |allocations|
  {
    var n := |allocations| - 1;
    InitializeTeam(InitializeAll(Genesis(l), allocations[..n]), allocations[n].0, allocations[n].1);
    if i < n {
      Listed(l, allocations[..n], i);
    }
  }

  /**
   The promise of the pallet: over a complete run from genesis a member, or whoever replaced it, receives
   exactly what genesis put aside plus what other pallets put into the two accounts and did not take out
   again; and genesis puts the whole allocation aside unless a part is below the existential deposit.
   */
  lemma {:induction false} VestsInFull(
      c: Config, l: Ledger, allocations: seq<(AccountId, nat)>, steps: seq<Step>, who: AccountId, u: Unstaking)
    requires GoodList(l, allocations) && StepsOk(InitializeAll(Genesis(l), allocations), steps)
    requires var s := Run(c, InitializeAll(Genesis(l), allocations), steps);
      && who in s.team && IsDone(c, s.block) && Payout(c, s, who, u).Ok?
      && NothingHeldBack(s, s.team[who], u)
    ensures var s0 := InitializeAll(Genesis(l), allocations); var s := Run(c, s0, steps);
      var info, s' := s.team[who], Payout(c, s, who, u).value;
      PaidFrom(s'.events, info.custody) + PaidFrom(s'.events, info.reserve) ==
        Opened(l.ed, info.allocation) + OutsideIn(c, s0, steps, info.custody) + OutsideIn(c, s0, steps, info.reserve)
  {
    var s0 := InitializeAll(Genesis(l), allocations);
    GenesisSound(c, l, allocations);
    GenesisAccounts(l, allocations);
    ExactVesting(c, s0, steps, who, u);
    RunSound(c, s0, s0, steps);
    var info := Run(c, s0, steps).team[who];
    var owner := info.custody.owner;
    assert Initial(owner, s0.team[owner]);
  }
}
