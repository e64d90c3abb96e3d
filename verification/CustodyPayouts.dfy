/**
 What a single payout pays: exactly the entitlement when funds suffice, never below the existential
 deposit before the end, and everything that was ever put in by the end.
 */
module CustodyPayouts {
  import opened Wrappers
  import opened Ledgers
  import opened Perbills
  import opened Custody
  import opened CustodyBooks

  // ---------- the entitlement ----------

  /** Rounding can exceed the exact share by at most half a unit a chunk. */
  lemma {:induction false} EntitledWithinHalfChunk(c: Config, block: nat, allocation: nat)
    requires block <= c.duration
    ensures 2 * Entitled(c, block, allocation) <= 2 * allocation + block / c.frequency
  {
    var chunks := block / c.frequency;
    if chunks > 0 {
      assert c.frequency * chunks <= block;
      MulMono(c.frequency, 1, chunks);
      ChunkWithinHalf(c, allocation, chunks);
    }
  }

  /** One chunk is the allocation times frequency over duration, up to half a unit and a billionth of the allocation. */
  lemma {:induction false} ChunkValue(c: Config, allocation: nat)
    requires c.frequency <= c.duration
    ensures var exact, chunk := c.frequency * allocation * BILLION, ChunkOf(c, allocation) * c.duration * BILLION;
      && 2 * chunk <= 2 * exact + c.duration * BILLION
      && 2 * exact <= 2 * chunk + c.duration * BILLION + 2 * c.duration * allocation
  {
    var ratio := FromRational(c.frequency, c.duration);
    OfWithinHalf(ratio, allocation);
    assert 2 * ratio * allocation == 2 * (ratio * allocation);
    RatioValue(c.frequency, c.duration);
    RoundedChunk(ChunkOf(c, allocation), ratio, c.frequency, c.duration, allocation);
  }

  lemma {:induction false} RatioValue(f: nat, d: nat)
    requires 0 < f <= d
    ensures var ratio := FromRational(f, d); ratio * d <= f * BILLION < ratio * d + d
  {
    QuotientBounds(f * BILLION, d);
  }

  lemma {:induction false} RoundedChunk(chunk: nat, ratio: nat, f: nat, d: nat, allocation: nat)
    requires 2 * (ratio * allocation) - BILLION <= 2 * chunk * BILLION <= 2 * (ratio * allocation) + BILLION
    requires ratio * d <= f * BILLION < ratio * d + d
    ensures 2 * (chunk * d * BILLION) <= 2 * (f * allocation * BILLION) + d * BILLION
    ensures 2 * (f * allocation * BILLION) <= 2 * (chunk * d * BILLION) + d * BILLION + 2 * d * allocation
  {
    ScaleRatio(ratio, f, d, allocation);
    ScaleChunk(chunk, ratio * allocation, d);
    assert f * allocation * BILLION == f * BILLION * allocation;
  }

  lemma {:induction false} ScaleRatio(ratio: nat, f: nat, d: nat, allocation: nat)
    requires ratio * d <= f * BILLION < ratio * d + d
    ensures (ratio * allocation) * d <= f * BILLION * allocation <= (ratio * allocation) * d + d * allocation
  {
    MulMono(allocation, ratio * d, f * BILLION);
    MulMono(allocation, f * BILLION, ratio * d + d);
    assert allocation * (ratio * d) == (ratio * allocation) * d;
    assert allocation * (ratio * d + d) == (ratio * allocation) * d + d * allocation;
  }

  lemma {:induction false} ScaleChunk(chunk: nat, exact: nat, d: nat)
    requires 2 * exact - BILLION <= 2 * chunk * BILLION <= 2 * exact + BILLION
    ensures 2 * (chunk * d * BILLION) <= 2 * (exact * d) + d * BILLION
    ensures 2 * (exact * d) <= 2 * (chunk * d * BILLION) + d * BILLION
  {
    MulMono(d, 2 * chunk * BILLION, 2 * exact + BILLION);
    MulMono(d, 2 * exact, 2 * chunk * BILLION + BILLION);
    assert d * (2 * chunk * BILLION) == 2 * (chunk * d * BILLION);
    assert d * (2 * exact) == 2 * (exact * d);
  }

  lemma {:induction false} ChunkWithinHalf(c: Config, allocation: nat, chunks: nat)
    requires c.frequency * chunks <= c.duration && c.frequency <= c.duration
    ensures 2 * (ChunkOf(c, allocation) * chunks) <= 2 * allocation + chunks
  {
    var ratio := FromRational(c.frequency, c.duration);
    OfWithinHalf(ratio, allocation);
    FromRationalBelow(c.frequency, c.duration);
    RatioTimesChunks(ratio, c.frequency, c.duration, chunks);
    Scale(ratio, allocation, Of(ratio, allocation), chunks);
  }

  /** The ratio, taken as often as the frequency fits into the duration, stays within one. */
  lemma {:induction false} RatioTimesChunks(ratio: nat, frequency: nat, duration: nat, chunks: nat)
    requires ratio * duration <= frequency * BILLION && duration > 0
    requires frequency * chunks <= duration
    ensures ratio * chunks <= BILLION
  {
    if ratio * chunks > BILLION {
      MulMono(chunks, ratio * duration, frequency * BILLION);
      assert chunks * (ratio * duration) == (ratio * chunks) * duration;
      MulMono(duration, BILLION + 1, ratio * chunks);
    }
  }

  lemma {:induction false} Scale(ratio: nat, allocation: nat, chunk: nat, chunks: nat)
    requires 2 * chunk * BILLION <= 2 * ratio * allocation + BILLION
    requires ratio * chunks <= BILLION
    ensures 2 * (chunk * chunks) <= 2 * allocation + chunks
  {
    MulMono(chunks, 2 * chunk * BILLION, 2 * ratio * allocation + BILLION);
    assert chunks * (2 * chunk * BILLION) == (2 * (chunk * chunks)) * BILLION;
    assert chunks * (2 * ratio * allocation + BILLION) == 2 * allocation * (ratio * chunks) + chunks * BILLION;
    MulMono(2 * allocation, ratio * chunks, BILLION);
  }

  // ---------- a payout before the end ----------

  /** The custody and reserve account of a member are two accounts, and the member is neither. */
  predicate Apart(who: AccountId, info: Info) {
    who != info.custody && who != info.reserve && info.custody != info.reserve
  }

  /** What keep-alive withdrawals leave: nothing is taken, or at least the existential deposit stays. */
  lemma {:induction false} ReducibleKeepsAlive(a: Account, ed: nat, amount: nat)
    requires 0 < amount <= a.Reducible(ed, true)
    ensures amount <= a.free && a.free - amount >= a.frozen && a.Total() - amount >= ed
  {
  }

  /** A withdrawal of at most the keep-alive balance can fail only because the recipient would be too poor. */
  lemma {:induction false} KeepAliveTransfer(l: Ledger, from: AccountId, to: AccountId, amount: nat)
    requires from != to && amount <= l.Get(from).Reducible(l.ed, true)
    ensures l.Transfer(from, to, amount).Ok? <==> amount == 0 || l.Total(to) + amount >= l.ed
    ensures l.Transfer(from, to, amount).Ok? ==>
      var l' := l.Transfer(from, to, amount).value;
      && l'.Total(from) == l.Total(from) - amount
      && l'.Total(to) == l.Total(to) + amount
      && l.Dust(from, to, amount) == 0
      && l'.ed == l.ed
      && (amount > 0 ==> l'.Total(from) >= l.ed)
  {
    if amount > 0 {
      ReducibleKeepsAlive(l.Get(from), l.ed, amount);
      if l.Transfer(from, to, amount).Ok? {
        var dst, src := l.Get(to).Credit(amount), l.Get(from).Debit(amount);
        PutGet(l, to, dst, from);
        PutGet(l, to, dst, to);
        PutGet(l.Put(to, dst), from, src, from);
        PutGet(l.Put(to, dst), from, src, to);
      }
    }
  }

  /** The recipient ends each of the two transfers with the existential deposit. */
  predicate CanReceive(l: Ledger, who: AccountId, first: nat, second: nat) {
    && (first > 0 ==> l.Total(who) + first >= l.ed)
    && (second > 0 ==> l.Total(who) + first + second >= l.ed)
  }

  /** Recording a payment aside, Pay is the transfer. */
  lemma {:induction false} PayIsTransfer(s: State, from: AccountId, to: AccountId, amount: nat)
    ensures var p, t := Pay(s, from, to, amount), s.ledger.Transfer(from, to, amount);
      && (p.Ok? <==> t.Ok?)
      && (p.Ok? ==> p.value.ledger == t.value)
  {
  }

  /** The member gained what the two accounts lost, and neither went below the existential deposit to pay. */
  predicate Distributed(l: Ledger, l': Ledger, info: Info, who: AccountId, first: nat, second: nat) {
    && l'.Total(who) == l.Total(who) + first + second
    && l'.Total(info.custody) == l.Total(info.custody) - first
    && l'.Total(info.reserve) == l.Total(info.reserve) - second
    && (first > 0 ==> l'.Total(info.custody) >= l.ed)
    && (second > 0 ==> l'.Total(info.reserve) >= l.ed)
  }

  /** The two keep-alive transfers, one after the other. */
  lemma {:induction false} TransfersDistribute(l: Ledger, info: Info, who: AccountId, first: nat, second: nat)
    requires Apart(who, info)
    requires first <= l.Get(info.custody).Reducible(l.ed, true)
    requires second <= l.Get(info.reserve).Reducible(l.ed, true)
    requires l.Transfer(info.custody, who, first).Ok?
    ensures var l1 := l.Transfer(info.custody, who, first).value;
      var t := l1.Transfer(info.reserve, who, second);
      && (t.Ok? <==> second > 0 ==> l.Total(who) + first + second >= l.ed)
      && (t.Ok? ==> Distributed(l, t.value, info, who, first, second))
  {
    KeepAliveTransfer(l, info.custody, who, first);
    TransferMoves(l, info.custody, who, first, info.reserve);
    var l1 := l.Transfer(info.custody, who, first).value;
    SecondTransfer(l, l1, info, who, first, second);
  }

  lemma {:induction false} SecondTransfer(l: Ledger, l1: Ledger, info: Info, who: AccountId, first: nat, second: nat)
    requires Apart(who, info)
    requires second <= l1.Get(info.reserve).Reducible(l1.ed, true)
    requires l1.Total(who) == l.Total(who) + first && l1.Total(info.custody) == l.Total(info.custody) - first
    requires l1.Total(info.reserve) == l.Total(info.reserve) && l1.ed == l.ed
    requires first > 0 ==> l1.Total(info.custody) >= l.ed
    ensures var t := l1.Transfer(info.reserve, who, second);
      && (t.Ok? <==> second > 0 ==> l.Total(who) + first + second >= l.ed)
      && (t.Ok? ==> Distributed(l, t.value, info, who, first, second))
  {
    KeepAliveTransfer(l1, info.reserve, who, second);
    if l1.Transfer(info.reserve, who, second).Ok? {
      TransferMoves(l1, info.reserve, who, second, info.custody);
      assert l1.Transfer(info.reserve, who, second).value.Total(info.custody) == l1.Total(info.custody);
    }
  }

  lemma {:induction false} PayBothIsTransfers(s: State, info: Info, who: AccountId, first: nat, second: nat)
    ensures var p, t := PayBoth(s, info, who, first, second), s.ledger.Transfer(info.custody, who, first);
      && (p.Ok? <==> t.Ok? && t.value.Transfer(info.reserve, who, second).Ok?)
      && (p.Ok? ==> p.value.ledger == t.value.Transfer(info.reserve, who, second).value)
  {
    PayIsTransfer(s, info.custody, who, first);
    var p := Pay(s, info.custody, who, first);
    if p.Ok? {
      PayIsTransfer(p.value, info.reserve, who, second);
    }
  }

  lemma {:induction false} PayBothEffect(s: State, info: Info, who: AccountId, first: nat, second: nat)
    requires Apart(who, info)
    requires first <= s.ledger.Get(info.custody).Reducible(s.ledger.ed, true)
    requires second <= s.ledger.Get(info.reserve).Reducible(s.ledger.ed, true)
    ensures PayBoth(s, info, who, first, second).Ok? <==> CanReceive(s.ledger, who, first, second)
    ensures PayBoth(s, info, who, first, second).Ok? ==>
      Distributed(s.ledger, PayBoth(s, info, who, first, second).value.ledger, info, who, first, second)
  {
    PayBothIsTransfers(s, info, who, first, second);
    KeepAliveTransfer(s.ledger, info.custody, who, first);
    if s.ledger.Transfer(info.custody, who, first).Ok? {
      TransfersDistribute(s.ledger, info, who, first, second);
    }
  }

  /**
   A payout before the end of what is due. It succeeds exactly when something is there to pay it and the
   member can receive it; the custody account then pays what it can of it and the reserve account what it
   can of the rest, the member gets both, and no account that pays drops below the existential deposit.
   */
  lemma {:induction false} PartialPayoutExact(s: State, who: AccountId, info: Info, due: nat)
    requires Apart(who, info)
    ensures var l := s.ledger;
      var first := Min(due, l.Get(info.custody).Reducible(l.ed, true));
      var second := Min(due - first, l.Get(info.reserve).Reducible(l.ed, true));
      && first + second == Payable(l, info, due)
      && (DoPayout(s, who, due, info, true).Ok? <==> first + second > 0 && CanReceive(l, who, first, second))
      && (DoPayout(s, who, due, info, true).Ok? ==>
            Distributed(l, DoPayout(s, who, due, info, true).value.ledger, info, who, first, second))
  {
    var shares := Withdrawals(s.ledger, info, due, true);
    WithdrawalsAddUp(s.ledger, info, due);
    assert DoPayout(s, who, due, info, true) == Disburse(s, who, info, shares.0, shares.1, true);
    DisburseExact(s, who, info, shares.0, shares.1);
  }

  lemma {:induction false} DisburseExact(s: State, who: AccountId, info: Info, first: nat, second: nat)
    requires Apart(who, info)
    requires first <= s.ledger.Get(info.custody).Reducible(s.ledger.ed, true)
    requires second <= s.ledger.Get(info.reserve).Reducible(s.ledger.ed, true)
    ensures var r := Disburse(s, who, info, first, second, true);
      && (r.Ok? <==> first + second > 0 && CanReceive(s.ledger, who, first, second))
      && (r.Ok? ==> Distributed(s.ledger, r.value.ledger, info, who, first, second))
  {
    DisburseIsPayBoth(s, who, info, first, second);
    PayBothEffect(s, info, who, first, second);
  }

  lemma {:induction false} DisburseIsPayBoth(s: State, who: AccountId, info: Info, first: nat, second: nat)
    ensures var r, p := Disburse(s, who, info, first, second, true), PayBoth(s, info, who, first, second);
      && (r.Ok? <==> first + second > 0 && p.Ok?)
      && (r.Ok? ==> r.value.ledger == p.value.ledger)
  {
  }

  /** Catch-up: with enough funds the vested amount after a payout depends on the block alone, not on earlier payouts. */
  lemma {:induction false} CatchesUp(c: Config, s: State, who: AccountId, u: Unstaking)
    requires TeamOk(c, s) && Payout(c, s, who, u).Ok? && !IsDone(c, s.block)
    ensures var s', info := Payout(c, s, who, u).value, s.team[who];
      var l := s.ledger;
      var funds := l.Get(info.custody).Reducible(l.ed, true) + l.Get(info.reserve).Reducible(l.ed, true);
      && who in s'.team
      && s'.team[who].vested == Min(ChunkOf(c, info.allocation) * (s.block / c.frequency), info.vested + funds)
  {
    RequestedIsExact(c, s, who);
    DoPayoutVests(s, who, Requested(c, s.block, s.team[who]), s.team[who]);
  }

  /** Why a payout before the end fails, before any money is moved. */
  lemma {:induction false} PartialRefused(c: Config, s: State, who: AccountId, u: Unstaking)
    requires !IsDone(c, s.block)
    ensures Payout(c, s, who, u) == Err(InvalidTeamMember) <==> who !in s.team
    ensures who in s.team ==>
      var info := s.team[who];
      var due := ChunkOf(c, info.allocation) * (s.block / c.frequency) - info.vested;
      && (Payout(c, s, who, u) == Err(PayoutNotAvailable) <==> due <= 0)
      && (Payout(c, s, who, u) == Err(PayoutFailedInsufficientFunds) <==>
            due > 0 && Payable(s.ledger, info, due) == 0)
  {
    if who in s.team {
      var info := s.team[who];
      var due := Requested(c, s.block, info);
      if due > 0 {
        WithdrawalsAddUp(s.ledger, info, due);
        var shares := Withdrawals(s.ledger, info, due, true);
        assert DoPayout(s, who, due, info, true) == Disburse(s, who, info, shares.0, shares.1, true);
        DisburseErrors(s, who, info, shares.0, shares.1);
      }
    }
  }

  lemma {:induction false} DisburseErrors(s: State, who: AccountId, info: Info, first: nat, second: nat)
    ensures var r := Disburse(s, who, info, first, second, true);
      && (r == Err(PayoutFailedInsufficientFunds) <==> first + second == 0)
      && r != Err(PayoutNotAvailable) && r != Err(InvalidTeamMember)
  {
  }

  /** After the end a payout waits for the staking pallet; only its refusal is reported as such. */
  lemma {:induction false} FinalRefused(c: Config, s: State, who: AccountId, u: Unstaking)
    requires IsDone(c, s.block)
    ensures Payout(c, s, who, u) == Err(InvalidTeamMember) <==> who !in s.team
    ensures Payout(c, s, who, u) == Err(StakingRefused) <==> who in s.team && u.Refused?
  {
    if who in s.team && !u.Refused? {
      var info := s.team[who];
      var released := Release(s, info.custody, u);
      var shares := Withdrawals(released.ledger, info, 0, false);
      assert DoPayout(released, who, 0, info, false) == Disburse(released, who, info, shares.0, shares.1, false);
      FinalErrors(released, who, info, shares.0, shares.1);
    }
  }

  lemma {:induction false} FinalErrors(s: State, who: AccountId, info: Info, first: nat, second: nat)
    ensures var r := Disburse(s, who, info, first, second, false);
      r.Err? ==> r.error.Currency?
  {
  }

  /** A replacement gives the member's record to the successor, under that name alone, and changes nothing else. */
  lemma {:induction false} ReplaceMoves(s: State, who: AccountId, successor: AccountId)
    ensures var r := Replace(s, who, successor);
      && (r.Ok? <==> who in s.team && successor !in s.team)
      && (r.Ok? ==>
            && who !in r.value.team && successor in r.value.team && r.value.team[successor] == s.team[who]
            && r.value.ledger == s.ledger && r.value.total == s.total
            && r.value.custodyAccounts == s.custodyAccounts
            && forall x :: x != who && x != successor ==>
                 ((x in r.value.team <==> x in s.team) && (x in s.team ==> r.value.team[x] == s.team[x])))
  {
  }
}
