/**
 What the calls on claims and rewards do for those concerned: who is paid, what is filed for enactment, what
 moves with a claim, and why a claim is refused.
 */
module ClaimEffects {
  import opened Wrappers
  import opened Ledgers
  import opened Perbills
  import opened Vesting
  import opened Claims
  import opened Betanet
  import opened ClaimsSolvency
  import RewardPool
  import Encoding

  // ---------- paying a claim ----------

  /** m' is m without the entry of one key. */
  ghost predicate Without<K(!new), V>(m: map<K, V>, m': map<K, V>, key: K) {
    key !in m' && forall k :: k != key ==> Lookup(m', k) == Lookup(m, k)
  }

  /**
   A claim that is paid: the account gets the whole claim, unless that is too little to open it, and nobody
   else gets or loses anything; issuance rises by what it gets and the pot falls by the claim; the address
   has nothing left; and before the enactment block a proposed reward is filed with the claim as principal,
   under the six-month option.
   */
  lemma {:induction false} ClaimPays(
      c: Config, s: State, signer: EthereumAddress, dest: AccountId, x: AccountId)
    requires Live(s.ledger) && ProcessClaim(c, s, signer, dest).Ok?
    ensures var s' := ProcessClaim(c, s, signer, dest).value;
      var claim := s.claims[signer];
      var paid := if dest !in s.ledger.accounts && claim < s.ledger.ed then 0 else claim;
      && s'.ledger.Free(x) == s.ledger.Free(x) + (if x == dest then paid else 0)
      && s'.ledger.Total(x) == s.ledger.Total(x) + (if x == dest then paid else 0)
      && s'.ledger.issuance == s.ledger.issuance + paid
      && s'.total + claim == s.total
      && Without(s.claims, s'.claims, signer) && Without(s.vesting, s'.vesting, signer)
      && Without(s.signing, s'.signing, signer) && Without(s.rewards, s'.rewards, signer)
      && (if signer in s.rewards && s.block < c.enactment then
            s'.accounts == s.accounts[dest := UserInfo(claim, s.rewards[signer], Vesting6Month)]
          else s'.accounts == s.accounts)
      && s'.preclaims == s.preclaims && s'.approved == s.approved && s'.block == s.block
      && (signer !in s.vesting ==> s'.schedules == s.schedules)
  {
    ClaimDeposit(s.ledger, dest, s.claims[signer], x);
  }

  lemma {:induction false} ClaimDeposit(l: Ledger, dest: AccountId, claim: nat, x: AccountId)
    requires Live(l)
    ensures var l' := Claims.Deposit(l, dest, claim);
      var paid := if dest !in l.accounts && claim < l.ed then 0 else claim;
      && l'.Get(x) == (if x == dest then l.Get(x).Credit(paid) else l.Get(x))
      && l'.issuance == l.issuance + paid
  {
    var paid := l.Deposited(dest, claim);
    if paid > 0 {
      RewardPool.DepositEffect(l, dest, claim, x);
      assert l.Deposited(dest, claim) == claim;
      DepositIssues(l, dest, claim);
    } else {
      assert l.DepositCreating(dest, claim) == l;
    }
  }

  lemma {:induction false} DepositIssues(l: Ledger, dest: AccountId, claim: nat)
    requires l.DepositCreating(dest, claim).issuance == l.issuance
    ensures Claims.Deposit(l, dest, claim).issuance == l.issuance + l.Deposited(dest, claim)
    ensures forall x :: Claims.Deposit(l, dest, claim).Get(x) == l.DepositCreating(dest, claim).Get(x)
  {
  }

  // ---------- why a claim is refused ----------

  /** The address has a claim that can be paid to the account now. */
  predicate Payable(s: State, signer: EthereumAddress, dest: AccountId) {
    signer in s.claims && s.claims[signer] <= s.total && !(signer in s.vesting && dest in s.schedules)
  }

  /** A plain claim is paid exactly to whoever holds a signature of an address that owes no statement. */
  lemma {:induction false} ClaimPaid(c: Config, s: State, dest: AccountId, signature: Signature)
    ensures var message := Encoding.Message(c.prefix, Encoding.ToAsciiHex(c.encode(dest)), []);
      var from := c.recover(signature, message);
      var r := Dispatch(c, s, Call.Claim(dest, signature));
      && (r.Ok? <==> from.Some? && from.value !in s.signing && Payable(s, from.value, dest))
      && (r == Err(InvalidEthereumSignature) <==> from.None?)
      && (r == Err(InvalidStatement) <==> from.Some? && from.value in s.signing)
      && (r.Ok? ==> r == ProcessClaim(c, s, from.value, dest))
  {
  }

  /** A claim with a statement is paid exactly when the signer owes that statement, or none at all. */
  lemma {:induction false} ClaimAttestPaid(c: Config, s: State, dest: AccountId, signature: Signature, statement: Bytes)
    ensures var message := Encoding.Message(c.prefix, Encoding.ToAsciiHex(c.encode(dest)), statement);
      var from := c.recover(signature, message);
      var r := Dispatch(c, s, Call.ClaimAttest(dest, signature, statement));
      var owed := from.Some? && from.value in s.signing ==> c.text(s.signing[from.value]) == statement;
      && (r.Ok? <==> from.Some? && owed && Payable(s, from.value, dest))
      && (r == Err(InvalidEthereumSignature) <==> from.None?)
      && (r == Err(InvalidStatement) <==> from.Some? && !owed)
      && (r.Ok? ==> r == ProcessClaim(c, s, from.value, dest))
  {
  }

  /** An attest pays the address the account is preclaimed for, and uses the preclaim up. */
  lemma {:induction false} AttestPaid(c: Config, s: State, who: AccountId, statement: Bytes)
    ensures var r := Dispatch(c, s, Call.Attest(who, statement));
      && (r == Err(SenderHasNoClaim) <==> who !in s.preclaims)
      && (who in s.preclaims ==>
            var address := s.preclaims[who];
            var owed := address in s.signing ==> c.text(s.signing[address]) == statement;
            && (r.Ok? <==> owed && Payable(s, address, who))
            && (r == Err(InvalidStatement) <==> !owed)
            && (r.Ok? ==>
                  var paid := ProcessClaim(c, s, address, who);
                  && paid.Ok? && Without(s.preclaims, r.value.preclaims, who)
                  && r.value.ledger == paid.value.ledger && r.value.claims == paid.value.claims
                  && r.value.total == paid.value.total && r.value.vesting == paid.value.vesting
                  && r.value.signing == paid.value.signing && r.value.rewards == paid.value.rewards
                  && r.value.accounts == paid.value.accounts && r.value.schedules == paid.value.schedules))
  {
  }

  // ---------- minting and moving ----------

  /** m' is m with the entry of one key, if there is one, under another, replacing what was there. */
  ghost predicate Rekeyed<V>(m: map<EthereumAddress, V>, m': map<EthereumAddress, V>, from: EthereumAddress, to: EthereumAddress) {
    forall a :: Lookup(m', a) ==
      if from !in m then Lookup(m, a)
      else if a == to then Some(m[from])
      else if a == from then None
      else Lookup(m, a)
  }

  /**
   A claim that is moved takes its vesting and its statement along but not its proposed reward, and a preclaim
   that pointed to the old address follows.
   */
  lemma {:induction false} MoveTakesAlong(
      c: Config, s: State, from: EthereumAddress, to: EthereumAddress, preclaim: Option<AccountId>)
    ensures var r := Dispatch(c, s, Call.MoveClaim(from, to, preclaim));
      && r.Ok?
      && Rekeyed(s.claims, r.value.claims, from, to)
      && Rekeyed(s.vesting, r.value.vesting, from, to)
      && Rekeyed(s.signing, r.value.signing, from, to)
      && (forall who :: Lookup(r.value.preclaims, who) ==
            if preclaim == Some(who) && Lookup(s.preclaims, who) == Some(from) then Some(to)
            else Lookup(s.preclaims, who))
      && r.value.rewards == s.rewards && r.value.total == s.total && r.value.ledger == s.ledger
      && r.value.accounts == s.accounts && r.value.schedules == s.schedules
  {
  }

  /** A minted claim fills the pot by its value and files what comes with it. */
  lemma {:induction false} MintFiles(
      c: Config, s: State, address: EthereumAddress, value: nat, vs: Option<seq<Schedule>>, kind: Option<StatementKind>)
    ensures var r := Dispatch(c, s, Call.MintClaim(address, value, vs, kind));
      && r.Ok? && r.value.total == s.total + value && r.value.claims == s.claims[address := value]
      && Lookup(r.value.vesting, address) == (if vs.Some? then vs else Lookup(s.vesting, address))
      && Lookup(r.value.signing, address) == (if kind.Some? then kind else Lookup(s.signing, address))
      && (forall a :: a != address ==>
            Lookup(r.value.vesting, a) == Lookup(s.vesting, a) && Lookup(r.value.signing, a) == Lookup(s.signing, a))
      && r.value.rewards == s.rewards && r.value.ledger == s.ledger && r.value.preclaims == s.preclaims
  {
  }

  // ---------- rewards ----------

  /** Choosing an option changes the option of the account and nothing else, and only before the enactment block. */
  lemma {:induction false} OptionChosen(c: Config, s: State, who: AccountId, option: RewardOption)
    ensures var r := Dispatch(c, s, Call.SelectOption(who, option));
      && (r == Err(NoRewards) <==> who !in s.accounts)
      && (r == Err(EnactmentBlockHasPassed) <==> who in s.accounts && s.block >= c.enactment)
      && (r.Ok? <==> who in s.accounts && s.block < c.enactment)
      && (r.Ok? ==>
            && r.value.accounts == s.accounts[who := UserInfo(s.accounts[who].principal, s.accounts[who].reward, option)]
            && r.value.rewards == s.rewards && r.value.claims == s.claims && r.value.ledger == s.ledger
            && r.value.approved == s.approved && r.value.schedules == s.schedules)
  {
  }

  /** The program is approved before the enactment block or not at all. */
  lemma {:induction false} ProgramApproved(c: Config, s: State)
    ensures var r := Dispatch(c, s, Approve);
      && (r.Ok? <==> s.block < c.enactment)
      && (r.Ok? ==> r.value.approved && r.value.accounts == s.accounts && r.value.ledger == s.ledger)
  {
  }

  /** A block passes; the maps of rewards are emptied exactly when an approved program meets its enactment block. */
  lemma {:induction false} BlockPasses(
      c: Config, s: State, accountOrder: seq<AccountId>, rewardOrder: seq<EthereumAddress>)
    requires OrdersOk(c, s, NextBlock(accountOrder, rewardOrder))
    ensures var s' := Next(c, s, NextBlock(accountOrder, rewardOrder));
      && s'.block == s.block + 1 && s'.approved == s.approved
      && s'.signing == s.signing && s'.preclaims == s.preclaims
      && if s.approved && s.block + 1 == c.enactment then s'.accounts == map[] && s'.rewards == map[]
         else
           && s'.accounts == s.accounts && s'.rewards == s.rewards && s'.claims == s.claims
           && s'.ledger == s.ledger && s'.schedules == s.schedules && s'.total == s.total && s'.vesting == s.vesting
  {
    if Enacts(c, s) {
      var now := AtBlock(s, s.block + 1);
      EnactKeeps(c, now, accountOrder, rewardOrder);
      assert Next(c, s, NextBlock(accountOrder, rewardOrder)) == Enact(c, now, accountOrder, rewardOrder);
    }
  }

  lemma {:induction false} EnactKeeps(
      c: Config, s: State, accountOrder: seq<AccountId>, rewardOrder: seq<EthereumAddress>)
    requires Enumerates(accountOrder, s.accounts.Keys) && Enumerates(rewardOrder, s.rewards.Keys)
    ensures var s' := Enact(c, s, accountOrder, rewardOrder);
      && s'.block == s.block && s'.approved == s.approved && s'.accounts == map[] && s'.rewards == map[]
      && s'.signing == s.signing && s'.preclaims == s.preclaims
  {
    DrainedKeeps(c, s, accountOrder);
    RewardsKeep(c, DrainAccounts(c, s, accountOrder), rewardOrder);
  }

  lemma {:induction false} RewardsKeep(c: Config, s: State, order: seq<EthereumAddress>)
    requires forall a :: a in order ==> a in s.rewards
    ensures var s' := DrainRewards(c, s, order);
      && s'.block == s.block && s'.approved == s.approved
      && s'.signing == s.signing && s'.preclaims == s.preclaims
    decreases |order|
  {
    if order != [] {
      RewardsKeep(c, ProcessLeftover(c, s, order[0], s.rewards[order[0]]), order[1..]);
    }
  }

  // ---------- genesis ----------

  /** No two entries name the same address. */
  predicate DistinctAddresses(entries: seq<Entry>) {
    forall i, j :: 0 <= i < j < |entries| ==> entries[i].address != entries[j].address
  }

  /** Each address of genesis has the value, the reward and the statement of its entry. */
  lemma {:induction false} GenesisEntry(entries: seq<Entry>, i: nat)
    requires DistinctAddresses(entries) && i < |entries|
    ensures Lookup(GenesisClaims(entries), entries[i].address) == Some(entries[i].value)
    ensures Lookup(GenesisRewards(entries), entries[i].address) == entries[i].reward
    ensures Lookup(GenesisSigning(entries), entries[i].address) == entries[i].kind
    decreases |entries|
  {
    var n := |entries| - 1;
    if i < n {
      assert entries[i].address != entries[n].address;
      assert entries[..n][i] == entries[i];
      GenesisEntry(entries[..n], i);
    } else {
      NoEntry(entries[..n], entries[n].address);
    }
  }

  lemma {:induction false} NoEntry(entries: seq<Entry>, address: EthereumAddress)
    requires forall i :: 0 <= i < |entries| ==> entries[i].address != address
    ensures address !in GenesisClaims(entries) && address !in GenesisRewards(entries) && address !in GenesisSigning(entries)
    decreases |entries|
  {
    if entries != [] {
      NoEntry(entries[..|entries| - 1], address);
    }
  }

  /** The last entry that names an account as preclaim decides where it points. */
  lemma {:induction false} GenesisPreclaim(entries: seq<Entry>, i: nat)
    requires i < |entries| && entries[i].preclaim.Some?
    requires forall j :: i < j < |entries| ==> entries[j].preclaim != entries[i].preclaim
    ensures Lookup(GenesisPreclaims(entries), entries[i].preclaim.value) == Some(entries[i].address)
    decreases |entries|
  {
    var n := |entries| - 1;
    if i < n {
      assert entries[..n][i] == entries[i];
      GenesisPreclaim(entries[..n], i);
    }
  }
}
