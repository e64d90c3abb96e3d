/**
 The currency every pallet moves: accounts with a free, a reserved and a frozen amount, the total
 issuance, and an existential deposit below which an account is reaped and its dust burned.

 Imbalances are plain amounts here. A positive imbalance is money that an account already holds but
 that issuance does not count yet; a negative one is the reverse. Dropping either squares issuance.
 */
module Ledgers {
  import opened Wrappers
  import opened MapSums
  import opened Perbills

  /** User accounts, keyless proxy accounts derived from an owner, and accounts derived from a pallet id. */
  datatype AccountId =
    | User(id: nat)
    | Pure(owner: AccountId, index: nat)
    | Pallet(name: string)

  /** The balance of one account; it carries the account's own id. */
  datatype Account = Account(id: AccountId, free: nat, reserved: nat, frozen: nat) {
    function Total(): nat { free + reserved }

    function Credit(value: nat): Account { Account(id, free + value, reserved, frozen) }

    function Debit(value: nat): Account
      requires value <= free
    {
      Account(id, free - value, reserved, frozen)
    }

    /** Hand a reserved amount back, as far as there is one. */
    function Unreserved(value: nat): Account {
      var actual := if reserved < value then reserved else value;
      Account(id, free + actual, reserved - actual, frozen)
    }

    function Refrozen(value: nat): Account { Account(id, free, reserved, value) }

    /** What can be taken out; a frozen account must also keep the existential deposit. */
    function Reducible(ed: nat, keepAlive: bool): nat {
      var liquid := SatSub(free, frozen);
      if frozen == 0 && !keepAlive then liquid
      else SatSub(liquid, SatSub(ed, Total() - liquid))
    }
  }

  /** An account that does not exist holds nothing. */
  function Absent(who: AccountId): Account { Account(who, 0, 0, 0) }

  datatype CurrencyError = InsufficientBalance | ExistentialDeposit | LiquidityRestrictions | KeepAlive

  datatype Ledger = Ledger(ed: nat, accounts: map<AccountId, Account>, issuance: nat) {
    function Get(who: AccountId): Account {
      if who in accounts then accounts[who] else Absent(who)
    }

    function Free(who: AccountId): nat { Get(who).free }

    function Total(who: AccountId): nat { Get(who).Total() }

    /** Store an account; one that falls below the existential deposit is reaped and its remains burned. */
    function Put(who: AccountId, a: Account): Ledger {
      if a.Total() < ed then Ledger(ed, accounts - {who}, SatSub(issuance, a.Total()))
      else Ledger(ed, accounts[who := a], issuance)
    }

    function Transfer(from: AccountId, to: AccountId, value: nat): Result<Ledger, CurrencyError> {
      var src, dst := Get(from), Get(to);
      if value == 0 || from == to then Ok(this)
      else if src.free < value then Err(InsufficientBalance)
      else if dst.Total() + value < ed then Err(ExistentialDeposit)
      else if src.free - value < src.frozen then Err(LiquidityRestrictions)
      else if src.frozen != 0 && src.Total() - value < ed then Err(KeepAlive)
      else Ok(Put(to, dst.Credit(value)).Put(from, src.Debit(value)))
    }

    /** What a transfer burns because it would leave the source account too poor to live on. */
    function Dust(from: AccountId, to: AccountId, value: nat): nat {
      var left := SatSub(Total(from), value);
      if value != 0 && from != to && left < ed then left else 0
    }

    function Unreserve(who: AccountId, value: nat): Ledger {
      if value == 0 || who !in accounts then this else Put(who, Get(who).Unreserved(value))
    }

    /** What a deposit really credits: nothing if it would open an account below the existential deposit. */
    function Deposited(who: AccountId, value: nat): nat {
      if who !in accounts && value < ed then 0 else value
    }

    /** Credit an account without touching issuance; the positive imbalance is Deposited(who, value). */
    function DepositCreating(who: AccountId, value: nat): Ledger {
      if Deposited(who, value) == 0 then this else Put(who, Get(who).Credit(value))
    }

    /** Debit an account without touching issuance, as settling a positive imbalance does. */
    function Withdraw(who: AccountId, value: nat): Result<Ledger, CurrencyError> {
      var a := Get(who);
      if value == 0 then Ok(this)
      else if a.free < value then Err(InsufficientBalance)
      else if a.free - value < a.frozen then Err(LiquidityRestrictions)
      else Ok(Put(who, a.Debit(value)))
    }

    function DropPositive(value: nat): Ledger {
      Ledger(ed, accounts, issuance + value)
    }

    function DropNegative(value: nat): Ledger {
      Ledger(ed, accounts, SatSub(issuance, value))
    }

    /** How much of value can be taken out of issuance. */
    function Burned(value: nat): nat {
      if issuance < value then issuance else value
    }

    /** Take value out of issuance; the positive imbalance is Burned(value). */
    function Burn(value: nat): Ledger {
      Ledger(ed, accounts, issuance - Burned(value))
    }

    /** Put value into issuance; the negative imbalance is value. */
    function Issue(value: nat): Ledger {
      Ledger(ed, accounts, issuance + value)
    }
  }

  function TotalOf(a: Account): int { a.Total() }

  /** Everything held by any account. */
  ghost function Held(l: Ledger): int {
    Sum(l.accounts, TotalOf)
  }

  /** No imbalance is outstanding: issuance counts exactly what the accounts hold. */
  ghost predicate Backed(l: Ledger) {
    Held(l) == l.issuance
  }

  /** Every stored account holds at least the existential deposit. */
  predicate Live(l: Ledger) {
    forall a :: a in l.accounts ==> l.accounts[a].Total() >= l.ed
  }

  lemma {:induction false} PutLive(l: Ledger, who: AccountId, a: Account)
    requires Live(l)
    ensures Live(l.Put(who, a))
  {
  }

  lemma {:induction false} HeldCovers(l: Ledger, who: AccountId)
    ensures l.Total(who) <= Held(l)
  {
    SumLowerBound(l.accounts, TotalOf, who);
  }

  /** Storing an account moves the sum by the change of that account, less the dust. */
  lemma {:induction false} PutHeld(l: Ledger, who: AccountId, a: Account)
    ensures Held(l.Put(who, a)) == Held(l) - l.Total(who) + (if a.Total() < l.ed then 0 else a.Total())
  {
    if a.Total() < l.ed {
      SumDrop(l.accounts, TotalOf, who);
    } else {
      SumUpdate(l.accounts, TotalOf, who, a);
    }
  }

  /** A transfer conserves money whatever the existential deposit is: dust leaves the accounts and issuance alike. */
  lemma {:induction false} TransferConserves(l: Ledger, from: AccountId, to: AccountId, value: nat)
    requires l.Transfer(from, to, value).Ok? && Backed(l)
    ensures var l' := l.Transfer(from, to, value).value;
      && Backed(l')
      && l'.ed == l.ed
      && Held(l') == Held(l) - l.Dust(from, to, value)
  {
    if value != 0 && from != to {
      var dst := l.Get(to).Credit(value);
      var src := l.Get(from).Debit(value);
      PutHeld(l, to, dst);
      PutHeld(l.Put(to, dst), from, src);
      HeldCovers(l, from);
    }
  }

  lemma {:induction false} PutGet(l: Ledger, who: AccountId, a: Account, other: AccountId)
    ensures l.Put(who, a).Get(other) ==
      if other != who then l.Get(other) else if a.Total() < l.ed then Absent(who) else a
    ensures l.Put(who, a).ed == l.ed
  {
  }

  /** Exactly who gains and who loses in a transfer; every other account is untouched. */
  lemma {:induction false} TransferMoves(l: Ledger, from: AccountId, to: AccountId, value: nat, who: AccountId)
    requires l.Transfer(from, to, value).Ok?
    ensures var l' := l.Transfer(from, to, value).value;
      if value == 0 || from == to || (who != from && who != to) then l'.Get(who) == l.Get(who)
      else if who == to then l'.Get(who) == l.Get(who).Credit(value)
      else l'.Total(who) == l.Total(who) - value - l.Dust(from, to, value)
  {
    if value != 0 && from != to {
      var dst, src := l.Get(to).Credit(value), l.Get(from).Debit(value);
      PutGet(l, to, dst, who);
      PutGet(l.Put(to, dst), from, src, who);
    }
  }
}
