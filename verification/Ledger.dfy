/** Accounts of the shard's runtime, and what the balances pallet may do to them. */
module Ledger {
  import opened Prelude

  const EXISTENTIAL_DEPOSIT: nat := 500

  type AccountId = nat
  type Balance = x: int | 0 <= x < U128 witness 0
  type Index = x: int | 0 <= x < U32 witness 0

  datatype Account = Account(free: Balance, nonce: Index)
  type Accounts = map<AccountId, Account>

  function AccountOf(accounts: Accounts, who: AccountId): Account {
    if who in accounts then accounts[who] else Account(0, 0)
  }

  function Free(accounts: Accounts, who: AccountId): Balance {
    AccountOf(accounts, who).free
  }

  function Nonce(accounts: Accounts, who: AccountId): Index {
    AccountOf(accounts, who).nonce
  }

  function WithFree(accounts: Accounts, who: AccountId, free: Balance): Accounts {
    accounts[who := AccountOf(accounts, who).(free := free)]
  }

  /** Incrementing the nonce wraps around at 32 bits. */
  function WithNextNonce(accounts: Accounts, who: AccountId): Accounts {
    accounts[who := AccountOf(accounts, who).(nonce := (Nonce(accounts, who) + 1) % U32)]
  }

  /**
   * What the pallet decides about one dispatched call: whether it goes through, and, of the accounts it
   * leaves below the existential deposit, which lose their dust and which are removed altogether.
   */
  datatype Dispatch = Dispatch(ok: bool, dusted: set<AccountId>, killed: set<AccountId>)

  /** Accounts after a dispatched call, whether it succeeded, the accounts removed, and the dust lost. */
  datatype Booked = Booked(accounts: Accounts, ok: bool, killed: set<AccountId>, dust: nat)

  /** Two dispatched calls in a row. */
  function Then(first: Booked, second: Booked): Booked {
    Booked(second.accounts, second.ok, first.killed + second.killed, first.dust + second.dust)
  }

  function Settle(accounts: Accounts, who: AccountId, d: Dispatch): Booked {
    if who !in accounts || accounts[who].free >= EXISTENTIAL_DEPOSIT then Booked(accounts, true, {}, 0)
    else if who in d.killed then Booked(accounts - {who}, true, {who}, accounts[who].free)
    else if who in d.dusted then Booked(WithFree(accounts, who, 0), true, {}, accounts[who].free)
    else Booked(accounts, true, {}, 0)
  }

  /** A transfer moves the whole amount or fails without effect. */
  function Transfer(accounts: Accounts, from: AccountId, to: AccountId, value: Balance, d: Dispatch): Booked {
    if from == to || value == 0 then Booked(accounts, d.ok, {}, 0)
    else if !d.ok || Free(accounts, from) < value
      || Free(accounts, to) + value >= U128 then Booked(accounts, false, {}, 0)
    else
      var moved := WithFree(WithFree(accounts, from, Free(accounts, from) - value), to, Free(accounts, to) + value);
      var first := Settle(moved, from, d);
      Then(first, Settle(first.accounts, to, d))
  }

  /** Setting a balance as root sets it or fails without effect. */
  function ForceSetBalance(accounts: Accounts, who: AccountId, free: Balance, d: Dispatch): Booked {
    if !d.ok then Booked(accounts, false, {}, 0) else Settle(WithFree(accounts, who, free), who, d)
  }

  // ---------- Answers ----------

  /** A transfer goes through exactly if the pallet lets it and the amount can be paid and received, or moves nowhere. */
  lemma TransferSucceedsIff(accounts: Accounts, from: AccountId, to: AccountId, value: Balance, d: Dispatch)
    ensures var b := Transfer(accounts, from, to, value, d);
      && (b.ok <==> d.ok && (from == to || value == 0
                             || (value <= Free(accounts, from) && Free(accounts, to) + value < U128)))
      && (!b.ok ==> b.accounts == accounts && b.killed == {} && b.dust == 0)
  {
  }

  /** An account is removed, or loses its dust, exactly if it is below the deposit and the pallet decides so. */
  lemma SettledIff(accounts: Accounts, who: AccountId, d: Dispatch)
    requires who in accounts
    ensures var b, below := Settle(accounts, who, d), accounts[who].free < EXISTENTIAL_DEPOSIT;
      && b.killed == (if below && who in d.killed then {who} else {})
      && (who !in b.accounts <==> who in b.killed)
      && b.dust == (if below && (who in d.killed || who in d.dusted) then accounts[who].free else 0)
      && forall a :: a != who ==> AccountOf(b.accounts, a) == AccountOf(accounts, a)
  {
  }

  // ---------- Supply ----------

  ghost function Total(accounts: Accounts): nat {
    if accounts == map[] then 0
    else
      var who :| who in accounts;
      accounts[who].free + Total(accounts - {who})
  }

  lemma {:induction false} TotalWithout(accounts: Accounts, who: AccountId)
    requires who in accounts
    ensures Total(accounts) == accounts[who].free + Total(accounts - {who})
    decreases |accounts|
  {
    var first :| first in accounts && Total(accounts) == accounts[first].free + Total(accounts - {first});
    if first != who {
      assert |accounts - {first}| < |accounts| by {
        assert (accounts - {first}).Keys == accounts.Keys - {first};
      }
      TotalWithout(accounts - {first}, who);
      assert |accounts - {who}| < |accounts| by {
        assert (accounts - {who}).Keys == accounts.Keys - {who};
      }
      TotalWithout(accounts - {who}, first);
      assert accounts - {first} - {who} == accounts - {who} - {first};
    }
  }

  lemma TotalUpdated(accounts: Accounts, who: AccountId, account: Account)
    ensures Total(accounts[who := account]) == Total(accounts) - Free(accounts, who) + account.free
  {
    TotalWithout(accounts[who := account], who);
    assert accounts[who := account] - {who} == accounts - {who};
    if who in accounts {
      TotalWithout(accounts, who);
    } else {
      assert accounts - {who} == accounts;
    }
  }

  lemma FreeAtMostTotal(accounts: Accounts, who: AccountId)
    ensures Free(accounts, who) <= Total(accounts)
  {
    if who in accounts {
      TotalWithout(accounts, who);
    }
  }

  lemma SettleTotal(accounts: Accounts, who: AccountId, d: Dispatch)
    ensures Total(Settle(accounts, who, d).accounts) + Settle(accounts, who, d).dust == Total(accounts)
  {
    if who in accounts {
      TotalWithout(accounts, who);
      TotalUpdated(accounts, who, accounts[who].(free := 0));
    }
  }

  /** A transfer moves money around; what leaves circulation is exactly the dust. */
  lemma TransferTotal(accounts: Accounts, from: AccountId, to: AccountId, value: Balance, d: Dispatch)
    ensures var b := Transfer(accounts, from, to, value, d); Total(b.accounts) + b.dust == Total(accounts)
  {
    if from != to && Free(accounts, from) >= value && Free(accounts, to) + value < U128 {
      var paid := WithFree(accounts, from, Free(accounts, from) - value);
      var moved := WithFree(paid, to, Free(accounts, to) + value);
      TotalUpdated(accounts, from, AccountOf(accounts, from).(free := Free(accounts, from) - value));
      TotalUpdated(paid, to, AccountOf(paid, to).(free := Free(accounts, to) + value));
      SettleTotal(moved, from, d);
      SettleTotal(Settle(moved, from, d).accounts, to, d);
    }
  }

  lemma ForceSetTotal(accounts: Accounts, who: AccountId, free: Balance, d: Dispatch)
    ensures ForceSetBalance(accounts, who, free, d).ok == d.ok
    ensures var b := ForceSetBalance(accounts, who, free, d);
      Total(b.accounts) + b.dust == if b.ok then Total(accounts) - Free(accounts, who) + free else Total(accounts)
  {
    TotalUpdated(accounts, who, AccountOf(accounts, who).(free := free));
    SettleTotal(WithFree(accounts, who, free), who, d);
  }

  lemma NextNonceTotal(accounts: Accounts, who: AccountId)
    ensures Total(WithNextNonce(accounts, who)) == Total(accounts)
  {
    TotalUpdated(accounts, who, AccountOf(accounts, who).(nonce := (Nonce(accounts, who) + 1) % U32));
  }

  // ---------- Nonces ----------

  /** No dispatched call moves the nonce of an account it does not remove. */
  lemma TransferNonces(accounts: Accounts, from: AccountId, to: AccountId, value: Balance, d: Dispatch, who: AccountId)
    requires who !in Transfer(accounts, from, to, value, d).killed
    ensures Nonce(Transfer(accounts, from, to, value, d).accounts, who) == Nonce(accounts, who)
  {
  }

  lemma ForceSetNonces(accounts: Accounts, target: AccountId, free: Balance, d: Dispatch, who: AccountId)
    requires who !in ForceSetBalance(accounts, target, free, d).killed
    ensures Nonce(ForceSetBalance(accounts, target, free, d).accounts, who) == Nonce(accounts, who)
  {
  }
}
