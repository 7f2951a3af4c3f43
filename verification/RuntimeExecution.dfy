/** Trusted calls as they run: step by step on the runtime's storage, keeping whatever was done before an error. */
module RuntimeExecution {
  import opened Prelude
  import opened Ledger
  import T = TrustedCalls
  import opened TrustedCalls
  import opened VaultRules
  import opened BridgeAccounting
  import opened NonceDiscipline
  import opened CallEffects

  class Runtime {
    const sudoKey: Option<AccountId>
    const enclave: AccountId
    var accounts: Accounts
    var vaults: map<ParentchainId, AccountId>
    var createdAt: Option<Moment>
    var now: map<ParentchainId, Moment>
    /** Accounts removed and dust lost so far, as the pallet's events report them. */
    var killed: set<AccountId>
    var dust: nat

    constructor (s: RuntimeState)
      ensures State() == s && killed == {} && dust == 0
    {
      sudoKey, enclave := s.sudoKey, s.enclave;
      accounts, vaults, createdAt, now := s.accounts, s.vaults, s.createdAt, s.now;
      killed, dust := {}, 0;
    }

    function State(): RuntimeState
      reads this
    {
      RuntimeState(accounts, sudoKey, enclave, vaults, createdAt, now)
    }

    /** The books after a dispatched call. */
    method Book(b: Booked)
      modifies this`accounts, this`killed, this`dust
      ensures accounts == b.accounts && killed == old(killed) + b.killed && dust == old(dust) + b.dust
    {
      accounts := b.accounts;
      killed := killed + b.killed;
      dust := dust + b.dust;
    }

    method DispatchTransfer(from: AccountId, to: AccountId, value: Balance, d: Dispatch) returns (ok: bool)
      modifies this`accounts, this`killed, this`dust
      ensures var b := Transfer(old(accounts), from, to, value, d);
        ok == b.ok && accounts == b.accounts && killed == old(killed) + b.killed && dust == old(dust) + b.dust
    {
      var b := Transfer(accounts, from, to, value, d);
      Book(b);
      ok := b.ok;
    }

    method DispatchForceSetBalance(who: AccountId, free: Balance, d: Dispatch) returns (ok: bool)
      modifies this`accounts, this`killed, this`dust
      ensures var b := ForceSetBalance(old(accounts), who, free, d);
        ok == b.ok && accounts == b.accounts && killed == old(killed) + b.killed && dust == old(dust) + b.dust
    {
      var b := ForceSetBalance(accounts, who, free, d);
      Book(b);
      ok := b.ok;
    }

    method BurnFunds(who: AccountId, amount: Balance, d: Dispatch) returns (r: Result<(), StfError>)
      modifies this`accounts, this`killed, this`dust
      ensures match T.BurnFunds(old(accounts), who, amount, d)
        case Err(e) => r == Err(e) && accounts == old(accounts) && killed == old(killed) && dust == old(dust)
        case Ok(b) => r == (if b.ok then Ok(()) else Err(DispatchError))
                      && accounts == b.accounts && killed == old(killed) + b.killed && dust == old(dust) + b.dust
    {
      if Free(accounts, who) < amount { return Err(MissingFunds); }
      var ok := DispatchForceSetBalance(who, Free(accounts, who) - amount, d);
      r := if ok then Ok(()) else Err(DispatchError);
    }

    method ShieldFunds(who: AccountId, amount: Balance, env: Env) returns (r: Result<(), StfError>)
      modifies this`accounts, this`killed, this`dust
      ensures var b := T.ShieldFunds(old(accounts), enclave, who, amount, env);
        r == (if b.ok then Ok(()) else Err(DispatchError)) && accounts == b.accounts
          && killed == old(killed) + b.killed && dust == old(dust) + b.dust
    {
      var fee := amount / SHIELD_FEE_DIVISOR;
      var ok := DispatchForceSetBalance(enclave, Add128(Free(accounts, enclave), fee), env.first);
      if !ok { return Err(DispatchError); }
      ok := DispatchForceSetBalance(who, Add128(Free(accounts, who), amount - fee), env.second);
      r := if ok then Ok(()) else Err(DispatchError);
    }

    /** Only root sets balances. */
    method RunSetBalance(call: TrustedCall, env: Env, calls: seq<ParentchainCall>)
        returns (r: Result<(), StfError>, calls': seq<ParentchainCall>)
      requires call.BalanceSetBalance?
      modifies this
      ensures var o := ExecuteSetBalance(old(State()), call, env);
        r == o.result && State() == o.state && calls' == calls + o.calls && killed == old(killed) + o.killed
          && dust == old(dust) + o.dust
    {
      calls' := calls;
      if sudoKey != Some(call.sender) { return Err(MissingPrivileges(call.sender)), calls; }
      var ok := DispatchForceSetBalance(call.who, call.newFree, env.first);
      r := if ok then Ok(()) else Err(DispatchError);
    }

    /** Fee first, then the transfer. */
    method RunTransfer(call: TrustedCall, env: Env, calls: seq<ParentchainCall>)
        returns (r: Result<(), StfError>, calls': seq<ParentchainCall>)
      requires call.BalanceTransfer?
      modifies this
      ensures var o := ExecuteTransfer(old(State()), call, env);
        r == o.result && State() == o.state && calls' == calls + o.calls && killed == old(killed) + o.killed
          && dust == old(dust) + o.dust
    {
      calls' := calls;
      var ok := DispatchTransfer(call.sender, enclave, STF_TX_FEE, env.first);
      if !ok { return Err(DispatchError), calls; }
      ok := DispatchTransfer(call.sender, call.to, call.value, env.second);
      r := if ok then Ok(()) else Err(DispatchError);
    }

    /** Fee, burn, and only then the call that pays out from the vault. */
    method RunUnshield(call: TrustedCall, env: Env, calls: seq<ParentchainCall>)
        returns (r: Result<(), StfError>, calls': seq<ParentchainCall>)
      requires call.BalanceUnshield?
      modifies this
      ensures var o := ExecuteUnshield(old(State()), call, env);
        r == o.result && State() == o.state && calls' == calls + o.calls && killed == old(killed) + o.killed
          && dust == old(dust) + o.dust
    {
      calls' := calls;
      var ok := DispatchTransfer(call.sender, enclave, UNSHIELD_FEE, env.first);
      if !ok { return Err(DispatchError), calls; }
      r := BurnFunds(call.sender, call.value, env.second);
      if r.Err? { return; }
      var vault := ShardVault(vaults);
      if vault.None? { return Err(DispatchError), calls; }
      if !env.transferIndex || !env.proxyIndex { return Err(InvalidMetadata), calls; }
      calls' := calls + [ParentchainCall(vault.value.1, VaultTransfer(vault.value.0, call.beneficiary, call.value))];
    }

    /** Only the enclave shields, and only from the chain of the vault. */
    method RunShield(call: TrustedCall, env: Env, calls: seq<ParentchainCall>)
        returns (r: Result<(), StfError>, calls': seq<ParentchainCall>)
      requires call.BalanceShield?
      modifies this
      ensures var o := ExecuteShield(old(State()), call, env);
        r == o.result && State() == o.state && calls' == calls + o.calls && killed == old(killed) + o.killed
          && dust == old(dust) + o.dust
    {
      calls' := calls;
      if call.sender != enclave { return Err(RequireEnclaveSignerAccount), calls; }
      var vault := ShardVault(vaults);
      if vault.None? { return Err(NoShardVaultAssigned), calls; }
      if call.origin != vault.value.1 { return Err(WrongParentchainIdForShardVault), calls; }
      r := ShieldFunds(call.who, call.value, env);
      if r.Err? { return; }
      if !env.publishIndex { return Err(InvalidMetadata), calls; }
      calls' := calls + [ParentchainCall(Integritee, PublishHash(call))];
    }

    /** The first timestamp of the Integritee chain is also the creation time. */
    method RunTimestamp(call: TrustedCall, env: Env, calls: seq<ParentchainCall>)
        returns (r: Result<(), StfError>, calls': seq<ParentchainCall>)
      requires call.TimestampSet?
      modifies this
      ensures var o := ExecuteTimestamp(old(State()), call, env);
        r == o.result && State() == o.state && calls' == calls + o.calls && killed == old(killed) + o.killed
          && dust == old(dust) + o.dust
    {
      calls' := calls;
      if call.sender != enclave { return Err(RequireEnclaveSignerAccount), calls; }
      if call.origin == Integritee && createdAt.None? {
        if !env.first.ok { return Err(DispatchError), calls; }
        createdAt := Some(call.now);
      }
      if !env.second.ok { return Err(DispatchError), calls; }
      now := now[call.origin := call.now];
      r := Ok(());
    }

    /** Checks and uses up the nonce, then runs the call. */
    method CheckAndRun(c: TrustedCallSigned, env: Env, calls: seq<ParentchainCall>)
        returns (r: Result<(), StfError>, calls': seq<ParentchainCall>)
      modifies this
      ensures var o := T.Execute(old(State()), c, env);
        r == o.result && State() == o.state && calls' == calls + o.calls && killed == old(killed) + o.killed
          && dust == old(dust) + o.dust
    {
      hide ExecuteSetBalance, ExecuteTransfer, ExecuteUnshield, ExecuteShield, ExecuteTimestamp;
      var sender := c.call.sender;
      var systemNonce := Nonce(accounts, sender);
      if c.nonce != systemNonce { return Err(InvalidNonce(c.nonce, systemNonce)), calls; }
      accounts := WithNextNonce(accounts, sender);
      match c.call {
        case Noop(_) => r, calls' := Ok(()), calls;
        case BalanceSetBalance(_, _, _, _) => r, calls' := RunSetBalance(c.call, env, calls);
        case BalanceTransfer(_, _, _) => r, calls' := RunTransfer(c.call, env, calls);
        case BalanceUnshield(_, _, _, _) => r, calls' := RunUnshield(c.call, env, calls);
        case BalanceShield(_, _, _, _) => r, calls' := RunShield(c.call, env, calls);
        case TimestampSet(_, _, _) => r, calls' := RunTimestamp(c.call, env, calls);
      }
    }

    /**
     * Runs a signed call. It succeeds exactly if it got past the nonce check and all it needs is there; every
     * balance is then what it should be, and the parentchains are asked for what the call is about. A failing
     * call asks for nothing. The books balance, vaults stay, and only the sender's nonce moves.
     */
    method Execute(c: TrustedCallSigned, env: Env, calls: seq<ParentchainCall>)
        returns (r: Result<(), StfError>, calls': seq<ParentchainCall>)
      modifies this
      ensures var o := T.Execute(old(State()), c, env);
        r == o.result && State() == o.state && calls' == calls + o.calls && killed == old(killed) + o.killed
          && dust == old(dust) + o.dust
      ensures r.Ok? <==> PassesNonceCheck(old(State()), c) && Succeeds(Checked(old(State()), c), c.call, env)
      ensures var s := old(State());
        PassesNonceCheck(s, c) && Supply(s) + Creditable(RolesOf(s), c.call) < U128 ==>
        var s := Checked(s, c);
        forall a :: UpToDust(Free(accounts, a), Expected(s, c.call, Stage(s, c.call, env), a), dust - old(dust))
      ensures calls' == calls + if r.Ok? then Asks(old(State()), c.call) else []
      ensures vaults == old(vaults)
      ensures forall who :: who !in T.Execute(old(State()), c, env).killed ==>
        Nonce(accounts, who) ==
          if who == c.call.sender && PassesNonceCheck(old(State()), c) then (c.nonce + 1) % U32
          else Nonce(old(accounts), who)
      ensures !Decrees(RolesOf(old(State())), c.call) ==>
        var s := old(State());
        var credited := if r.Ok? then ShieldAmount(c.call) else if Leaks(s, c, env) then Leaked(c.call, env) else 0;
        var left := Supply(State()) + PaidOut(calls'[|calls|..]) + (dust - old(dust)) + Stranded(s, c, env);
        && left <= Supply(s) + credited
        && (Supply(s) + Creditable(RolesOf(s), c.call) < U128 ==> left == Supply(s) + credited)
    {
      hide T.Execute, Total, Leaks, Stranded, Expected, Succeeds, Stage, Asks;
      ghost var s := State();
      r, calls' := CheckAndRun(c, env, calls);
      ghost var o := T.Execute(s, c, env);
      assert calls'[|calls|..] == o.calls;
      ExecuteKeepsRoles(s, c, env);
      CallAsks(s, c, env);
      CallSucceedsIff(s, c, env);
      if PassesNonceCheck(s, c) && Supply(s) + Creditable(RolesOf(s), c.call) < U128 {
        forall a
          ensures UpToDust(Free(accounts, a),
            Expected(Checked(s, c), c.call, Stage(Checked(s, c), c.call, env), a), dust - old(dust))
        {
          CallMovesMoney(s, c, env, a);
        }
      }
      forall who | who !in o.killed
        ensures Nonce(accounts, who) ==
          if who == c.call.sender && PassesNonceCheck(s, c) then (c.nonce + 1) % U32 else Nonce(s.accounts, who)
      {
        CallUsesItsNonce(s, c, env, who);
      }
      if !Decrees(RolesOf(s), c.call) {
        CallBalances(s, c, env);
      }
    }

    /** Sets the vault of a shard that has none, and accepts one that is there already. */
    method InitShardVaultAccount(vault: AccountId, chain: ParentchainId, dispatched: bool)
        returns (r: Result<(), VaultError>)
      modifies this`vaults
      ensures (r, State()) == InitShardVault(old(State()), vault, chain, dispatched)
      ensures r.Ok? <==> old(vaults) == map[chain := vault] || (old(vaults) == map[] && dispatched)
      ensures vaults == if r.Ok? then map[chain := vault] else old(vaults)
    {
      InitShardVaultIff(State(), vault, chain, dispatched);
      var existing := SingleVault(State());
      if existing.Err? { return Err(existing.error); }
      if existing.value.Some? {
        if existing.value.value.1 != chain { return Err(VaultOnMultipleParentchains); }
        if existing.value.value.0 != vault { return Err(ChangingVaultNotAllowed); }
        return Ok(());
      }
      if !dispatched { return Err(VaultDispatchError); }
      vaults := vaults[chain := vault];
      r := Ok(());
    }
  }
}
