/** When a trusted call succeeds, who gains and loses by it, what it asks for, and how a shard gets its times. */
module CallEffects {
  import opened Prelude
  import opened Ledger
  import opened TrustedCalls
  import opened BridgeAccounting
  import opened VaultRules

  /** A balance is what it should be, less at most the given dust. */
  predicate UpToDust(balance: nat, expected: int, dust: nat) {
    balance <= expected <= balance + dust
  }

  function Share(who: AccountId, account: AccountId, amount: int): int {
    if who == account then amount else 0
  }

  lemma SettleMoves(accounts: Accounts, who: AccountId, d: Dispatch, a: AccountId)
    ensures UpToDust(Free(Settle(accounts, who, d).accounts, a), Free(accounts, a), Settle(accounts, who, d).dust)
  {
  }

  lemma TransferMoves(accounts: Accounts, from: AccountId, to: AccountId, value: Balance, d: Dispatch, a: AccountId)
    ensures var b := Transfer(accounts, from, to, value, d);
      var moved := if b.ok then Share(to, a, value) - Share(from, a, value) else 0;
      UpToDust(Free(b.accounts, a), Free(accounts, a) + moved, b.dust)
  {
    var b := Transfer(accounts, from, to, value, d);
    if b.ok && from != to && value != 0 {
      var moved := WithFree(WithFree(accounts, from, Free(accounts, from) - value), to, Free(accounts, to) + value);
      var first := Settle(moved, from, d);
      SettleMoves(moved, from, d, a);
      SettleMoves(first.accounts, to, d, a);
    }
  }

  lemma ForceSetMoves(accounts: Accounts, who: AccountId, free: Balance, d: Dispatch, a: AccountId)
    ensures var b := ForceSetBalance(accounts, who, free, d);
      b.ok == d.ok && UpToDust(Free(b.accounts, a), if d.ok && a == who then free else Free(accounts, a), b.dust)
  {
    if d.ok {
      SettleMoves(WithFree(accounts, who, free), who, d, a);
    }
  }

  // ---------- How far a call got ----------

  /** How many of its movements of money a call made before it ended; two is all of them. */
  function Stage(s: RuntimeState, call: TrustedCall, env: Env): nat {
    match call
    case BalanceSetBalance(_, _, _, _) => if Decrees(RolesOf(s), call) && env.first.ok then 2 else 0
    case BalanceTransfer(from, to, value) =>
      var fee := Transfer(s.accounts, from, s.enclave, STF_TX_FEE, env.first);
      if !fee.ok then 0 else if Transfer(fee.accounts, from, to, value, env.second).ok then 2 else 1
    case BalanceUnshield(from, _, value, _) =>
      var fee := Transfer(s.accounts, from, s.enclave, UNSHIELD_FEE, env.first);
      if !fee.ok then 0 else if Free(fee.accounts, from) >= value && env.second.ok then 2 else 1
    case BalanceShield(sender, _, _, origin) =>
      var vault := ShardVault(s.vaults);
      if sender != s.enclave || vault.None? || vault.value.1 != origin || !env.first.ok then 0
      else if env.second.ok then 2 else 1
    case _ => 0
  }

  /** What an account gains, or loses, by a call that got as far as the given stage. */
  function Gain(call: TrustedCall, stage: nat, enclave: AccountId, a: AccountId): int {
    match call
    case BalanceTransfer(from, to, value) =>
      (if stage >= 1 then Share(enclave, a, STF_TX_FEE) - Share(from, a, STF_TX_FEE) else 0) +
      (if stage >= 2 then Share(to, a, value) - Share(from, a, value) else 0)
    case BalanceUnshield(from, _, value, _) =>
      (if stage >= 1 then Share(enclave, a, UNSHIELD_FEE) - Share(from, a, UNSHIELD_FEE) else 0) -
      (if stage >= 2 then Share(from, a, value) else 0)
    case BalanceShield(_, who, value, _) =>
      (if stage >= 1 then Share(enclave, a, value / SHIELD_FEE_DIVISOR) else 0) +
      (if stage >= 2 then Share(who, a, value - value / SHIELD_FEE_DIVISOR) else 0)
    case _ => 0
  }

  /** What an account should hold after a call that got as far as the given stage. */
  function Expected(s: RuntimeState, call: TrustedCall, stage: nat, a: AccountId): int {
    if call.BalanceSetBalance? then if stage == 2 && a == call.who then call.newFree else Free(s.accounts, a)
    else Free(s.accounts, a) + Gain(call, stage, s.enclave, a)
  }

  /** A call succeeds if it moved all its money, and whatever else it needs is there. */
  predicate Succeeds(s: RuntimeState, call: TrustedCall, env: Env) {
    match call
    case Noop(_) => true
    case BalanceUnshield(_, _, _, _) =>
      Stage(s, call, env) == 2 && ShardVault(s.vaults).Some? && env.transferIndex && env.proxyIndex
    case BalanceShield(_, _, _, _) => Stage(s, call, env) == 2 && env.publishIndex
    case TimestampSet(sender, _, origin) =>
      sender == s.enclave && env.second.ok && (origin == Integritee && s.createdAt.None? ==> env.first.ok)
    case _ => Stage(s, call, env) == 2
  }

  lemma DecreeSets(s: RuntimeState, call: TrustedCall, env: Env, a: AccountId)
    requires call.BalanceSetBalance?
    ensures var o := ExecuteSetBalance(s, call, env);
      && UpToDust(Free(o.state.accounts, a), Expected(s, call, Stage(s, call, env), a), o.dust)
  {
    hide ForceSetBalance;
    ForceSetMoves(s.accounts, call.who, call.newFree, env.first, a);
  }

  lemma TransferGains(s: RuntimeState, call: TrustedCall, env: Env, a: AccountId)
    requires call.BalanceTransfer?
    ensures var o := ExecuteTransfer(s, call, env);
      && UpToDust(Free(o.state.accounts, a), Expected(s, call, Stage(s, call, env), a), o.dust)
  {
    hide Transfer;
    var fee := Transfer(s.accounts, call.sender, s.enclave, STF_TX_FEE, env.first);
    TransferMoves(s.accounts, call.sender, s.enclave, STF_TX_FEE, env.first, a);
    if fee.ok {
      TransferMoves(fee.accounts, call.sender, call.to, call.value, env.second, a);
    }
  }

  lemma UnshieldGains(s: RuntimeState, call: TrustedCall, env: Env, a: AccountId)
    requires call.BalanceUnshield?
    ensures var o := ExecuteUnshield(s, call, env);
      && UpToDust(Free(o.state.accounts, a), Expected(s, call, Stage(s, call, env), a), o.dust)
  {
    hide Transfer, ForceSetBalance, ShardVault;
    var fee := Transfer(s.accounts, call.sender, s.enclave, UNSHIELD_FEE, env.first);
    TransferMoves(s.accounts, call.sender, s.enclave, UNSHIELD_FEE, env.first, a);
    if fee.ok && Free(fee.accounts, call.sender) >= call.value {
      ForceSetMoves(fee.accounts, call.sender, Free(fee.accounts, call.sender) - call.value, env.second, a);
    }
  }

  lemma ShieldGains(s: RuntimeState, call: TrustedCall, env: Env, a: AccountId)
    requires call.BalanceShield? && Supply(s) + Creditable(RolesOf(s), call) < U128
    ensures var o := ExecuteShield(s, call, env);
      && UpToDust(Free(o.state.accounts, a), Expected(s, call, Stage(s, call, env), a), o.dust)
  {
    hide ForceSetBalance, ShardVault, Total, Add128;
    if Stage(s, call, env) > 0 || (call.sender == s.enclave && ShardVault(s.vaults).Some?
      && ShardVault(s.vaults).value.1 == call.origin) {
      ShieldFundsMoves(s.accounts, s.enclave, call.who, call.value, env, a);
    }
  }

  lemma ShieldFundsMoves(accounts: Accounts, enclave: AccountId, who: AccountId, value: Balance, env: Env, a: AccountId)
    requires Total(accounts) + value < U128
    ensures var b := ShieldFunds(accounts, enclave, who, value, env);
      var fee := value / SHIELD_FEE_DIVISOR;
      && b.ok == (env.first.ok && env.second.ok)
      && var expected := Free(accounts, a) + (if env.first.ok then Share(enclave, a, fee) else 0)
                         + (if env.first.ok && env.second.ok then Share(who, a, value - fee) else 0);
         UpToDust(Free(b.accounts, a), expected, b.dust)
  {
    hide ForceSetBalance, Total, Add128;
    var fee := value / SHIELD_FEE_DIVISOR;
    var credited := Add128(Free(accounts, enclave), fee);
    var first := ForceSetBalance(accounts, enclave, credited, env.first);
    FreeAtMostTotal(accounts, enclave);
    ForceSetTotal(accounts, enclave, credited, env.first);
    ForceSetMoves(accounts, enclave, credited, env.first, a);
    if env.first.ok {
      FreeAtMostTotal(first.accounts, who);
      ForceSetMoves(accounts, enclave, credited, env.first, who);
      ForceSetMoves(first.accounts, who, Add128(Free(first.accounts, who), value - fee), env.second, a);
    }
  }

  /** The state a call runs on, once its nonce is used up. */
  function Checked(s: RuntimeState, c: TrustedCallSigned): RuntimeState {
    s.(accounts := WithNextNonce(s.accounts, c.call.sender))
  }

  /**
   * Every account after a call past the nonce check, up to the dust the call reports: a decree sets one
   * balance; otherwise fee to the enclave, value to the receiver, both from the sender, each as far as the
   * call got.
   */
  lemma CallMovesMoney(s: RuntimeState, c: TrustedCallSigned, env: Env, a: AccountId)
    requires PassesNonceCheck(s, c) && Supply(s) + Creditable(RolesOf(s), c.call) < U128
    ensures var o, s' := Execute(s, c, env), Checked(s, c);
      UpToDust(Free(o.state.accounts, a), Expected(s', c.call, Stage(s', c.call, env), a), o.dust)
  {
    hide ExecuteSetBalance, ExecuteTransfer, ExecuteUnshield, ExecuteShield, Stage, Total;
    NextNonceTotal(s.accounts, c.call.sender);
    var s' := Checked(s, c);
    match c.call {
      case BalanceSetBalance(_, _, _, _) => DecreeSets(s', c.call, env, a);
      case BalanceTransfer(_, _, _) => TransferGains(s', c.call, env, a);
      case BalanceUnshield(_, _, _, _) => UnshieldGains(s', c.call, env, a);
      case BalanceShield(_, _, _, _) => ShieldGains(s', c.call, env, a);
      case _ =>
    }
  }

  /** A call succeeds exactly if it passes the nonce check, moves all its money, and has what else it needs. */
  lemma CallSucceedsIff(s: RuntimeState, c: TrustedCallSigned, env: Env)
    ensures Execute(s, c, env).result.Ok? <==> PassesNonceCheck(s, c) && Succeeds(Checked(s, c), c.call, env)
  {
    hide Transfer, ForceSetBalance, ShardVault, Free, Add128;
    ForceSetAnswers(env);
  }

  /** What a call asks of the parentchains if it succeeds. */
  function Asks(s: RuntimeState, call: TrustedCall): seq<ParentchainCall> {
    match call
    case BalanceUnshield(_, beneficiary, value, _) =>
      var vault := ShardVault(s.vaults);
      if vault.None? then [] else [ParentchainCall(vault.value.1, VaultTransfer(vault.value.0, beneficiary, value))]
    case BalanceShield(_, _, _, _) => [ParentchainCall(Integritee, PublishHash(call))]
    case _ => []
  }

  /** A call asks for exactly that if it succeeds, and for nothing if it fails. */
  lemma CallAsks(s: RuntimeState, c: TrustedCallSigned, env: Env)
    ensures var o := Execute(s, c, env);
      o.calls == if o.result.Ok? then Asks(s, c.call) else []
  {
    hide Transfer, ForceSetBalance, ShardVault, ShieldFunds;
  }

  /** Why a call fails: every error, except that of a dispatched call, has exactly one cause. */
  lemma CallErrors(s: RuntimeState, c: TrustedCallSigned, env: Env)
    requires PassesNonceCheck(s, c)
    ensures var r, s', call := Execute(s, c, env).result, Checked(s, c), c.call;
      && (r.Err? && r.error.MissingPrivileges? <==> call.BalanceSetBalance? && !Decrees(RolesOf(s), call))
      && (r.Err? && r.error.MissingPrivileges? ==> r.error.who == call.sender)
      && (r == Err(RequireEnclaveSignerAccount) <==>
            (call.BalanceShield? || call.TimestampSet?) && call.sender != s.enclave)
      && (r == Err(NoShardVaultAssigned) <==>
            call.BalanceShield? && call.sender == s.enclave && ShardVault(s.vaults).None?)
      && (r == Err(WrongParentchainIdForShardVault) <==>
            call.BalanceShield? && call.sender == s.enclave && ShardVault(s.vaults).Some?
            && ShardVault(s.vaults).value.1 != call.origin)
      && (r == Err(MissingFunds) <==>
            call.BalanceUnshield?
            && var fee := Transfer(s'.accounts, call.sender, s.enclave, UNSHIELD_FEE, env.first);
               fee.ok && Free(fee.accounts, call.sender) < call.value)
      && (r == Err(InvalidMetadata) <==>
            Stage(s', call, env) == 2
            && ((call.BalanceUnshield? && ShardVault(s.vaults).Some? && !(env.transferIndex && env.proxyIndex))
                || (call.BalanceShield? && !env.publishIndex)))
      && !(r.Err? && r.error.InvalidNonce?)
  {
    hide Transfer, ForceSetBalance, ShardVault, Free, Add128;
    ForceSetAnswers(env);
  }

  lemma ForceSetAnswers(env: Env)
    ensures forall accounts, who, free :: ForceSetBalance(accounts, who, free, env.first).ok == env.first.ok
    ensures forall accounts, who, free :: ForceSetBalance(accounts, who, free, env.second).ok == env.second.ok
  {
  }

  // ---------- Times ----------

  /** A timestamp of the Integritee chain by the enclave that creates the shard, as far as the dispatch goes. */
  predicate Creates(s: RuntimeState, c: TrustedCallSigned, env: Env) {
    && c.call.TimestampSet? && c.call.sender == s.enclave && c.call.origin == Integritee
    && PassesNonceCheck(s, c) && env.first.ok
  }

  /** The creation time is set by the first call that can set it; the current time by every successful timestamp. */
  lemma CallSetsTimes(s: RuntimeState, c: TrustedCallSigned, env: Env)
    ensures var o := Execute(s, c, env);
      && o.state.createdAt == (if s.createdAt.None? && Creates(s, c, env) then Some(c.call.now) else s.createdAt)
      && o.state.now == if o.result.Ok? && c.call.TimestampSet? then s.now[c.call.origin := c.call.now] else s.now
  {
    hide Transfer, ForceSetBalance, ShardVault, ShieldFunds;
  }

  /** The time in the first event of a run that can create the shard. */
  function FirstCreation(s: RuntimeState, events: seq<Event>): Option<Moment>
    decreases |events|
  {
    if events == [] then None
    else if events[0].Call? && Creates(s, events[0].c, events[0].env) then Some(events[0].c.call.now)
    else FirstCreation(Next(s, events[0]), events[1..])
  }

  /**
   * Over every run the creation time never changes once it is set, and a shard without one gets it from the
   * first timestamp of the Integritee chain that the enclave submits and whose dispatch goes through.
   */
  lemma {:induction false} CreatedForGood(s: RuntimeState, events: seq<Event>)
    ensures Run(s, events).createdAt == if s.createdAt.Some? then s.createdAt else FirstCreation(s, events)
    decreases |events|
  {
    hide Execute;
    if events != [] {
      if events[0].Call? {
        CallSetsTimes(s, events[0].c, events[0].env);
      }
      CreatedForGood(Next(s, events[0]), events[1..]);
    }
  }
}
