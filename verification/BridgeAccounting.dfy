/** Money on the shard against money shielded in and paid out over the bridge. */
module BridgeAccounting {
  import opened Prelude
  import opened Ledger
  import opened TrustedCalls
  import opened BatchExecution

  /** Trusted calls as the executor sees them. */
  function StfCall(s: RuntimeState, c: TrustedCallSigned, env: Env): StfOutcome<RuntimeState> {
    var o := Execute(s, c, env);
    StfOutcome(o.result.Ok?, o.state, o.calls)
  }

  function PaidOut(calls: seq<ParentchainCall>): nat {
    if calls == [] then 0
    else (if calls[0].call.VaultTransfer? then calls[0].call.value else 0) + PaidOut(calls[1..])
  }

  /** Who may set balances and who may shield; no call changes either. */
  datatype Roles = Roles(root: Option<AccountId>, enclave: AccountId)

  function RolesOf(s: RuntimeState): Roles {
    Roles(s.sudoKey, s.enclave)
  }

  /** A balance is set by root; from anybody else such a call is refused. */
  predicate Decrees(roles: Roles, c: TrustedCall) {
    c.BalanceSetBalance? && roles.root == Some(c.sender)
  }

  /** The most a call can shield: a shield that is not the enclave's is refused. */
  function Creditable(roles: Roles, c: TrustedCall): nat {
    if c.sender == roles.enclave then ShieldAmount(c) else 0
  }

  /** The amount a call asks to be shielded. */
  function ShieldAmount(c: TrustedCall): nat {
    if c.BalanceShield? then c.value else 0
  }

  ghost function Supply(s: RuntimeState): nat {
    Total(s.accounts)
  }

  // ---------- One call ----------

  /** The call gets as far as crediting a shielded amount. */
  predicate ReachesShielding(s: RuntimeState, c: TrustedCallSigned) {
    && c.call.BalanceShield? && PassesNonceCheck(s, c) && c.call.sender == s.enclave
    && ShardVault(s.vaults).Some? && ShardVault(s.vaults).value.1 == c.call.origin
  }

  /** A failing shield has credited money already. */
  predicate Leaks(s: RuntimeState, c: TrustedCallSigned, env: Env) {
    ReachesShielding(s, c) && env.first.ok && (!env.second.ok || !env.publishIndex)
  }

  function Leaked(c: TrustedCall, env: Env): nat {
    if !c.BalanceShield? then 0 else if env.second.ok then c.value else c.value / SHIELD_FEE_DIVISOR
  }

  /** A failing unshield has burnt money already. */
  predicate Strands(s: RuntimeState, c: TrustedCallSigned, env: Env) {
    && c.call.BalanceUnshield? && PassesNonceCheck(s, c)
    && (ShardVault(s.vaults).None? || !env.transferIndex || !env.proxyIndex)
    && var fee := Transfer(WithNextNonce(s.accounts, c.call.sender), c.call.sender, s.enclave, UNSHIELD_FEE, env.first);
      fee.ok && env.second.ok && Free(fee.accounts, c.call.sender) >= c.call.value
  }

  function Stranded(s: RuntimeState, c: TrustedCallSigned, env: Env): nat {
    if Strands(s, c, env) then c.call.value else 0
  }

  lemma TransferConserves(s: RuntimeState, call: TrustedCall, env: Env)
    requires call.BalanceTransfer?
    ensures var o := ExecuteTransfer(s, call, env); Supply(o.state) + o.dust == Supply(s) && o.calls == []
  {
    var fee := Transfer(s.accounts, call.sender, s.enclave, STF_TX_FEE, env.first);
    TransferTotal(s.accounts, call.sender, s.enclave, STF_TX_FEE, env.first);
    TransferTotal(fee.accounts, call.sender, call.to, call.value, env.second);
  }

  lemma UnshieldConserves(s: RuntimeState, call: TrustedCall, env: Env)
    requires call.BalanceUnshield?
    ensures var o := ExecuteUnshield(s, call, env);
      var fee := Transfer(s.accounts, call.sender, s.enclave, UNSHIELD_FEE, env.first);
      var burns := fee.ok && env.second.ok && Free(fee.accounts, call.sender) >= call.value;
      && Supply(o.state) + o.dust + (if burns then call.value else 0) == Supply(s)
      && (o.result.Ok? <==> burns && ShardVault(s.vaults).Some? && env.transferIndex && env.proxyIndex)
      && PaidOut(o.calls) == (if o.result.Ok? then call.value else 0) && (o.result.Err? ==> o.calls == [])
  {
    hide Transfer, ForceSetBalance, Total, ShardVault, Free;
    var fee := Transfer(s.accounts, call.sender, s.enclave, UNSHIELD_FEE, env.first);
    TransferTotal(s.accounts, call.sender, s.enclave, UNSHIELD_FEE, env.first);
    if Free(fee.accounts, call.sender) >= call.value {
      ForceSetTotal(fee.accounts, call.sender, Free(fee.accounts, call.sender) - call.value, env.second);
    }
  }

  /** Crediting adds the amount, or, when a balance wraps around, less; the beneficiary may be the enclave itself. */
  lemma ShieldFundsTotal(accounts: Accounts, enclave: AccountId, who: AccountId, amount: Balance, env: Env)
    ensures ShieldFunds(accounts, enclave, who, amount, env).ok == (env.first.ok && env.second.ok)
    ensures var b := ShieldFunds(accounts, enclave, who, amount, env);
      var credited := if !env.first.ok then 0 else if !env.second.ok then amount / SHIELD_FEE_DIVISOR else amount;
      && Total(b.accounts) + b.dust <= Total(accounts) + credited
      && (Total(accounts) + amount < U128 ==> Total(b.accounts) + b.dust == Total(accounts) + credited)
  {
    hide ForceSetBalance, Total, Add128;
    var fee := amount / SHIELD_FEE_DIVISOR;
    var first := ForceSetBalance(accounts, enclave, Add128(Free(accounts, enclave), fee), env.first);
    FreeAtMostTotal(accounts, enclave);
    ForceSetTotal(accounts, enclave, Add128(Free(accounts, enclave), fee), env.first);
    if first.ok {
      FreeAtMostTotal(first.accounts, who);
      ForceSetTotal(first.accounts, who, Add128(Free(first.accounts, who), amount - fee), env.second);
    }
  }

  lemma ShieldConserves(s: RuntimeState, call: TrustedCall, env: Env)
    requires call.BalanceShield?
    ensures var o := ExecuteShield(s, call, env);
      var reaches := call.sender == s.enclave && ShardVault(s.vaults).Some?
        && ShardVault(s.vaults).value.1 == call.origin && env.first.ok;
      var credited := if reaches then Leaked(call, env) else 0;
      && (o.result.Ok? <==> reaches && env.second.ok && env.publishIndex)
      && Supply(o.state) + o.dust <= Supply(s) + credited
      && (Supply(s) + Creditable(RolesOf(s), call) < U128 ==> Supply(o.state) + o.dust == Supply(s) + credited)
      && PaidOut(o.calls) == 0 && (o.result.Err? ==> o.calls == [])
  {
    hide ShieldFunds, Total;
    ShieldFundsTotal(s.accounts, s.enclave, call.who, call.value, env);
  }

  /**
   * The books of one call: what is on the shard afterwards, plus what it paid out, plus the dust it lost
   * and what a failure stranded, is what was there before, plus what was shielded or leaked.
   */
  lemma CallBalances(s: RuntimeState, c: TrustedCallSigned, env: Env)
    requires !Decrees(RolesOf(s), c.call)
    ensures var o := Execute(s, c, env);
      var credited := if o.result.Ok? then ShieldAmount(c.call) else if Leaks(s, c, env) then Leaked(c.call, env)
        else 0;
      var left := Supply(o.state) + PaidOut(o.calls) + o.dust + Stranded(s, c, env);
      && (o.result.Err? ==> o.calls == [])
      && left <= Supply(s) + credited
      && credited <= Creditable(RolesOf(s), c.call)
      && (Supply(s) + Creditable(RolesOf(s), c.call) < U128 ==> left == Supply(s) + credited)
  {
    hide Transfer, ExecuteTransfer, ExecuteUnshield, ExecuteShield, Total, ShardVault;
    if PassesNonceCheck(s, c) {
      NextNonceTotal(s.accounts, c.call.sender);
      var s' := s.(accounts := WithNextNonce(s.accounts, c.call.sender));
      match c.call {
        case BalanceTransfer(_, _, _) => TransferConserves(s', c.call, env);
        case BalanceUnshield(_, _, _, _) => UnshieldConserves(s', c.call, env);
        case BalanceShield(_, _, _, _) => ShieldConserves(s', c.call, env);
        case _ =>
      }
    }
  }

  /** A shield that fails still creates money exactly when it fails after crediting a non-zero amount. */
  lemma FailedShieldCreatesMoney(s: RuntimeState, c: TrustedCallSigned, env: Env)
    requires c.call.BalanceShield? && Execute(s, c, env).result.Err?
    requires Supply(s) + Creditable(RolesOf(s), c.call) < U128
    ensures var o := Execute(s, c, env);
      Supply(o.state) + o.dust > Supply(s) <==> Leaks(s, c, env) && Leaked(c.call, env) > 0
  {
    CallBalances(s, c, env);
  }

  /** An unshield that fails destroys money exactly when it fails after burning a non-zero amount. */
  lemma FailedUnshieldDestroysMoney(s: RuntimeState, c: TrustedCallSigned, env: Env)
    requires c.call.BalanceUnshield? && Execute(s, c, env).result.Err? && Supply(s) < U128
    ensures var o := Execute(s, c, env);
      Supply(o.state) + o.dust < Supply(s) <==> Strands(s, c, env) && c.call.value > 0
  {
    CallBalances(s, c, env);
  }

  /** A dispatched call that goes through and has nothing to settle. */
  const FINE := Dispatch(true, {}, {})

  /** A shield of 1142 whose second credit is refused: the call fails, and the fee of 2 stays. */
  lemma LeakExample() returns (s: RuntimeState, c: TrustedCallSigned, env: Env)
    ensures var o := Execute(s, c, env);
      c.call == BalanceShield(7, 8, 1142, Integritee) && o.result.Err? && Supply(o.state) + o.dust > Supply(s)
  {
    hide ExecuteShield, Total;
    s := RuntimeState(map[7 := Account(1000, 0)], None, 7, map[Integritee := 9], None, map[]);
    c := TrustedCallSigned(BalanceShield(7, 8, 1142, Integritee), 0);
    env := Env(FINE, Dispatch(false, {}, {}), true, true, true);
    ShieldConserves(s.(accounts := WithNextNonce(s.accounts, 7)), c.call, env);
    OneAccount(7, Account(1000, 0));
    FailedShieldCreatesMoney(s, c, env);
  }

  /** An unshield of 1000 on a shard without a vault: the call fails, and the money is gone. */
  lemma StrandExample() returns (s: RuntimeState, c: TrustedCallSigned, env: Env)
    ensures var o := Execute(s, c, env);
      c.call == BalanceUnshield(8, 8, 1000, 0) && o.result.Err? && Supply(o.state) + o.dust < Supply(s)
  {
    hide ExecuteUnshield, Total, Transfer, Free;
    s := RuntimeState(map[8 := Account(400000000, 0)], None, 7, map[], None, map[]);
    c := TrustedCallSigned(BalanceUnshield(8, 8, 1000, 0), 0);
    env := Env(FINE, FINE, true, true, true);
    var accounts := map[8 := Account(400000000, 1)];
    assert WithNextNonce(s.accounts, 8) == accounts;
    StrandFee(accounts);
    NextNonceTotal(s.accounts, 8);
    UnshieldConserves(s.(accounts := accounts), c.call, env);
  }

  lemma StrandFee(accounts: Accounts)
    requires accounts == map[8 := Account(400000000, 1)]
    ensures var fee := Transfer(accounts, 8, 7, UNSHIELD_FEE, FINE); fee.ok && Free(fee.accounts, 8) == 100000000
  {
    assert WithFree(WithFree(accounts, 8, 100000000), 7, 300000000)
      == map[8 := Account(100000000, 1), 7 := Account(300000000, 0)];
  }

  lemma OneAccount(who: AccountId, account: Account)
    ensures Total(map[who := account]) == account.free
  {
    TotalWithout(map[who := account], who);
    assert map[who := account] - {who} == map[];
  }

  // ---------- A batch ----------

  /** Amounts shielded by the operations that succeeded. */
  function Shielded(executed: seq<ExecutedOperation>): nat {
    if executed == [] then 0
    else
      var e := executed[|executed| - 1];
      Shielded(executed[..|executed| - 1]) +
        (if e.status.Success? && !e.op.Get? then ShieldAmount(e.op.signed.call) else 0)
  }

  predicate Runs(m: Machine<RuntimeState>, job: Job) {
    job.mrenclaveKnown && !job.op.Get? && m.verify(job.op.signed)
  }

  /** The most a job can shield; a job that does not run shields nothing. */
  function JobAmount(m: Machine<RuntimeState>, roles: Roles, job: Job): nat {
    if Runs(m, job) then Creditable(roles, job.op.signed.call) else 0
  }

  /** The most a batch can shield. */
  function Requested(m: Machine<RuntimeState>, roles: Roles, jobs: seq<Job>): nat {
    if jobs == [] then 0
    else Requested(m, roles, jobs[..|jobs| - 1]) + JobAmount(m, roles, jobs[|jobs| - 1])
  }

  /** Root sets no balance by decree. */
  predicate Ordinary(m: Machine<RuntimeState>, roles: Roles, job: Job) {
    Runs(m, job) ==> !Decrees(roles, job.op.signed.call)
  }

  /** What one job loses as dust, leaks into the shard by a failing shield, and strands by a failing unshield. */
  datatype Losses = Losses(dust: nat, leaked: nat, stranded: nat)

  function JobLosses(m: Machine<RuntimeState>, s: RuntimeState, job: Job): Losses {
    if !Runs(m, job) then Losses(0, 0, 0)
    else
      var c := job.op.signed;
      Losses(Execute(s, c, job.env).dust, if Leaks(s, c, job.env) then Leaked(c.call, job.env) else 0,
        Stranded(s, c, job.env))
  }

  /** The same over a batch. */
  function BatchLosses(m: Machine<RuntimeState>, s: RuntimeState, jobs: seq<Job>): Losses {
    if jobs == [] then Losses(0, 0, 0)
    else
      var n := |jobs| - 1;
      var a, b := BatchLosses(m, s, jobs[..n]), JobLosses(m, Fold(m, s, jobs[..n]).state, jobs[n]);
      Losses(a.dust + b.dust, a.leaked + b.leaked, a.stranded + b.stranded)
  }

  lemma {:induction false} PaidOutSplit(a: seq<ParentchainCall>, b: seq<ParentchainCall>)
    ensures PaidOut(a + b) == PaidOut(a) + PaidOut(b)
  {
    if a == [] {
      assert a + b == b;
    } else {
      assert (a + b)[1..] == a[1..] + b;
      PaidOutSplit(a[1..], b);
    }
  }

  lemma ReportedStep(b: seq<ExecutedOperation>, e: ExecutedOperation)
    ensures PaidOut(Callbacks(b + [e])) == PaidOut(Callbacks(b)) + PaidOut(CallbacksOf(e))
    ensures Shielded(b + [e]) == Shielded(b) +
      (if e.status.Success? && !e.op.Get? then ShieldAmount(e.op.signed.call) else 0)
  {
    CallbacksSplit(b, [e]);
    assert Callbacks([e]) == CallbacksOf(e) + Callbacks([]) == CallbacksOf(e);
    PaidOutSplit(Callbacks(b), CallbacksOf(e));
    assert (b + [e])[..|b|] == b;
  }

  lemma ExecuteKeepsRoles(s: RuntimeState, c: TrustedCallSigned, env: Env)
    ensures var s' := Execute(s, c, env).state; s'.vaults == s.vaults && RolesOf(s') == RolesOf(s)
  {
    hide Transfer, ForceSetBalance, ShieldFunds, ShardVault;
  }

  /** The books of one job, as it is reported. */
  lemma JobBalances(m: Machine<RuntimeState>, s: RuntimeState, job: Job)
    requires m.stf == StfCall && Ordinary(m, RolesOf(s), job) && job.mrenclaveKnown
    ensures var a, losses := ExecuteOnStf(m, s, job), JobLosses(m, s, job);
      var shielded := if a.executed.status.Success? && !job.op.Get? then ShieldAmount(job.op.signed.call) else 0;
      var left := Supply(a.state) + PaidOut(CallbacksOf(a.executed)) + losses.dust + losses.stranded;
      && a.executed.op == job.op && a.state.vaults == s.vaults && RolesOf(a.state) == RolesOf(s)
      && shielded + losses.leaked <= JobAmount(m, RolesOf(s), job)
      && left <= Supply(s) + shielded + losses.leaked
      && (Supply(s) + JobAmount(m, RolesOf(s), job) < U128 ==> left == Supply(s) + shielded + losses.leaked)
  {
    hide Execute, Total, Stranded;
    if Runs(m, job) {
      var c := job.op.signed;
      CallBalances(s, c, job.env);
      ExecuteKeepsRoles(s, c, job.env);
      LeakingFails(s, c, job.env);
    }
  }

  lemma LeakingFails(s: RuntimeState, c: TrustedCallSigned, env: Env)
    ensures Leaks(s, c, env) ==> Execute(s, c, env).result.Err?
  {
    hide ExecuteShield, Total, ShardVault;
    if c.call.BalanceShield? {
      ShieldConserves(s.(accounts := WithNextNonce(s.accounts, c.call.sender)), c.call, env);
    }
  }

  /**
   * Bridge accounting over any batch in which root sets no balance, whatever succeeds or fails half way:
   * what is on the shard, was paid out, was lost as dust or stranded by failing unshields, comes from what
   * was there, was shielded, or was leaked into the shard by failing shields.
   */
  lemma {:induction false} BatchBalances(m: Machine<RuntimeState>, s: RuntimeState, jobs: seq<Job>)
    requires m.stf == StfCall
    requires forall i :: 0 <= i < |jobs| ==> Ordinary(m, RolesOf(s), jobs[i])
    ensures var b, losses := Fold(m, s, jobs), BatchLosses(m, s, jobs);
      var left := Supply(b.state) + PaidOut(Callbacks(b.executed)) + losses.dust + losses.stranded;
      && b.state.vaults == s.vaults && RolesOf(b.state) == RolesOf(s)
      && Shielded(b.executed) + losses.leaked <= Requested(m, RolesOf(s), jobs)
      && left <= Supply(s) + Shielded(b.executed) + losses.leaked
      && (Supply(s) + Requested(m, RolesOf(s), jobs) < U128 ==>
            left == Supply(s) + Shielded(b.executed) + losses.leaked)
  {
    hide ExecuteOnStf, Execute, JobLosses, Total, Ordinary, Callbacks, PaidOut, JobAmount, RolesOf;
    if jobs == [] {
      NothingReported();
    } else {
      var n := |jobs| - 1;
      var job := jobs[n];
      BatchBalances(m, s, jobs[..n]);
      var b := Fold(m, s, jobs[..n]);
      FatalStep(m, b.state, job);
      if job.mrenclaveKnown {
        JobBalances(m, b.state, job);
        ReportedStep(b.executed, ExecuteOnStf(m, b.state, job).executed);
      }
    }
  }

  lemma NothingReported()
    ensures PaidOut(Callbacks([])) == 0
  {
  }

  lemma FatalStep(m: Machine<RuntimeState>, s: RuntimeState, job: Job)
    ensures ExecuteOnStf(m, s, job).Fatal? <==> !job.mrenclaveKnown
    ensures !job.mrenclaveKnown ==> JobLosses(m, s, job) == Losses(0, 0, 0)
  {
  }

  /**
   * Solvency, exactly: below the 128-bit limit, the shard and everything it paid out or lost as dust are
   * covered by what was there and what was shielded if and only if no more was leaked than stranded.
   */
  lemma CoveredIff(m: Machine<RuntimeState>, s: RuntimeState, jobs: seq<Job>)
    requires m.stf == StfCall && Supply(s) + Requested(m, RolesOf(s), jobs) < U128
    requires forall i :: 0 <= i < |jobs| ==> Ordinary(m, RolesOf(s), jobs[i])
    ensures var b, losses := Fold(m, s, jobs), BatchLosses(m, s, jobs);
      Supply(b.state) + PaidOut(Callbacks(b.executed)) + losses.dust <= Supply(s) + Shielded(b.executed)
      <==> losses.leaked <= losses.stranded
  {
    BatchBalances(m, s, jobs);
  }

  /** No shield of the enclave is stopped half way. */
  predicate Unbroken(m: Machine<RuntimeState>, roles: Roles, job: Job) {
    JobAmount(m, roles, job) > 0 ==> job.env.second.ok && job.env.publishIndex
  }

  lemma JobLeaksNothing(m: Machine<RuntimeState>, s: RuntimeState, job: Job)
    requires Unbroken(m, RolesOf(s), job)
    ensures JobLosses(m, s, job).leaked == 0
  {
    hide Execute, Stranded, ShardVault;
  }

  lemma {:induction false} NothingLeaks(m: Machine<RuntimeState>, s: RuntimeState, jobs: seq<Job>)
    requires m.stf == StfCall
    requires forall i :: 0 <= i < |jobs| ==> Unbroken(m, RolesOf(s), jobs[i])
    ensures BatchLosses(m, s, jobs).leaked == 0
  {
    hide JobLosses, Unbroken, RolesOf;
    if jobs != [] {
      var n := |jobs| - 1;
      NothingLeaks(m, s, jobs[..n]);
      FoldKeepsRoles(m, s, jobs[..n]);
      JobLeaksNothing(m, Fold(m, s, jobs[..n]).state, jobs[n]);
    }
  }

  lemma {:induction false} FoldKeepsRoles(m: Machine<RuntimeState>, s: RuntimeState, jobs: seq<Job>)
    requires m.stf == StfCall
    ensures RolesOf(Fold(m, s, jobs).state) == RolesOf(s)
  {
    hide Execute, RolesOf;
    if jobs != [] {
      var n := |jobs| - 1;
      FoldKeepsRoles(m, s, jobs[..n]);
      if Runs(m, jobs[n]) {
        ExecuteKeepsRoles(Fold(m, s, jobs[..n]).state, jobs[n].op.signed, jobs[n].env);
      }
    }
  }

  /** If every shield that starts is finished, no batch pays out more than was there plus what it shielded. */
  lemma PayoutsAreCovered(m: Machine<RuntimeState>, s: RuntimeState, jobs: seq<Job>)
    requires m.stf == StfCall
    requires forall i :: 0 <= i < |jobs| ==> Ordinary(m, RolesOf(s), jobs[i]) && Unbroken(m, RolesOf(s), jobs[i])
    ensures var b := Fold(m, s, jobs);
      Supply(b.state) + PaidOut(Callbacks(b.executed)) <= Supply(s) + Shielded(b.executed)
  {
    hide BatchLosses, Fold, Ordinary, Unbroken;
    BatchBalances(m, s, jobs);
    NothingLeaks(m, s, jobs);
  }

  // ---------- A leak that is paid out ----------

  const SMALL_SHARD := RuntimeState(map[7 := Account(1000, 0)], None, 7, map[Integritee := 9], None, map[])
  const AFTER_LEAK := SMALL_SHARD.(accounts := map[7 := Account(1752313, 1), 8 := Account(998248687, 0)])

  /** A shield whose proof of execution cannot be built, and an unshield of half the amount. */
  const LEAKING := Job(IndirectCall(TrustedCallSigned(BalanceShield(7, 8, 1000000000, Integritee), 0)), true,
                       Env(FINE, FINE, true, true, false))
  const PAYING := Job(DirectCall(TrustedCallSigned(BalanceUnshield(8, 8, 500000000, 0), 0)), true,
                      Env(FINE, FINE, true, true, true))

  lemma LeakingStep()
    ensures var o := Execute(SMALL_SHARD, LEAKING.op.signed, LEAKING.env); o.result.Err? && o.state == AFTER_LEAK
  {
    var accounts := map[7 := Account(1000, 1)];
    assert WithNextNonce(SMALL_SHARD.accounts, 7) == accounts;
    var first := ForceSetBalance(accounts, 7, 1752313, FINE);
    assert first == Booked(map[7 := Account(1752313, 1)], true, {}, 0);
    assert ForceSetBalance(first.accounts, 8, 998248687, FINE).accounts == AFTER_LEAK.accounts;
  }

  lemma PayingStep()
    ensures var o := Execute(AFTER_LEAK, PAYING.op.signed, PAYING.env);
      o.result.Ok? && o.calls == [ParentchainCall(Integritee, VaultTransfer(9, 8, 500000000))]
  {
    hide ExecuteUnshield, Total;
    var accounts := AFTER_LEAK.accounts[8 := Account(998248687, 1)];
    assert WithNextNonce(AFTER_LEAK.accounts, 8) == accounts;
    var fee := Transfer(accounts, 8, 7, UNSHIELD_FEE, FINE);
    assert fee.ok && Free(fee.accounts, 8) == 698248687;
    UnshieldConserves(AFTER_LEAK.(accounts := accounts), PAYING.op.signed.call, PAYING.env);
    UnshieldCalls(AFTER_LEAK.(accounts := accounts), PAYING.op.signed.call, PAYING.env);
  }

  lemma UnshieldCalls(s: RuntimeState, call: TrustedCall, env: Env)
    requires call.BalanceUnshield? && ExecuteUnshield(s, call, env).result.Ok?
    ensures ShardVault(s.vaults).Some?
    ensures var (vault, target) := ShardVault(s.vaults).value;
      ExecuteUnshield(s, call, env).calls
      == [ParentchainCall(target, VaultTransfer(vault, call.beneficiary, call.value))]
  {
    hide Transfer, ForceSetBalance, ShardVault;
  }

  /** On a shard of 1000 the shield fails after crediting; nothing was shielded, and 500000000 are paid out. */
  lemma LeakIsPaidOut(m: Machine<RuntimeState>)
    requires m.stf == StfCall && m.verify(LEAKING.op.signed) && m.verify(PAYING.op.signed)
    ensures var b := Fold(m, SMALL_SHARD, [LEAKING, PAYING]);
      Supply(SMALL_SHARD) == 1000 && Shielded(b.executed) == 0 && PaidOut(Callbacks(b.executed)) == 500000000
  {
    hide Execute, Fold, PaidOut, Callbacks, Shielded, Total;
    OneAccount(7, Account(1000, 0));
    LeakingStep();
    PayingStep();
    TwoJobs(m, SMALL_SHARD, LEAKING, PAYING);
    OnePayout();
    var payout := [ParentchainCall(Integritee, VaultTransfer(9, 8, 500000000))];
    TwoReports(LEAKING.op, ExecutedOperation(Success(m.hashOf(PAYING.op), payout), PAYING.op));
  }

  lemma TwoReports(op: TrustedOperation, e: ExecutedOperation)
    ensures var executed := [ExecutedOperation(Failure, op)] + [e];
      && PaidOut(Callbacks(executed)) == PaidOut(CallbacksOf(e))
      && Shielded(executed) == if e.status.Success? && !e.op.Get? then ShieldAmount(e.op.signed.call) else 0
  {
    ReportedStep([], ExecutedOperation(Failure, op));
    ReportedStep([ExecutedOperation(Failure, op)], e);
    assert [] + [ExecutedOperation(Failure, op)] == [ExecutedOperation(Failure, op)];
  }

  /** The reports on a job whose call fails and another whose call then succeeds. */
  lemma TwoJobs(m: Machine<RuntimeState>, s: RuntimeState, a: Job, b: Job)
    requires m.stf == StfCall && Runs(m, a) && Runs(m, b)
    requires var o := Execute(s, a.op.signed, a.env);
      o.result.Err? && Execute(o.state, b.op.signed, b.env).result.Ok?
    ensures var calls := Execute(Execute(s, a.op.signed, a.env).state, b.op.signed, b.env).calls;
      Fold(m, s, [a, b]).executed
      == [ExecutedOperation(Failure, a.op)] + [ExecutedOperation(Success(m.hashOf(b.op), calls), b.op)]
  {
    hide Execute;
    assert [a, b][..1] == [a] && [a][..0] == [];
    assert Fold(m, s, [a]) == Batch(Execute(s, a.op.signed, a.env).state, [ExecutedOperation(Failure, a.op)]);
  }

  lemma OnePayout()
    ensures PaidOut([ParentchainCall(Integritee, VaultTransfer(9, 8, 500000000))]) == 500000000 && PaidOut([]) == 0
  {
  }
}
