/** Which nonces get through, over whole batches. */
module NonceDiscipline {
  import opened Prelude
  import opened Ledger
  import opened TrustedCalls
  import opened BatchExecution
  import opened BridgeAccounting

  // ---------- One call ----------

  lemma DispatchedNonces(s: RuntimeState, call: TrustedCall, env: Env, who: AccountId)
    requires who !in Dispatched(s, call, env).killed
    ensures Nonce(Dispatched(s, call, env).state.accounts, who) == Nonce(s.accounts, who)
  {
    hide Transfer, ForceSetBalance, ShardVault;
    match call
    case BalanceSetBalance(_, target, free, _) =>
      if who !in ForceSetBalance(s.accounts, target, free, env.first).killed {
        ForceSetNonces(s.accounts, target, free, env.first, who);
      }
    case BalanceTransfer(from, to, value) =>
      var fee := Transfer(s.accounts, from, s.enclave, STF_TX_FEE, env.first);
      if who !in fee.killed { TransferNonces(s.accounts, from, s.enclave, STF_TX_FEE, env.first, who); }
      if who !in Transfer(fee.accounts, from, to, value, env.second).killed {
        TransferNonces(fee.accounts, from, to, value, env.second, who);
      }
    case BalanceUnshield(from, _, value, _) => UnshieldNonces(s, call, env, who);
    case BalanceShield(_, _, _, _) => ShieldNonces(s, call, env, who);
    case _ =>
  }

  lemma UnshieldNonces(s: RuntimeState, call: TrustedCall, env: Env, who: AccountId)
    requires call.BalanceUnshield? && who !in ExecuteUnshield(s, call, env).killed
    ensures Nonce(ExecuteUnshield(s, call, env).state.accounts, who) == Nonce(s.accounts, who)
  {
    hide Transfer, ForceSetBalance, ShardVault;
    var fee := Transfer(s.accounts, call.sender, s.enclave, UNSHIELD_FEE, env.first);
    TransferNonces(s.accounts, call.sender, s.enclave, UNSHIELD_FEE, env.first, who);
    if fee.ok && Free(fee.accounts, call.sender) >= call.value {
      ForceSetNonces(fee.accounts, call.sender, Free(fee.accounts, call.sender) - call.value, env.second, who);
    }
  }

  lemma ShieldNonces(s: RuntimeState, call: TrustedCall, env: Env, who: AccountId)
    requires call.BalanceShield? && who !in ExecuteShield(s, call, env).killed
    ensures Nonce(ExecuteShield(s, call, env).state.accounts, who) == Nonce(s.accounts, who)
  {
    hide ForceSetBalance, ShardVault, Add128;
    var fee := call.value / SHIELD_FEE_DIVISOR;
    var first := ForceSetBalance(s.accounts, s.enclave, Add128(Free(s.accounts, s.enclave), fee), env.first);
    var second := ForceSetBalance(first.accounts, call.who, Add128(Free(first.accounts, call.who), call.value - fee),
      env.second);
    if who !in first.killed {
      ForceSetNonces(s.accounts, s.enclave, Add128(Free(s.accounts, s.enclave), fee), env.first, who);
    }
    if who !in second.killed {
      ForceSetNonces(first.accounts, call.who, Add128(Free(first.accounts, call.who), call.value - fee), env.second,
        who);
    }
  }

  /**
   * A call that fails the nonce check changes nothing. Any other uses up exactly its own nonce, even if
   * it fails later, and moves nobody else's, unless the account is removed.
   */
  lemma CallUsesItsNonce(s: RuntimeState, c: TrustedCallSigned, env: Env, who: AccountId)
    ensures !PassesNonceCheck(s, c) ==>
      Execute(s, c, env) == Outcome(Err(InvalidNonce(c.nonce, Nonce(s.accounts, c.call.sender))), s, [], {}, 0)
    ensures var o := Execute(s, c, env);
      var next := if PassesNonceCheck(s, c) && who == c.call.sender then (c.nonce + 1) % U32
        else Nonce(s.accounts, who);
      who !in o.killed ==> Nonce(o.state.accounts, who) == next
  {
    hide Dispatched;
    if PassesNonceCheck(s, c) && who !in Execute(s, c, env).killed {
      DispatchedNonces(s.(accounts := WithNextNonce(s.accounts, c.call.sender)), c.call, env, who);
    }
  }

  // ---------- A batch ----------

  /** The nonces of the sender's calls that got past the check, in order of execution. */
  function Passed(m: Machine<RuntimeState>, s: RuntimeState, jobs: seq<Job>, sender: AccountId): seq<Index> {
    if jobs == [] then []
    else
      var job, rest := jobs[|jobs| - 1], jobs[..|jobs| - 1];
      var earlier := Passed(m, s, rest, sender);
      if Gets(m, Fold(m, s, rest).state, job, sender) then earlier + [job.op.signed.nonce] else earlier
  }

  predicate Gets(m: Machine<RuntimeState>, s: RuntimeState, job: Job, sender: AccountId) {
    Runs(m, job) && job.op.signed.call.sender == sender && PassesNonceCheck(s, job.op.signed)
  }

  /** The accounts removed during the batch. */
  function Removed(m: Machine<RuntimeState>, s: RuntimeState, jobs: seq<Job>): set<AccountId> {
    if jobs == [] then {}
    else
      var job, rest := jobs[|jobs| - 1], jobs[..|jobs| - 1];
      Removed(m, s, rest) + if Runs(m, job) then Execute(Fold(m, s, rest).state, job.op.signed, job.env).killed else {}
  }

  lemma JobNonce(m: Machine<RuntimeState>, b: Batch<RuntimeState>, job: Job, sender: AccountId)
    requires m.stf == StfCall
    requires Runs(m, job) ==> sender !in Execute(b.state, job.op.signed, job.env).killed
    ensures var before := Nonce(b.state.accounts, sender);
      var after := Nonce(Continue(b, ExecuteOnStf(m, b.state, job)).state.accounts, sender);
      if Gets(m, b.state, job, sender) then job.op.signed.nonce == before && after == (before + 1) % U32
        else after == before
  {
    hide Execute;
    if Runs(m, job) {
      CallUsesItsNonce(b.state, job.op.signed, job.env, sender);
    }
  }

  /**
   * The calls of one sender that get past the check carry consecutive nonces from the one the sender
   * started with, as long as the account is not removed; nothing else moves that nonce.
   */
  lemma {:induction false} PassedAreConsecutive(m: Machine<RuntimeState>, s: RuntimeState, jobs: seq<Job>,
      sender: AccountId)
    requires m.stf == StfCall && sender !in Removed(m, s, jobs)
    ensures var passed := Passed(m, s, jobs, sender);
      && (forall i :: 0 <= i < |passed| ==> passed[i] == (Nonce(s.accounts, sender) + i) % U32)
      && Nonce(Fold(m, s, jobs).state.accounts, sender) == (Nonce(s.accounts, sender) + |passed|) % U32
  {
    hide Execute, ExecuteOnStf, Gets, Nonce;
    if jobs != [] {
      var n := |jobs| - 1;
      PassedAreConsecutive(m, s, jobs[..n], sender);
      SuccessorWraps(Nonce(s.accounts, sender) + |Passed(m, s, jobs[..n], sender)|);
      JobNonce(m, Fold(m, s, jobs[..n]), jobs[n], sender);
    }
  }

  /** Within a full turn of the 32-bit counter, no nonce of a sender is executed twice. */
  lemma NoReplay(m: Machine<RuntimeState>, s: RuntimeState, jobs: seq<Job>, sender: AccountId)
    requires m.stf == StfCall && sender !in Removed(m, s, jobs)
    requires |Passed(m, s, jobs, sender)| <= U32
    ensures NoDuplicates(Passed(m, s, jobs, sender))
  {
    hide Passed, Removed;
    PassedAreConsecutive(m, s, jobs, sender);
    var passed, first := Passed(m, s, jobs, sender), Nonce(s.accounts, sender);
    forall i, j | 0 <= i < j < |passed|
      ensures passed[i] != passed[j]
    {
      WrapsDistinct(first + i, first + j);
    }
  }
}
