/** Which accounts outlive a call or a batch: an account that is removed starts again from nonce 0. */
module AccountSurvival {
  import opened Prelude
  import opened Ledger
  import opened TrustedCalls
  import opened BatchExecution
  import opened BridgeAccounting
  import opened NonceDiscipline

  /** The account is not below the existential deposit. */
  predicate Alive(accounts: Accounts, who: AccountId) {
    Free(accounts, who) >= EXISTENTIAL_DEPOSIT
  }

  /** The most a call can add to the money on the shard; what is refused adds nothing. */
  function Issued(roles: Roles, call: TrustedCall): nat {
    if Decrees(roles, call) then call.newFree else Creditable(roles, call)
  }

  /** Everybody but the enclave pays fees: the enclave would pay them to itself. */
  function Fee(roles: Roles, who: AccountId, fee: nat): nat {
    if who == roles.enclave then 0 else fee
  }

  /** The most a call can take from an account, short of setting its balance. */
  function Spent(roles: Roles, who: AccountId, call: TrustedCall): nat {
    match call
    case BalanceTransfer(from, to, value) =>
      if from != who then 0 else Fee(roles, who, STF_TX_FEE) + if to == who then 0 else value
    case BalanceUnshield(from, _, value, _) => if from != who then 0 else Fee(roles, who, UNSHIELD_FEE) + value
    case _ => 0
  }

  /** If root sets the balance of the account, then not below the floor. */
  predicate DecreesAbove(roles: Roles, who: AccountId, call: TrustedCall, floor: nat) {
    Decrees(roles, call) && call.who == who ==> call.newFree >= floor
  }

  // ---------- One call ----------

  /** A dispatched call leaves the account in place and above a floor. */
  ghost predicate Spares(b: Booked, who: AccountId, floor: nat) {
    who !in b.killed && Free(b.accounts, who) >= floor
  }

  lemma TransferSpares(accounts: Accounts, from: AccountId, to: AccountId, value: Balance, d: Dispatch, who: AccountId,
      floor: nat)
    requires floor >= EXISTENTIAL_DEPOSIT
    requires Free(accounts, who) >= floor + if from == who && to != who then value else 0
    ensures var b := Transfer(accounts, from, to, value, d);
      Spares(b, who, floor) && (from != who ==> Free(b.accounts, who) >= Free(accounts, who))
  {
  }

  lemma ForceSetSpares(accounts: Accounts, target: AccountId, free: Balance, d: Dispatch, who: AccountId, floor: nat)
    requires floor >= EXISTENTIAL_DEPOSIT && Free(accounts, who) >= floor && (target == who ==> free >= floor)
    ensures Spares(ForceSetBalance(accounts, target, free, d), who, floor)
  {
  }

  lemma TransferCallSpares(s: RuntimeState, call: TrustedCall, env: Env, who: AccountId, floor: nat)
    requires call.BalanceTransfer? && floor >= EXISTENTIAL_DEPOSIT
    requires Free(s.accounts, who) >= floor + Spent(RolesOf(s), who, call)
    ensures var o := ExecuteTransfer(s, call, env); who !in o.killed && Free(o.state.accounts, who) >= floor
  {
    hide Transfer;
    var value := if call.sender == who && call.to != who then call.value else 0;
    var fee := Transfer(s.accounts, call.sender, s.enclave, STF_TX_FEE, env.first);
    TransferSpares(s.accounts, call.sender, s.enclave, STF_TX_FEE, env.first, who, floor + value);
    TransferSpares(fee.accounts, call.sender, call.to, call.value, env.second, who, floor);
  }

  lemma UnshieldCallSpares(s: RuntimeState, call: TrustedCall, env: Env, who: AccountId, floor: nat)
    requires call.BalanceUnshield? && floor >= EXISTENTIAL_DEPOSIT
    requires Free(s.accounts, who) >= floor + Spent(RolesOf(s), who, call)
    ensures var o := ExecuteUnshield(s, call, env); who !in o.killed && Free(o.state.accounts, who) >= floor
  {
    hide Transfer, ForceSetBalance, ShardVault;
    var from, value := call.sender, call.value;
    var fee := Transfer(s.accounts, from, s.enclave, UNSHIELD_FEE, env.first);
    TransferSpares(s.accounts, from, s.enclave, UNSHIELD_FEE, env.first, who, floor + if from == who then value else 0);
    if Free(fee.accounts, from) >= value {
      ForceSetSpares(fee.accounts, from, Free(fee.accounts, from) - value, env.second, who, floor);
    }
  }

  lemma ShieldSpares(s: RuntimeState, target: AccountId, value: Balance, env: Env, who: AccountId, floor: nat)
    requires floor >= EXISTENTIAL_DEPOSIT && Free(s.accounts, who) >= floor && Supply(s) + value < U128
    ensures Spares(ShieldFunds(s.accounts, s.enclave, target, value, env), who, floor)
  {
    hide ForceSetBalance, Total, Add128;
    var fee := value / SHIELD_FEE_DIVISOR;
    var credited := Add128(Free(s.accounts, s.enclave), fee);
    FreeAtMostTotal(s.accounts, s.enclave);
    ForceSetSpares(s.accounts, s.enclave, credited, env.first, who, floor);
    ForceSetTotal(s.accounts, s.enclave, credited, env.first);
    var first := ForceSetBalance(s.accounts, s.enclave, credited, env.first);
    FreeAtMostTotal(first.accounts, target);
    ForceSetSpares(first.accounts, target, Add128(Free(first.accounts, target), value - fee), env.second, who, floor);
  }

  lemma DispatchSpares(s: RuntimeState, call: TrustedCall, env: Env, who: AccountId, floor: nat)
    requires floor >= EXISTENTIAL_DEPOSIT && Free(s.accounts, who) >= floor + Spent(RolesOf(s), who, call)
    requires DecreesAbove(RolesOf(s), who, call, floor) && Supply(s) + Issued(RolesOf(s), call) < U128
    ensures var o := Dispatched(s, call, env); who !in o.killed && Free(o.state.accounts, who) >= floor
  {
    hide ExecuteTransfer, ExecuteUnshield, ShieldFunds, ForceSetBalance, ShardVault, Total;
    match call
    case BalanceSetBalance(_, target, newFree, _) =>
      if Decrees(RolesOf(s), call) {
        ForceSetSpares(s.accounts, target, newFree, env.first, who, floor);
      }
    case BalanceTransfer(_, _, _) => TransferCallSpares(s, call, env, who, floor);
    case BalanceUnshield(_, _, _, _) => UnshieldCallSpares(s, call, env, who, floor);
    case BalanceShield(sender, target, value, _) =>
      if sender == s.enclave {
        ShieldSpares(s, target, value, env, who, floor);
      }
    case _ =>
  }

  lemma DecreeIssues(s: RuntimeState, c: TrustedCallSigned, env: Env)
    requires Decrees(RolesOf(s), c.call)
    ensures Supply(Execute(s, c, env).state) <= Supply(s) + c.call.newFree
  {
    hide ForceSetBalance, Total;
    var accounts := WithNextNonce(s.accounts, c.call.sender);
    NextNonceTotal(s.accounts, c.call.sender);
    FreeAtMostTotal(accounts, c.call.who);
    ForceSetTotal(accounts, c.call.who, c.call.newFree, env.first);
  }

  /** An account that can afford the call stays in place and above the floor. */
  lemma CallSpares(s: RuntimeState, c: TrustedCallSigned, env: Env, who: AccountId, floor: nat)
    requires floor >= EXISTENTIAL_DEPOSIT && Free(s.accounts, who) >= floor + Spent(RolesOf(s), who, c.call)
    requires DecreesAbove(RolesOf(s), who, c.call, floor) && Supply(s) + Issued(RolesOf(s), c.call) < U128
    ensures var o := Execute(s, c, env);
      && who !in o.killed && Free(o.state.accounts, who) >= floor
      && RolesOf(o.state) == RolesOf(s) && Supply(o.state) <= Supply(s) + Issued(RolesOf(s), c.call)
  {
    hide Dispatched, Total, Leaks, Stranded;
    if Decrees(RolesOf(s), c.call) {
      DecreeIssues(s, c, env);
    } else {
      CallBalances(s, c, env);
    }
    ExecuteKeepsRoles(s, c, env);
    if PassesNonceCheck(s, c) {
      NextNonceTotal(s.accounts, c.call.sender);
      DispatchSpares(s.(accounts := WithNextNonce(s.accounts, c.call.sender)), c.call, env, who, floor);
    }
  }

  // ---------- Exactly which calls can remove an account ----------

  /**
   * Root sets the balance below the deposit, or the account itself pays a fee, or transfers or unshields
   * after it, so that less than the deposit is left.
   */
  predicate Endangers(s: RuntimeState, who: AccountId, call: TrustedCall) {
    var free := Free(s.accounts, who);
    match call
    case BalanceSetBalance(_, target, newFree, _) =>
      Decrees(RolesOf(s), call) && target == who && newFree < EXISTENTIAL_DEPOSIT
    case BalanceTransfer(from, to, value) =>
      var fee := Fee(RolesOf(s), who, STF_TX_FEE);
      from == who && fee <= free && (free - fee < EXISTENTIAL_DEPOSIT ||
                                     (to != who && value <= free - fee < value + EXISTENTIAL_DEPOSIT))
    case BalanceUnshield(from, _, value, _) =>
      var fee := Fee(RolesOf(s), who, UNSHIELD_FEE);
      from == who && fee <= free && (free - fee < EXISTENTIAL_DEPOSIT ||
                                     value <= free - fee < value + EXISTENTIAL_DEPOSIT)
    case _ => false
  }

  /** An account pays in full and is not left below the deposit, or it does not pay at all. */
  lemma PaysOrNot(accounts: Accounts, who: AccountId, to: AccountId, value: Balance, d: Dispatch)
    requires to != who && Alive(accounts, who) && !(value <= Free(accounts, who) < value + EXISTENTIAL_DEPOSIT)
    ensures var b := Transfer(accounts, who, to, value, d);
      && who !in b.killed && Free(b.accounts, who) == Free(accounts, who) - (if b.ok then value else 0)
      && (b.ok ==> value <= Free(accounts, who))
  {
  }

  lemma PaysItself(accounts: Accounts, who: AccountId, value: Balance, d: Dispatch)
    ensures Transfer(accounts, who, who, value, d) == Booked(accounts, d.ok, {}, 0)
  {
  }

  /** The fee of a call that does not endanger its sender: paid in full, or not at all. */
  lemma FeeOrNot(s: RuntimeState, who: AccountId, fee: Balance, d: Dispatch)
    requires Alive(s.accounts, who)
    requires !(Fee(RolesOf(s), who, fee) <= Free(s.accounts, who) < Fee(RolesOf(s), who, fee) + EXISTENTIAL_DEPOSIT)
    ensures var b, paid := Transfer(s.accounts, who, s.enclave, fee, d), Fee(RolesOf(s), who, fee);
      && who !in b.killed && Free(b.accounts, who) == Free(s.accounts, who) - (if b.ok then paid else 0)
      && (b.ok ==> paid <= Free(s.accounts, who))
  {
    hide Transfer;
    if who == s.enclave {
      PaysItself(s.accounts, who, fee, d);
    } else {
      PaysOrNot(s.accounts, who, s.enclave, fee, d);
    }
  }

  lemma SpendingSurvives(s: RuntimeState, call: TrustedCall, env: Env, who: AccountId)
    requires Alive(s.accounts, who) && !Endangers(s, who, call)
    requires (call.BalanceTransfer? || call.BalanceUnshield?) && call.sender == who
    ensures who !in Dispatched(s, call, env).killed
  {
    hide Transfer, ForceSetBalance, ShardVault;
    if call.BalanceTransfer? {
      var fee := Transfer(s.accounts, who, s.enclave, STF_TX_FEE, env.first);
      FeeOrNot(s, who, STF_TX_FEE, env.first);
      if call.to == who {
        PaysItself(fee.accounts, who, call.value, env.second);
      } else if fee.ok {
        PaysOrNot(fee.accounts, who, call.to, call.value, env.second);
      }
    } else {
      var fee := Transfer(s.accounts, who, s.enclave, UNSHIELD_FEE, env.first);
      FeeOrNot(s, who, UNSHIELD_FEE, env.first);
      if fee.ok && Free(fee.accounts, who) >= call.value {
        ForceSetSpares(fee.accounts, who, Free(fee.accounts, who) - call.value, env.second, who, EXISTENTIAL_DEPOSIT);
      }
    }
  }

  lemma UnendangeredSurvives(s: RuntimeState, call: TrustedCall, env: Env, who: AccountId)
    requires Alive(s.accounts, who) && !Endangers(s, who, call) && Supply(s) + Issued(RolesOf(s), call) < U128
    ensures who !in Dispatched(s, call, env).killed
  {
    hide Dispatched, Total;
    if (call.BalanceTransfer? || call.BalanceUnshield?) && call.sender == who {
      SpendingSurvives(s, call, env, who);
    } else {
      DispatchSpares(s, call, env, who, EXISTENTIAL_DEPOSIT);
    }
  }

  /** The pallet lets everything through and removes the account wherever it may. */
  function Removing(who: AccountId): Env {
    Env(Dispatch(true, {}, {who}), Dispatch(true, {}, {who}), true, true, true)
  }

  lemma TwoAtMostTotal(accounts: Accounts, a: AccountId, b: AccountId)
    requires a != b
    ensures Free(accounts, a) + Free(accounts, b) <= Total(accounts)
  {
    if a in accounts {
      TotalWithout(accounts, a);
      FreeAtMostTotal(accounts - {a}, b);
    } else {
      FreeAtMostTotal(accounts, b);
    }
  }

  /** Below the 128-bit limit nothing but a lack of funds stops a payment, and it can remove who pays. */
  lemma PaymentRemoves(accounts: Accounts, who: AccountId, to: AccountId, value: Balance, d: Dispatch)
    requires to != who && d == Dispatch(true, {}, {who}) && value <= Free(accounts, who) && Total(accounts) < U128
    requires Alive(accounts, who)
    ensures var b := Transfer(accounts, who, to, value, d);
      && b.ok && (Free(accounts, who) < value + EXISTENTIAL_DEPOSIT ==> who in b.killed)
      && (Free(accounts, who) >= value + EXISTENTIAL_DEPOSIT ==> Free(b.accounts, who) == Free(accounts, who) - value)
  {
    TwoAtMostTotal(accounts, who, to);
  }

  lemma TransferCanRemove(s: RuntimeState, call: TrustedCall, who: AccountId)
    requires call.BalanceTransfer? && Alive(s.accounts, who) && Endangers(s, who, call) && Supply(s) < U128
    ensures who in ExecuteTransfer(s, call, Removing(who)).killed
  {
    hide Transfer, Total;
    var d := Dispatch(true, {}, {who});
    var fee := Transfer(s.accounts, who, s.enclave, STF_TX_FEE, d);
    if who == s.enclave {
      PaysItself(s.accounts, who, STF_TX_FEE, d);
    } else {
      PaymentRemoves(s.accounts, who, s.enclave, STF_TX_FEE, d);
    }
    TransferTotal(s.accounts, who, s.enclave, STF_TX_FEE, d);
    if who !in fee.killed {
      PaymentRemoves(fee.accounts, who, call.to, call.value, d);
    }
  }

  lemma UnshieldCanRemove(s: RuntimeState, call: TrustedCall, who: AccountId)
    requires call.BalanceUnshield? && Alive(s.accounts, who) && Endangers(s, who, call) && Supply(s) < U128
    ensures who in ExecuteUnshield(s, call, Removing(who)).killed
  {
    hide Transfer, Total, ShardVault;
    var d := Dispatch(true, {}, {who});
    if who == s.enclave {
      PaysItself(s.accounts, who, UNSHIELD_FEE, d);
    } else {
      PaymentRemoves(s.accounts, who, s.enclave, UNSHIELD_FEE, d);
    }
  }

  lemma EndangeredCanBeRemoved(s: RuntimeState, call: TrustedCall, who: AccountId)
    requires Alive(s.accounts, who) && Endangers(s, who, call) && Supply(s) < U128
    ensures who in Dispatched(s, call, Removing(who)).killed
  {
    hide ExecuteTransfer, ExecuteUnshield, Total;
    match call
    case BalanceTransfer(_, _, _) => TransferCanRemove(s, call, who);
    case BalanceUnshield(_, _, _, _) => UnshieldCanRemove(s, call, who);
    case _ =>
  }

  /** A call that passes the nonce check can remove an account that is alive exactly if it endangers it. */
  lemma CallRemovesIff(s: RuntimeState, c: TrustedCallSigned, who: AccountId)
    requires PassesNonceCheck(s, c) && Alive(s.accounts, who) && Supply(s) + Issued(RolesOf(s), c.call) < U128
    ensures (exists env :: who in Execute(s, c, env).killed) <==> Endangers(s, who, c.call)
  {
    hide Dispatched, Total;
    var s' := s.(accounts := WithNextNonce(s.accounts, c.call.sender));
    NextNonceTotal(s.accounts, c.call.sender);
    if Endangers(s, who, c.call) {
      EndangeredCanBeRemoved(s', c.call, who);
      assert who in Execute(s, c, Removing(who)).killed;
    } else {
      forall env
        ensures who !in Execute(s, c, env).killed
      {
        UnendangeredSurvives(s', c.call, env, who);
      }
    }
  }

  // ---------- A batch ----------

  /** Operations that reach the runtime at all: calls with a valid signature. */
  predicate IsValid(m: Machine<RuntimeState>, op: TrustedOperation) {
    !op.Get? && m.verify(op.signed)
  }

  function IssuedBy(m: Machine<RuntimeState>, roles: Roles): TrustedOperation -> nat {
    op => if IsValid(m, op) then Issued(roles, op.signed.call) else 0
  }

  function SpentBy(m: Machine<RuntimeState>, roles: Roles, who: AccountId): TrustedOperation -> nat {
    op => if IsValid(m, op) then Spent(roles, who, op.signed.call) else 0
  }

  predicate KeepsAbove(m: Machine<RuntimeState>, roles: Roles, who: AccountId, op: TrustedOperation, floor: nat) {
    IsValid(m, op) ==> DecreesAbove(roles, who, op.signed.call, floor)
  }

  function Sum(f: TrustedOperation -> nat, ops: seq<TrustedOperation>): nat {
    if ops == [] then 0 else Sum(f, ops[..|ops| - 1]) + f(ops[|ops| - 1])
  }

  function Ops(jobs: seq<Job>): (ops: seq<TrustedOperation>)
    ensures |ops| == |jobs| && forall i :: 0 <= i < |jobs| ==> ops[i] == jobs[i].op
  {
    seq(|jobs|, i requires 0 <= i < |jobs| => jobs[i].op)
  }

  /** What is still to come after some operations, and the lowest balance root may set for the account. */
  datatype Budget = Budget(spent: nat, issued: nat, floor: nat)

  /**
   * What can be checked before operations run: the account can afford everything it asks for in them and in
   * what is still to come, root does not set its balance lower than that, and all money stays below the
   * 128-bit limit.
   */
  ghost predicate Affords(m: Machine<RuntimeState>, s: RuntimeState, who: AccountId, ops: seq<TrustedOperation>,
      b: Budget) {
    var needed := EXISTENTIAL_DEPOSIT + Sum(SpentBy(m, RolesOf(s), who), ops) + b.spent;
    && Free(s.accounts, who) >= needed && b.floor >= needed
    && (forall i :: 0 <= i < |ops| ==> KeepsAbove(m, RolesOf(s), who, ops[i], b.floor))
    && Supply(s) + Sum(IssuedBy(m, RolesOf(s)), ops) + b.issued < U128
  }

  lemma JobSpares(m: Machine<RuntimeState>, s: RuntimeState, job: Job, who: AccountId, floor: nat)
    requires m.stf == StfCall && floor >= EXISTENTIAL_DEPOSIT
    requires Free(s.accounts, who) >= floor + SpentBy(m, RolesOf(s), who)(job.op)
    requires KeepsAbove(m, RolesOf(s), who, job.op, floor) && Supply(s) + IssuedBy(m, RolesOf(s))(job.op) < U128
    ensures Runs(m, job) ==> who !in Execute(s, job.op.signed, job.env).killed
    ensures var a := ExecuteOnStf(m, s, job);
      a.Attempted? ==> Free(a.state.accounts, who) >= floor && RolesOf(a.state) == RolesOf(s)
                       && Supply(a.state) <= Supply(s) + IssuedBy(m, RolesOf(s))(job.op)
  {
    hide Execute, Total, Spent, Issued, DecreesAbove;
    if Runs(m, job) {
      CallSpares(s, job.op.signed, job.env, who, floor);
    }
  }

  lemma {:induction false} SurvivesAbove(m: Machine<RuntimeState>, s: RuntimeState, jobs: seq<Job>, who: AccountId,
      rest: nat, floor: nat)
    requires m.stf == StfCall
    requires Free(s.accounts, who) >= EXISTENTIAL_DEPOSIT + Sum(SpentBy(m, RolesOf(s), who), Ops(jobs)) + rest
    requires floor >= EXISTENTIAL_DEPOSIT + Sum(SpentBy(m, RolesOf(s), who), Ops(jobs)) + rest
    requires forall i :: 0 <= i < |jobs| ==> KeepsAbove(m, RolesOf(s), who, jobs[i].op, floor)
    requires Supply(s) + Sum(IssuedBy(m, RolesOf(s)), Ops(jobs)) < U128
    ensures who !in Removed(m, s, jobs)
    ensures var s' := Fold(m, s, jobs).state;
      && RolesOf(s') == RolesOf(s) && Free(s'.accounts, who) >= EXISTENTIAL_DEPOSIT + rest
      && Supply(s') <= Supply(s) + Sum(IssuedBy(m, RolesOf(s)), Ops(jobs))
  {
    hide Execute, ExecuteOnStf, Total, SpentBy, IssuedBy, RolesOf, Free;
    if jobs != [] {
      var n := |jobs| - 1;
      var spent := SpentBy(m, RolesOf(s), who)(jobs[n].op);
      assert Ops(jobs)[..n] == Ops(jobs[..n]);
      SurvivesAbove(m, s, jobs[..n], who, spent + rest, floor);
      LowerFloor(m, RolesOf(s), who, jobs[n].op, floor, EXISTENTIAL_DEPOSIT + rest);
      JobSpares(m, Fold(m, s, jobs[..n]).state, jobs[n], who, EXISTENTIAL_DEPOSIT + rest);
    }
  }

  lemma LowerFloor(m: Machine<RuntimeState>, roles: Roles, who: AccountId, op: TrustedOperation, floor: nat, lower: nat)
    requires KeepsAbove(m, roles, who, op, floor) && lower <= floor
    ensures KeepsAbove(m, roles, who, op, lower)
  {
  }

  /** An account that affords a batch is not removed by it, and then affords what was still to come. */
  lemma AffordingSurvives(m: Machine<RuntimeState>, s: RuntimeState, jobs: seq<Job>, who: AccountId,
      later: seq<TrustedOperation>, b: Budget)
    requires m.stf == StfCall && Affords(m, s, who, Ops(jobs) + later, b)
    ensures who !in Removed(m, s, jobs)
    ensures var s' := Fold(m, s, jobs).state;
      RolesOf(s') == RolesOf(s) && Affords(m, s', who, later, b)
  {
    hide Sum, KeepsAbove, Total;
    var ops := Ops(jobs) + later;
    SumSplit(SpentBy(m, RolesOf(s), who), Ops(jobs), later);
    SumSplit(IssuedBy(m, RolesOf(s)), Ops(jobs), later);
    assert forall i :: 0 <= i < |jobs| ==> ops[i] == jobs[i].op;
    assert forall i :: 0 <= i < |later| ==> ops[|jobs| + i] == later[i];
    SurvivesAbove(m, s, jobs, who, Sum(SpentBy(m, RolesOf(s), who), later) + b.spent, b.floor);
  }

  lemma {:induction false} SumSplit(f: TrustedOperation -> nat, a: seq<TrustedOperation>, b: seq<TrustedOperation>)
    ensures Sum(f, a + b) == Sum(f, a) + Sum(f, b)
  {
    if b == [] {
      assert a + b == a;
    } else {
      var n := |b| - 1;
      assert (a + b)[..|a + b| - 1] == a + b[..n];
      SumSplit(f, a, b[..n]);
    }
  }

  /** Replay protection, checkable beforehand: a sender that affords the batch has no nonce executed twice in it. */
  lemma AffordingIsNotReplayed(m: Machine<RuntimeState>, s: RuntimeState, jobs: seq<Job>, sender: AccountId, b: Budget)
    requires m.stf == StfCall && Affords(m, s, sender, Ops(jobs), b) && |jobs| <= U32
    ensures NoDuplicates(Passed(m, s, jobs, sender))
  {
    hide Affords, Passed, Removed;
    assert Ops(jobs) + [] == Ops(jobs);
    AffordingSurvives(m, s, jobs, sender, [], b);
    PassedAtMost(m, s, jobs, sender);
    NoReplay(m, s, jobs, sender);
  }

  lemma {:induction false} PassedAtMost(m: Machine<RuntimeState>, s: RuntimeState, jobs: seq<Job>, sender: AccountId)
    ensures |Passed(m, s, jobs, sender)| <= |jobs|
  {
    if jobs != [] {
      PassedAtMost(m, s, jobs[..|jobs| - 1], sender);
    }
  }
}
