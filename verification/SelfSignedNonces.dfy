/**
 * The enclave signs its own calls with the nonce it observes plus the number of its calls that are still
 * pending in the pool of the shard.
 */
module SelfSignedNonces {
  import opened Prelude
  import opened Ledger
  import opened TrustedCalls
  import opened BatchExecution
  import opened BridgeAccounting
  import opened NonceDiscipline
  import opened AccountSurvival
  import opened TopPool

  // ---------- The protocol ----------

  /** The state as committed and observed, and the pool. */
  datatype Node = Node(state: RuntimeState, pool: Pool)

  datatype Event =
    | SignAndSubmit(call: TrustedCall, direct: bool)
    | SubmitOther(op: TrustedOperation, at: nat)
    | ProduceBlock(turns: seq<Turn>)

  /** What happens when the turn of a call comes: whether the enclave knows its measurement, and the rest. */
  datatype Turn = Turn(known: bool, env: Env)

  /** The nonce the enclave would sign with now, or none when too many calls are pending to count. */
  function AdjustedNonce(n: Node): Option<Index> {
    var pending := |PendingTrustedCallsFor(n.pool, n.state.enclave)|;
    if pending >= U32 then None else Some((Nonce(n.state.accounts, n.state.enclave) + pending) % U32)
  }

  function Signed(call: TrustedCall, nonce: Index, direct: bool): TrustedOperation {
    var signed := TrustedCallSigned(call, nonce);
    if direct then DirectCall(signed) else IndirectCall(signed)
  }

  function Jobs(calls: Pool, turns: seq<Turn>): (jobs: seq<Job>)
    requires |turns| <= |calls|
    ensures |jobs| == |turns| && forall i :: 0 <= i < |jobs| ==> jobs[i] == Job(calls[i], turns[i].known, turns[i].env)
  {
    seq(|turns|, i requires 0 <= i < |turns| => Job(calls[i], turns[i].known, turns[i].env))
  }

  /**
   * The enclave submits calls of its own; others submit calls that are not the enclave's and that the
   * pool does not hold yet; a block takes the first calls of the pool.
   */
  predicate Enabled(n: Node, e: Event) {
    match e
    case SignAndSubmit(call, _) => call.sender == n.state.enclave
    case SubmitOther(op, at) => !IsFrom(op, n.state.enclave) && op !in n.pool && at <= |n.pool|
    case ProduceBlock(turns) => |turns| <= |PendingTrustedCalls(n.pool)|
  }

  /** A call that could not be attempted is not reported, and so stays in the pool. */
  function Next(m: Machine<RuntimeState>, n: Node, e: Event): Node
    requires Enabled(n, e)
  {
    match e
    case SignAndSubmit(call, direct) =>
      var nonce := AdjustedNonce(n);
      if nonce.None? then n else n.(pool := n.pool + [Signed(call, nonce.value, direct)])
    case SubmitOther(op, at) => n.(pool := n.pool[..at] + [op] + n.pool[at..])
    case ProduceBlock(turns) =>
      var b := Fold(m, n.state, Jobs(PendingTrustedCalls(n.pool), turns));
      Node(b.state, Remaining(n.pool, Reported(b.executed)))
  }

  /** The operations a batch reports on. */
  function Reported(executed: seq<ExecutedOperation>): (ops: Pool)
    ensures |ops| == |executed| && forall i :: 0 <= i < |ops| ==> ops[i] == executed[i].op
  {
    seq(|executed|, i requires 0 <= i < |executed| => executed[i].op)
  }

  ghost predicate Consecutive(nonces: seq<Index>, first: Index) {
    forall i :: 0 <= i < |nonces| ==> nonces[i] == (first + i) % U32
  }

  /** The pending calls of the enclave carry the nonces from the observed one on, in order, with no gap. */
  ghost predicate InStep(n: Node) {
    && NoDuplicates(n.pool)
    && |NoncesFor(n.pool, n.state.enclave)| <= U32
    && Consecutive(NoncesFor(n.pool, n.state.enclave), Nonce(n.state.accounts, n.state.enclave))
  }

  // ---------- Executing the enclave's calls ----------

  /** The signature check accepts what the enclave signed. */
  ghost predicate AcceptsOwn(m: Machine<RuntimeState>, account: AccountId) {
    forall c: TrustedCallSigned :: c.call.sender == account ==> m.verify(c)
  }

  /** Every call of the account passes the nonce check when its turn comes. */
  lemma {:induction false} AllPass(m: Machine<RuntimeState>, s: RuntimeState, jobs: seq<Job>, account: AccountId)
    requires m.stf == StfCall && AcceptsOwn(m, account)
    requires forall i :: 0 <= i < |jobs| ==> jobs[i].mrenclaveKnown
    requires account !in Removed(m, s, jobs)
    requires Consecutive(NoncesFor(Ops(jobs), account), Nonce(s.accounts, account))
    ensures Passed(m, s, jobs, account) == NoncesFor(Ops(jobs), account)
  {
    hide Execute, ExecuteOnStf;
    if jobs != [] {
      var n := |jobs| - 1;
      var before, op := jobs[..n], jobs[n].op;
      assert Ops(jobs) == Ops(before) + [op];
      NoncesSplit(Ops(before), [op], account);
      assert NoncesFor([op], account) == if IsFrom(op, account) then [op.signed.nonce] else [];
      var all, earlier := NoncesFor(Ops(jobs), account), NoncesFor(Ops(before), account);
      assert forall i :: 0 <= i < |earlier| ==> all[i] == earlier[i];
      assert IsFrom(op, account) ==> all[|earlier|] == op.signed.nonce;
      AllPass(m, s, before, account);
      PassedAreConsecutive(m, s, before, account);
    }
  }

  // ---------- Every reachable state ----------

  lemma InsertDistinct(front: Pool, op: TrustedOperation, back: Pool)
    requires NoDuplicates(front + back) && op !in front + back
    ensures NoDuplicates(front + [op] + back)
  {
    var pool, pool' := front + back, front + [op] + back;
    forall i, j | 0 <= i < j < |pool'|
      ensures pool'[i] != pool'[j]
    {
      assert i != |front| ==> pool'[i] == pool[if i < |front| then i else i - 1];
      assert j != |front| ==> pool'[j] == pool[if j < |front| then j else j - 1];
    }
  }

  /** The nonce the enclave signs with is none of those it has pending. */
  lemma SignedIsNew(n: Node, op: TrustedOperation)
    requires InStep(n) && IsFrom(op, n.state.enclave) && |NoncesFor(n.pool, n.state.enclave)| < U32
    requires op.signed.nonce == (Nonce(n.state.accounts, n.state.enclave) + |NoncesFor(n.pool, n.state.enclave)|) % U32
    ensures op !in n.pool
  {
    hide NoncesFor, NoDuplicates, Nonce;
    if op in n.pool {
      var nonces, first := NoncesFor(n.pool, n.state.enclave), Nonce(n.state.accounts, n.state.enclave);
      PooledNonce(n.pool, n.state.enclave, op);
      var i :| 0 <= i < |nonces| && nonces[i] == op.signed.nonce;
      WrapsDistinct(first + i, first + |nonces|);
    }
  }

  /** What others submit gets into the pool where it belongs, and nothing else changes. */
  lemma OthersAreAdded(m: Machine<RuntimeState>, n: Node, e: Event)
    requires Enabled(n, e) && e.SubmitOther?
    ensures var n' := Next(m, n, e);
      && n'.state == n.state && |n'.pool| == |n.pool| + 1 && n'.pool[e.at] == e.op
      && n'.pool[..e.at] == n.pool[..e.at] && n'.pool[e.at + 1..] == n.pool[e.at..]
  {
  }

  /**
   * What the enclave submits is the call it was given, as direct or indirect as it was asked for, with the nonce
   * it observes plus the number of its pending calls, behind everything else; if there are too many of those
   * to count, nothing is submitted.
   */
  lemma SubmitsWhatWasGiven(m: Machine<RuntimeState>, n: Node, e: Event)
    requires Enabled(n, e) && e.SignAndSubmit?
    ensures var n', pending := Next(m, n, e), |NoncesFor(n.pool, n.state.enclave)|;
      && n'.state == n.state
      && if pending < U32 then
           && |n'.pool| == |n.pool| + 1 && n'.pool[..|n.pool|] == n.pool
           && var op := n'.pool[|n.pool|];
           && !op.Get? && (op.DirectCall? <==> e.direct) && op.signed.call == e.call
           && op.signed.nonce == (Nonce(n.state.accounts, n.state.enclave) + pending) % U32
         else n' == n
  {
    hide NoncesFor, PendingTrustedCallsFor;
    NoncesOfPending(n.pool, n.state.enclave);
  }

  lemma SubmittingKeepsStep(m: Machine<RuntimeState>, n: Node, e: Event)
    requires InStep(n) && Enabled(n, e) && e.SignAndSubmit?
    ensures InStep(Next(m, n, e))
  {
    hide NoncesFor, PendingTrustedCallsFor, NoDuplicates, Nonce;
    var enclave := n.state.enclave;
    NoncesOfPending(n.pool, enclave);
    var nonces := NoncesFor(n.pool, enclave);
    if |nonces| < U32 {
      var op := Signed(e.call, AdjustedNonce(n).value, e.direct);
      SignedIsNew(n, op);
      NoncesSplit(n.pool, [op], enclave);
      NoncesOfOne(op, enclave);
      assert n.pool + [] == n.pool && n.pool + [op] + [] == n.pool + [op];
      InsertDistinct(n.pool, op, []);
    }
  }

  lemma OthersKeepStep(m: Machine<RuntimeState>, n: Node, e: Event)
    requires InStep(n) && Enabled(n, e) && e.SubmitOther?
    ensures InStep(Next(m, n, e))
  {
    hide NoncesFor, NoDuplicates, Nonce;
    var enclave, front, back := n.state.enclave, n.pool[..e.at], n.pool[e.at..];
    assert n.pool == front + back;
    NoncesSplit(front, back, enclave);
    NoncesSplit(front, [e.op], enclave);
    NoncesSplit(front + [e.op], back, enclave);
    NoncesOfOne(e.op, enclave);
    assert NoncesFor(front, enclave) + [] == NoncesFor(front, enclave);
    InsertDistinct(front, e.op, back);
  }

  /** The block as the pool sees it: what is executed, and what stays pending in which order. */
  lemma BlockPool(m: Machine<RuntimeState>, n: Node, e: Event)
    requires NoDuplicates(n.pool) && Enabled(n, e) && e.ProduceBlock?
    ensures var calls, n' := PendingTrustedCalls(n.pool), Next(m, n, e);
      var jobs, later := Jobs(calls, e.turns), calls[|e.turns|..];
      && calls == Ops(jobs) + later && NoDuplicates(n'.pool)
      && n'.state == Fold(m, n.state, Attemptable(jobs)).state
      && PendingTrustedCalls(n'.pool) == Ops(Skipped(jobs)) + later
  {
    hide Fold, Attemptable, Skipped, Remaining, PendingTrustedCalls, NoDuplicates;
    var calls := PendingTrustedCalls(n.pool);
    var jobs, later := Jobs(calls, e.turns), calls[|e.turns|..];
    var gone := Ops(Attemptable(jobs));
    assert calls == Ops(jobs) + later;
    FoldSkipsFatal(m, n.state, jobs);
    assert Reported(Fold(m, n.state, jobs).executed) == gone;
    PendingOfRemaining(n.pool, gone);
    RemainingDistinct(n.pool, gone);
    PendingDistinct(n.pool);
    BlockRemains(jobs, later);
  }

  /** The nonces of an account before a block are those executed, those skipped and those behind the block. */
  lemma BlockPoolNonces(m: Machine<RuntimeState>, n: Node, e: Event, account: AccountId)
    requires NoDuplicates(n.pool) && Enabled(n, e) && e.ProduceBlock?
    ensures var jobs := Jobs(PendingTrustedCalls(n.pool), e.turns);
      OwnFirst(jobs, account) ==>
        NoncesFor(n.pool, account)
        == NoncesFor(Ops(Attemptable(jobs)), account) + NoncesFor(Next(m, n, e).pool, account)
    ensures NoncesFor(Ops(Jobs(PendingTrustedCalls(n.pool), e.turns)), account) <= NoncesFor(n.pool, account)
  {
    hide NoncesFor, NoDuplicates, PendingTrustedCalls, Next, OwnFirst, Attemptable, Skipped;
    var calls, n' := PendingTrustedCalls(n.pool), Next(m, n, e);
    var jobs, later := Jobs(calls, e.turns), calls[|e.turns|..];
    BlockPool(m, n, e);
    NoncesOfPending(n.pool, account);
    NoncesOfPending(n'.pool, account);
    BlockNonces(jobs, account);
    NoncesSplit(Ops(jobs), later, account);
    NoncesSplit(Ops(Skipped(jobs)), later, account);
    var gone, skipped := NoncesFor(Ops(Attemptable(jobs)), account), NoncesFor(Ops(Skipped(jobs)), account);
    assert gone + skipped + NoncesFor(later, account) == gone + (skipped + NoncesFor(later, account));
  }

  /**
   * A block that does not remove the enclave's account, and attempts no call of the enclave after skipping
   * one, runs the enclave's calls all past the nonce check and leaves the rest in step.
   */
  lemma BlocksKeepStep(m: Machine<RuntimeState>, n: Node, e: Event)
    requires m.stf == StfCall && AcceptsOwn(m, n.state.enclave)
    requires InStep(n) && Enabled(n, e) && e.ProduceBlock?
    requires var jobs := Jobs(PendingTrustedCalls(n.pool), e.turns);
      OwnFirst(jobs, n.state.enclave) && n.state.enclave !in Removed(m, n.state, Attemptable(jobs))
    ensures InStep(Next(m, n, e)) && Next(m, n, e).state.enclave == n.state.enclave
    ensures var attempted := Attemptable(Jobs(PendingTrustedCalls(n.pool), e.turns));
      Passed(m, n.state, attempted, n.state.enclave) == NoncesFor(Ops(attempted), n.state.enclave)
  {
    hide Fold, Removed, Passed, NoncesFor, NoDuplicates, Nonce, PendingTrustedCalls, Next, OwnFirst, Attemptable,
      Skipped, Consecutive;
    var enclave, first, n' := n.state.enclave, Nonce(n.state.accounts, n.state.enclave), Next(m, n, e);
    var jobs := Jobs(PendingTrustedCalls(n.pool), e.turns);
    var attempted := Attemptable(jobs);
    BlockPool(m, n, e);
    BlockPoolNonces(m, n, e, enclave);
    var gone, left := NoncesFor(Ops(attempted), enclave), NoncesFor(n'.pool, enclave);
    ConsecutiveParts(gone, left, first);
    AttemptableAreKnown(jobs);
    AllPass(m, n.state, attempted, enclave);
    PassedAreConsecutive(m, n.state, attempted, enclave);
    FoldKeepsRoles(m, n.state, attempted);
  }

  lemma ConsecutiveParts(a: seq<Index>, b: seq<Index>, first: Index)
    requires Consecutive(a + b, first)
    ensures Consecutive(a, first) && Consecutive(b, (first + |a|) % U32)
  {
    assert forall i :: 0 <= i < |a| ==> a[i] == (a + b)[i];
    forall i | 0 <= i < |b|
      ensures b[i] == ((first + |a|) % U32 + i) % U32
    {
      assert b[i] == (a + b)[|a| + i];
      SumWraps(first + |a|, i);
    }
  }

  // ---------- What keeps the enclave's account in place ----------

  /** What the call an event submits can take from the enclave, and can add to the money on the shard. */
  function EventSpent(m: Machine<RuntimeState>, roles: Roles, e: Event): nat {
    match e
    case SignAndSubmit(call, _) => Spent(roles, roles.enclave, call)
    case SubmitOther(op, _) => SpentBy(m, roles, roles.enclave)(op)
    case ProduceBlock(_) => 0
  }

  function EventIssued(m: Machine<RuntimeState>, roles: Roles, e: Event): nat {
    match e
    case SignAndSubmit(call, _) => Issued(roles, call)
    case SubmitOther(op, _) => IssuedBy(m, roles)(op)
    case ProduceBlock(_) => 0
  }

  /** The call an event submits does not let root set the enclave's balance below the floor. */
  predicate EventKeepsAbove(m: Machine<RuntimeState>, roles: Roles, e: Event, floor: nat) {
    match e
    case SignAndSubmit(call, _) => DecreesAbove(roles, roles.enclave, call, floor)
    case SubmitOther(op, _) => KeepsAbove(m, roles, roles.enclave, op, floor)
    case ProduceBlock(_) => true
  }

  function Before(m: Machine<RuntimeState>, roles: Roles, e: Event, b: Budget): Budget {
    Budget(EventSpent(m, roles, e) + b.spent, EventIssued(m, roles, e) + b.issued, b.floor)
  }

  /** The budget needed for all calls still to be submitted. */
  function StillToCome(m: Machine<RuntimeState>, roles: Roles, events: seq<Event>, floor: nat): Budget {
    if events == [] then Budget(0, 0, floor) else Before(m, roles, events[0], StillToCome(m, roles, events[1..], floor))
  }

  /** The enclave affords everything pending, and what is still to be submitted. */
  ghost predicate Safe(m: Machine<RuntimeState>, n: Node, b: Budget) {
    Affords(m, n.state, n.state.enclave, PendingTrustedCalls(n.pool), b)
  }

  lemma InsertedKeepsSafe(m: Machine<RuntimeState>, n: Node, at: nat, op: TrustedOperation, b: Budget)
    requires at <= |n.pool| && KeepsAbove(m, RolesOf(n.state), n.state.enclave, op, b.floor)
    requires Safe(m, n, Budget(SpentBy(m, RolesOf(n.state), n.state.enclave)(op) + b.spent,
      IssuedBy(m, RolesOf(n.state))(op) + b.issued, b.floor))
    ensures Safe(m, n.(pool := n.pool[..at] + [op] + n.pool[at..]), b)
  {
    hide PendingTrustedCalls, KeepsAbove, Sum, Total;
    var front, back := n.pool[..at], n.pool[at..];
    assert n.pool == front + back;
    SumOfInserted(SpentBy(m, RolesOf(n.state), n.state.enclave), front, op, back);
    SumOfInserted(IssuedBy(m, RolesOf(n.state)), front, op, back);
    PendingOfInserted(front, op, back);
    PendingSplit(front, back);
    var a, calls := PendingTrustedCalls(front), PendingTrustedCalls(n.pool);
    var calls' := PendingTrustedCalls(front + [op] + back);
    forall i | 0 <= i < |calls'|
      ensures calls'[i] == op || exists k :: 0 <= k < |calls| && calls'[i] == calls[k]
    {
      if op.Get? || i < |a| {
        assert calls'[i] == calls[i];
      } else if i > |a| {
        assert calls'[i] == calls[i - 1];
      }
    }
  }

  lemma SubmittingKeepsSafe(m: Machine<RuntimeState>, n: Node, e: Event, b: Budget)
    requires Enabled(n, e) && !e.ProduceBlock? && AcceptsOwn(m, n.state.enclave)
    requires Safe(m, n, Before(m, RolesOf(n.state), e, b)) && EventKeepsAbove(m, RolesOf(n.state), e, b.floor)
    ensures Safe(m, Next(m, n, e), b)
  {
    hide Sum, Total, PendingTrustedCallsFor, PendingTrustedCalls, Issued, Spent, DecreesAbove;
    match e
    case SignAndSubmit(call, direct) =>
      var nonce := AdjustedNonce(n);
      if nonce.Some? {
        var op := Signed(call, nonce.value, direct);
        assert IsValid(m, op);
        assert n.pool[..|n.pool|] + [op] + n.pool[|n.pool|..] == n.pool + [op];
        InsertedKeepsSafe(m, n, |n.pool|, op, b);
      }
    case SubmitOther(op, at) => InsertedKeepsSafe(m, n, at, op, b);
  }

  /** A block neither removes the enclave's account nor uses up what the enclave needs afterwards. */
  lemma BlocksKeepSafe(m: Machine<RuntimeState>, n: Node, e: Event, b: Budget)
    requires m.stf == StfCall && NoDuplicates(n.pool)
    requires Enabled(n, e) && e.ProduceBlock? && Safe(m, n, b)
    ensures n.state.enclave !in Removed(m, n.state, Attemptable(Jobs(PendingTrustedCalls(n.pool), e.turns)))
    ensures Safe(m, Next(m, n, e), b)
  {
    hide Sum, KeepsAbove, Total, Fold, Removed, PendingTrustedCalls, NoDuplicates, Next, Attemptable, Skipped, Affords;
    var calls := PendingTrustedCalls(n.pool);
    var jobs, later := Jobs(calls, e.turns), calls[|e.turns|..];
    var attempted, left := Attemptable(jobs), Ops(Skipped(jobs)) + later;
    BlockPool(m, n, e);
    AffordsReordered(m, n.state, n.state.enclave, jobs, later, b);
    AffordingSurvives(m, n.state, attempted, n.state.enclave, left, b);
  }

  /** Who affords the calls of a block and those behind it affords them in the order in which they are executed. */
  lemma AffordsReordered(m: Machine<RuntimeState>, s: RuntimeState, who: AccountId, jobs: seq<Job>, later: Pool,
      b: Budget)
    requires Affords(m, s, who, Ops(jobs) + later, b)
    ensures Affords(m, s, who, Ops(Attemptable(jobs)) + (Ops(Skipped(jobs)) + later), b)
  {
    hide Sum, KeepsAbove, Total, Attemptable, Skipped;
    var spent, issued := SpentBy(m, RolesOf(s), who), IssuedBy(m, RolesOf(s));
    var gone, left := Ops(Attemptable(jobs)), Ops(Skipped(jobs));
    ReorderedSum(spent, jobs, later);
    ReorderedSum(issued, jobs, later);
    var ops, ops' := Ops(jobs) + later, gone + (left + later);
    forall i | 0 <= i < |ops'|
      ensures ops'[i] in ops
    {
      AttemptedOrSkipped(jobs, ops'[i]);
      assert i < |gone| ==> ops'[i] in gone;
      assert |gone| <= i < |gone| + |left| ==> ops'[i] == left[i - |gone|] && ops'[i] in left;
      assert |gone| + |left| <= i ==> ops'[i] == later[i - |gone| - |left|] && ops'[i] in later;
    }
  }

  lemma ReorderedSum(f: TrustedOperation -> nat, jobs: seq<Job>, later: Pool)
    ensures Sum(f, Ops(jobs) + later) == Sum(f, Ops(Attemptable(jobs)) + (Ops(Skipped(jobs)) + later))
  {
    hide Sum, Attemptable, Skipped;
    BlockSum(f, jobs);
    SumSplit(f, Ops(jobs), later);
    SumSplit(f, Ops(Skipped(jobs)), later);
    SumSplit(f, Ops(Attemptable(jobs)), Ops(Skipped(jobs)) + later);
  }

  // ---------- Every run ----------

  predicate Possible(m: Machine<RuntimeState>, n: Node, events: seq<Event>)
    decreases |events|
  {
    events == [] || (Enabled(n, events[0]) && Possible(m, Next(m, n, events[0]), events[1..]))
  }

  function Run(m: Machine<RuntimeState>, n: Node, events: seq<Event>): Node
    requires Possible(m, n, events)
    decreases |events|
  {
    if events == [] then n else Run(m, Next(m, n, events[0]), events[1..])
  }

  /** No block of the run attempts a call of the enclave after skipping one. */
  ghost predicate Orderly(m: Machine<RuntimeState>, n: Node, events: seq<Event>)
    requires Possible(m, n, events)
    decreases |events|
  {
    events == [] || (OrderlyStep(n, events[0]) && Orderly(m, Next(m, n, events[0]), events[1..]))
  }

  ghost predicate OrderlyStep(n: Node, e: Event)
    requires Enabled(n, e)
  {
    e.ProduceBlock? ==> OwnFirst(Jobs(PendingTrustedCalls(n.pool), e.turns), n.state.enclave)
  }

  lemma InStepDistinct(n: Node)
    requires InStep(n)
    ensures NoDuplicates(n.pool)
  {
  }

  lemma StepKeepsStep(m: Machine<RuntimeState>, n: Node, e: Event, b: Budget)
    requires m.stf == StfCall && AcceptsOwn(m, n.state.enclave) && InStep(n) && Enabled(n, e) && OrderlyStep(n, e)
    requires Safe(m, n, Before(m, RolesOf(n.state), e, b)) && EventKeepsAbove(m, RolesOf(n.state), e, b.floor)
    ensures var n' := Next(m, n, e);
      InStep(n') && Safe(m, n', b) && RolesOf(n'.state) == RolesOf(n.state)
  {
    hide InStep, Safe, AcceptsOwn, Removed, OwnFirst, Attemptable;
    match e
    case SignAndSubmit(_, _) =>
      SubmittingKeepsStep(m, n, e);
      SubmittingKeepsSafe(m, n, e, b);
    case SubmitOther(_, _) =>
      OthersKeepStep(m, n, e);
      SubmittingKeepsSafe(m, n, e, b);
    case ProduceBlock(_) =>
      InStepDistinct(n);
      BlocksKeepSafe(m, n, e, b);
      BlocksKeepStep(m, n, e);
      FoldKeepsRoles(m, n.state, Jobs(PendingTrustedCalls(n.pool), e.turns));
  }

  /**
   * In every reachable state the enclave's pending calls carry exactly the nonces from the observed one
   * on, in order. What is asked for can be checked when a call is submitted: the enclave affords its own
   * calls, root does not set its balance below what it needs, and money stays below the 128-bit limit.
   */
  lemma {:induction false} AlwaysInStep(m: Machine<RuntimeState>, n: Node, events: seq<Event>, floor: nat)
    requires m.stf == StfCall && AcceptsOwn(m, n.state.enclave) && Possible(m, n, events) && Orderly(m, n, events)
    requires InStep(n) && Safe(m, n, StillToCome(m, RolesOf(n.state), events, floor))
    requires forall i :: 0 <= i < |events| ==> EventKeepsAbove(m, RolesOf(n.state), events[i], floor)
    ensures var n' := Run(m, n, events);
      InStep(n') && Safe(m, n', Budget(0, 0, floor)) && n'.state.enclave == n.state.enclave
    decreases |events|
  {
    hide InStep, Safe, AcceptsOwn, EventKeepsAbove, Before, Enabled, Next, OrderlyStep;
    if events != [] {
      var b := StillToCome(m, RolesOf(n.state), events[1..], floor);
      FloorStays(m, RolesOf(n.state), events[1..], floor);
      StepKeepsStep(m, n, events[0], b);
      AlwaysInStep(m, Next(m, n, events[0]), events[1..], floor);
    }
  }

  lemma {:induction false} FloorStays(m: Machine<RuntimeState>, roles: Roles, events: seq<Event>, floor: nat)
    ensures StillToCome(m, roles, events, floor).floor == floor
  {
    if events != [] {
      FloorStays(m, roles, events[1..], floor);
    }
  }

  // ---------- Which calls pass ----------

  /** Consecutive nonces both before and after leaving out what was skipped: nothing was skipped in between. */
  lemma {:induction false} ConsecutiveMeansOwnFirst(jobs: seq<Job>, account: AccountId, first: Index)
    requires |NoncesFor(Ops(jobs), account)| <= U32
    requires Consecutive(NoncesFor(Ops(jobs), account), first)
    requires Consecutive(NoncesFor(Ops(Attemptable(jobs)), account), first)
    ensures OwnFirst(jobs, account)
  {
    hide NoncesFor;
    if jobs != [] {
      var n := |jobs| - 1;
      var before, op := jobs[..n], jobs[n].op;
      OpsOfLast(jobs);
      NoncesSplit(Ops(before), [op], account);
      NoncesSplit(Ops(Attemptable(before)), [op], account);
      NoncesOfOne(op, account);
      var all, gone := NoncesFor(Ops(jobs), account), NoncesFor(Ops(Attemptable(jobs)), account);
      var all', gone' := NoncesFor(Ops(before), account), NoncesFor(Ops(Attemptable(before)), account);
      assert forall i :: 0 <= i < |all'| ==> all'[i] == all[i];
      assert forall i :: 0 <= i < |gone'| ==> gone'[i] == gone[i];
      ConsecutiveMeansOwnFirst(before, account, first);
      BlockNonces(before, account);
      if IsFrom(op, account) && jobs[n].mrenclaveKnown {
        assert all[|all'|] == op.signed.nonce == gone[|gone'|];
        if |gone'| < |all'| {
          WrapsDistinct(first + |gone'|, first + |all'|);
        }
        assert forall i :: 0 <= i < n ==> before[i] == jobs[i];
      }
    }
  }

  /**
   * Whatever happened before, the calls of the enclave that the next block attempts all pass the nonce check
   * exactly if none of them is attempted after one that was skipped.
   */
  lemma OwnCallsPassIff(m: Machine<RuntimeState>, n: Node, events: seq<Event>, floor: nat, block: Event)
    requires m.stf == StfCall && AcceptsOwn(m, n.state.enclave) && Possible(m, n, events) && Orderly(m, n, events)
    requires InStep(n) && Safe(m, n, StillToCome(m, RolesOf(n.state), events, floor))
    requires forall i :: 0 <= i < |events| ==> EventKeepsAbove(m, RolesOf(n.state), events[i], floor)
    requires block.ProduceBlock? && Enabled(Run(m, n, events), block)
    ensures var n' := Run(m, n, events);
      var jobs := Jobs(PendingTrustedCalls(n'.pool), block.turns);
      Passed(m, n'.state, Attemptable(jobs), n.state.enclave) == NoncesFor(Ops(Attemptable(jobs)), n.state.enclave)
      <==> OwnFirst(jobs, n.state.enclave)
  {
    hide Safe, AcceptsOwn, EventKeepsAbove, Next, Possible, Orderly, Run, Removed, Passed, NoncesFor, OwnFirst,
      Attemptable, PendingTrustedCalls, Nonce;
    var n' := Run(m, n, events);
    AlwaysInStep(m, n, events, floor);
    BlocksKeepSafe(m, n', block, Budget(0, 0, floor));
    var jobs, enclave := Jobs(PendingTrustedCalls(n'.pool), block.turns), n.state.enclave;
    if OwnFirst(jobs, enclave) {
      BlocksKeepStep(m, n', block);
    } else if Passed(m, n'.state, Attemptable(jobs), enclave) == NoncesFor(Ops(Attemptable(jobs)), enclave) {
      PassedAreConsecutive(m, n'.state, Attemptable(jobs), enclave);
      BlockPoolNonces(m, n', block, enclave);
      ConsecutiveMeansOwnFirst(jobs, enclave, Nonce(n'.state.accounts, enclave));
    }
  }

  // ---------- When the account is removed ----------

  /** Root is 1, the enclave 7 with nonce 5; pending are a call setting the enclave's balance to 0 and its own call. */
  const DECREE := DirectCall(TrustedCallSigned(BalanceSetBalance(1, 7, 0, 0), 0))
  const OWN := IndirectCall(TrustedCallSigned(Noop(7), 5))
  const BEFORE_DECREE := Node(RuntimeState(map[7 := Account(1000, 5)], Some(1), 7, map[], None, map[]), [DECREE, OWN])
  const REMOVING := ProduceBlock([Turn(true, Env(Dispatch(true, {}, {7}), FINE, true, true, true))])

  lemma DecreeRemoves(s: RuntimeState, env: Env)
    requires s == BEFORE_DECREE.state && env == REMOVING.turns[0].env
    ensures Nonce(Execute(s, DECREE.signed, env).state.accounts, 7) == 0
  {
    var accounts := map[7 := Account(1000, 5), 1 := Account(0, 1)];
    assert WithNextNonce(s.accounts, 1) == accounts;
    assert 7 !in ForceSetBalance(accounts, 7, 0, env.first).accounts;
  }

  lemma PoolOfTwo(a: TrustedOperation, b: TrustedOperation)
    requires !a.Get? && !b.Get? && a != b
    ensures PendingTrustedCalls([a, b]) == [a, b] && Remaining([a, b], [a]) == [b]
  {
    assert [a, b][1..] == [b] && [b][1..] == [];
    assert PendingTrustedCalls([b]) == [b] && Remaining([b], [a]) == [b];
  }

  lemma RemovingBlock(m: Machine<RuntimeState>, s: RuntimeState, jobs: seq<Job>)
    requires m.stf == StfCall && m.verify(DECREE.signed) && s == BEFORE_DECREE.state
    requires jobs == Jobs(BEFORE_DECREE.pool, REMOVING.turns)
    ensures var b := Fold(m, s, jobs);
      Reported(b.executed) == [DECREE] && Nonce(b.state.accounts, 7) == 0 && b.state.enclave == 7
  {
    hide Execute, Nonce;
    var env := REMOVING.turns[0].env;
    assert |jobs| == 1 && jobs[..0] == [] && jobs[0] == Job(DECREE, true, env);
    DecreeRemoves(s, env);
    ExecuteKeepsRoles(s, DECREE.signed, env);
  }

  /** The block removes the enclave's account, whose nonce falls from 5 to 0: its pending call is out of step. */
  lemma RemovalBreaksStep(m: Machine<RuntimeState>)
    requires m.stf == StfCall && m.verify(DECREE.signed)
    ensures InStep(BEFORE_DECREE) && Enabled(BEFORE_DECREE, REMOVING)
    ensures var n' := Next(m, BEFORE_DECREE, REMOVING);
      Nonce(n'.state.accounts, 7) == 0 && n'.pool == [OWN] && !InStep(n')
  {
    hide Fold, NoncesFor, Remaining, PendingTrustedCalls;
    PoolOfTwo(DECREE, OWN);
    RemovingBlock(m, BEFORE_DECREE.state, Jobs(BEFORE_DECREE.pool, REMOVING.turns));
    NoncesOfOne(DECREE, 7);
    NoncesOfOne(OWN, 7);
    NoncesOfSeveral([DECREE], OWN, 7);
    assert [DECREE] + [OWN] == BEFORE_DECREE.pool;
    assert NoncesFor([OWN], 7)[0] == 5;
  }

  // ---------- When a call is skipped ----------

  /** The enclave, with nonce 5, has three calls pending; a block skips the first and attempts the second. */
  function Own(nonce: Index): TrustedOperation {
    IndirectCall(TrustedCallSigned(Noop(7), nonce))
  }

  const BEFORE_SKIP := Node(BEFORE_DECREE.state, [Own(5), Own(6), Own(7)])
  const SKIPPING := ProduceBlock([Turn(false, REMOVING.turns[0].env), Turn(true, REMOVING.turns[0].env)])

  lemma PoolOfThree(a: TrustedOperation, b: TrustedOperation, c: TrustedOperation)
    requires !a.Get? && !b.Get? && !c.Get? && a != b && b != c
    ensures PendingTrustedCalls([a, b, c]) == [a, b, c] && Remaining([a, b, c], [b]) == [a, c]
  {
    PoolOfTwo(b, c);
    assert [a, b, c][1..] == [b, c];
  }

  lemma NoncesOfSeveral(ops: Pool, op: TrustedOperation, account: AccountId)
    requires IsFrom(op, account)
    ensures NoncesFor(ops + [op], account) == NoncesFor(ops, account) + [op.signed.nonce]
  {
    NoncesSplit(ops, [op], account);
    NoncesOfOne(op, account);
  }

  lemma SkippingBlock(m: Machine<RuntimeState>, s: RuntimeState, jobs: seq<Job>)
    requires m.stf == StfCall && m.verify(Own(6).signed) && s == BEFORE_SKIP.state
    requires jobs == Jobs(BEFORE_SKIP.pool, SKIPPING.turns)
    ensures Fold(m, s, jobs) == Batch(s, [ExecutedOperation(Failure, Own(6))])
  {
    assert |jobs| == 2 && jobs[..1] == [jobs[0]] && [jobs[0]][..0] == [];
    assert jobs[0] == Job(Own(5), false, SKIPPING.turns[0].env) && jobs[1] == Job(Own(6), true, SKIPPING.turns[1].env);
    assert Fold(m, s, [jobs[0]]) == Batch(s, []);
    assert Execute(s, Own(6).signed, jobs[1].env) == Failed(s, InvalidNonce(6, 5));
    assert [] + [ExecutedOperation(Failure, Own(6))] == [ExecutedOperation(Failure, Own(6))];
  }

  /** The second call fails the check and is gone, the first and the third stay: there is a gap for good. */
  lemma SkippingBreaksStep(m: Machine<RuntimeState>)
    requires m.stf == StfCall && m.verify(Own(6).signed)
    ensures InStep(BEFORE_SKIP) && Enabled(BEFORE_SKIP, SKIPPING)
    ensures var n' := Next(m, BEFORE_SKIP, SKIPPING);
      n' == Node(BEFORE_SKIP.state, [Own(5), Own(7)]) && !InStep(n')
  {
    hide Fold, NoncesFor, Remaining, PendingTrustedCalls;
    PoolOfThree(Own(5), Own(6), Own(7));
    SkippingBlock(m, BEFORE_SKIP.state, Jobs(BEFORE_SKIP.pool, SKIPPING.turns));
    assert Reported([ExecutedOperation(Failure, Own(6))]) == [Own(6)];
    NoncesOfOne(Own(5), 7);
    NoncesOfSeveral([Own(5)], Own(6), 7);
    NoncesOfSeveral([Own(5), Own(6)], Own(7), 7);
    NoncesOfSeveral([Own(5)], Own(7), 7);
    assert [Own(5)] + [Own(6)] == [Own(5), Own(6)] && [Own(5), Own(6)] + [Own(7)] == BEFORE_SKIP.pool;
    assert [Own(5)] + [Own(7)] == [Own(5), Own(7)];
    assert NoncesFor([Own(5), Own(7)], 7)[1] == 7;
  }
}
