/** Executing a batch of trusted operations on a copy of the state, and what is reported about it. */
module BatchExecution {
  import opened Prelude
  import opened Externalities
  import opened TrustedCalls
  import StateFiles
  import StateHandler

  datatype TrustedOperation =
    | IndirectCall(signed: TrustedCallSigned)
    | DirectCall(signed: TrustedCallSigned)
    | Get(getter: nat)

  function ToCall(op: TrustedOperation): Option<TrustedCallSigned> {
    if op.Get? then None else Some(op.signed)
  }

  datatype ExecutionStatus = Success(hash: H256, callbacks: seq<ParentchainCall>) | Failure
  datatype ExecutedOperation = ExecutedOperation(status: ExecutionStatus, op: TrustedOperation)

  /** What a state transition function says about one call; an error may leave partial effects. */
  datatype StfOutcome<S> = StfOutcome(ok: bool, state: S, calls: seq<ParentchainCall>)

  /** The parts the executor is built from: any state transition function, hash and signature check. */
  datatype Machine<!S> = Machine(stf: (S, TrustedCallSigned, Env) -> StfOutcome<S>,
      hashOf: TrustedOperation -> H256, verify: TrustedCallSigned -> bool)

  /** An operation to execute, and what the surroundings will decide when its turn comes. */
  datatype Job = Job(op: TrustedOperation, mrenclaveKnown: bool, env: Env)

  /** Either no attempt could be made, or the state afterwards with the verdict on the operation. */
  datatype Attempt<S> = Fatal | Attempted(state: S, executed: ExecutedOperation)

  function ExecuteOnStf<S>(m: Machine<S>, s: S, job: Job): Attempt<S> {
    if !job.mrenclaveKnown then Fatal
    else match ToCall(job.op)
      case None => Attempted(s, ExecutedOperation(Failure, job.op))
      case Some(c) =>
        if !m.verify(c) then Attempted(s, ExecutedOperation(Failure, job.op))
        else
          var r := m.stf(s, c, job.env);
          Attempted(r.state, ExecutedOperation(if r.ok then Success(m.hashOf(job.op), r.calls) else Failure, job.op))
  }

  datatype Batch<S> = Batch(state: S, executed: seq<ExecutedOperation>)

  function Continue<S>(b: Batch<S>, a: Attempt<S>): Batch<S> {
    if a.Fatal? then b else Batch(a.state, b.executed + [a.executed])
  }

  /** All jobs in order, each on the state the one before it left; jobs that cannot be attempted are skipped. */
  function Fold<S>(m: Machine<S>, s: S, jobs: seq<Job>): Batch<S> {
    if jobs == [] then Batch(s, [])
    else
      var b := Fold(m, s, jobs[..|jobs| - 1]);
      Continue(b, ExecuteOnStf(m, b.state, jobs[|jobs| - 1]))
  }

  // ---------- Reports ----------

  function CallbacksOf(e: ExecutedOperation): seq<ParentchainCall> {
    if e.status.Success? then e.status.callbacks else []
  }

  function Callbacks(executed: seq<ExecutedOperation>): seq<ParentchainCall> {
    if executed == [] then [] else CallbacksOf(executed[0]) + Callbacks(executed[1..])
  }

  function OperationHashes(executed: seq<ExecutedOperation>): seq<H256> {
    if executed == [] then []
    else (if executed[0].status.Success? then [executed[0].status.hash] else []) + OperationHashes(executed[1..])
  }

  function FailedOperations(executed: seq<ExecutedOperation>): seq<ExecutedOperation> {
    if executed == [] then []
    else (if executed[0].status.Success? then [] else [executed[0]]) + FailedOperations(executed[1..])
  }

  // ---------- What a batch is ----------

  /** Executing a batch in two parts is executing it in one. */
  lemma {:induction false} FoldComposes<S>(m: Machine<S>, s: S, first: seq<Job>, second: seq<Job>)
    ensures var a := Fold(m, s, first);
      var b := Fold(m, a.state, second);
      Fold(m, s, first + second) == Batch(b.state, a.executed + b.executed)
    decreases |second|
  {
    var a := Fold(m, s, first);
    if second == [] {
      assert first + second == first;
      assert a.executed + [] == a.executed;
    } else {
      var n := |second| - 1;
      FoldComposes(m, s, first, second[..n]);
      var all := first + second;
      assert all[..|all| - 1] == first + second[..n];
      var b := Fold(m, a.state, second[..n]);
      var last := ExecuteOnStf(m, b.state, second[n]);
      if last.Attempted? {
        assert a.executed + b.executed + [last.executed] == a.executed + (b.executed + [last.executed]);
      }
    }
  }

  function Attemptable(jobs: seq<Job>): seq<Job> {
    if jobs == [] then []
    else
      var rest := Attemptable(jobs[..|jobs| - 1]);
      if jobs[|jobs| - 1].mrenclaveKnown then rest + [jobs[|jobs| - 1]] else rest
  }

  /** A job that cannot be attempted leaves no trace, and every other job is reported once, in order. */
  lemma {:induction false} FoldSkipsFatal<S>(m: Machine<S>, s: S, jobs: seq<Job>)
    ensures Fold(m, s, jobs) == Fold(m, s, Attemptable(jobs))
    ensures |Fold(m, s, jobs).executed| == |Attemptable(jobs)|
    ensures forall i :: 0 <= i < |Attemptable(jobs)| ==> Fold(m, s, jobs).executed[i].op == Attemptable(jobs)[i].op
  {
    if jobs != [] {
      var n := |jobs| - 1;
      FoldSkipsFatal(m, s, jobs[..n]);
      var kept := Attemptable(jobs);
      if jobs[n].mrenclaveKnown {
        assert kept[..|kept| - 1] == Attemptable(jobs[..n]);
      }
    }
  }

  /** The operation reaches the state transition function: it is a call and its signature is good. */
  predicate Reaches<S>(m: Machine<S>, op: TrustedOperation) {
    !op.Get? && m.verify(op.signed)
  }

  /**
   * The verdict on one job: it is attempted exactly if the measurement is known; it is a success exactly if it
   * is a call with a good signature that the state transition function accepts, and then carries the hash of
   * the operation and the calls asked for; anything that does not get that far leaves the state alone.
   */
  ghost predicate Judged<S>(m: Machine<S>, s: S, job: Job, s': S, e: ExecutedOperation) {
    && e.op == job.op
    && (e.status.Success? <==> Reaches(m, job.op) && m.stf(s, job.op.signed, job.env).ok)
    && (e.status.Success? ==>
          e.status.hash == m.hashOf(job.op) && e.status.callbacks == m.stf(s, job.op.signed, job.env).calls)
    && s' == if Reaches(m, job.op) then m.stf(s, job.op.signed, job.env).state else s
  }

  lemma JobIsJudged<S>(m: Machine<S>, s: S, job: Job)
    ensures var a := ExecuteOnStf(m, s, job);
      (a.Attempted? <==> job.mrenclaveKnown) && (a.Attempted? ==> Judged(m, s, job, a.state, a.executed))
  {
  }

  /** Every job of a batch that could be attempted is judged on the state the jobs before it left. */
  lemma BatchIsJudged<S>(m: Machine<S>, s: S, jobs: seq<Job>, i: nat)
    requires i < |Attemptable(jobs)|
    ensures var attempted := Attemptable(jobs);
      && |Fold(m, s, jobs).executed| == |attempted|
      && Judged(m, Fold(m, s, attempted[..i]).state, attempted[i], Fold(m, s, attempted[..i + 1]).state,
           Fold(m, s, jobs).executed[i])
  {
    hide Judged, Fold, Attemptable;
    FoldSkipsFatal(m, s, jobs);
    AttemptableAreKnown(jobs);
    KnownAreJudged(m, s, Attemptable(jobs), i);
  }

  lemma {:induction false} KnownAreJudged<S>(m: Machine<S>, s: S, jobs: seq<Job>, i: nat)
    requires i < |jobs| && forall k :: 0 <= k < |jobs| ==> jobs[k].mrenclaveKnown
    ensures |Fold(m, s, jobs).executed| == |jobs|
    ensures Judged(m, Fold(m, s, jobs[..i]).state, jobs[i], Fold(m, s, jobs[..i + 1]).state,
      Fold(m, s, jobs).executed[i])
    decreases |jobs|
  {
    hide Judged, ExecuteOnStf;
    var n := |jobs| - 1;
    JobIsJudged(m, Fold(m, s, jobs[..n]).state, jobs[n]);
    if n > 0 {
      KnownAreJudged(m, s, jobs[..n], if i < n then i else 0);
    }
    if i < n {
      assert jobs[..n][..i] == jobs[..i] && jobs[..n][..i + 1] == jobs[..i + 1];
    } else {
      assert jobs[..n + 1] == jobs;
    }
  }

  lemma {:induction false} AttemptableAreKnown(jobs: seq<Job>)
    ensures forall i :: 0 <= i < |Attemptable(jobs)| ==> Attemptable(jobs)[i].mrenclaveKnown
  {
    if jobs != [] {
      AttemptableAreKnown(jobs[..|jobs| - 1]);
    }
  }

  lemma {:induction false} CallbacksSplit(a: seq<ExecutedOperation>, b: seq<ExecutedOperation>)
    ensures Callbacks(a + b) == Callbacks(a) + Callbacks(b)
  {
    if a == [] {
      assert a + b == b;
    } else {
      assert a + b == [a[0]] + (a[1..] + b) && (a + b)[1..] == a[1..] + b;
      CallbacksSplit(a[1..], b);
      var head := CallbacksOf(a[0]);
      assert head + Callbacks(a[1..]) + Callbacks(b) == head + (Callbacks(a[1..]) + Callbacks(b));
    }
  }

  lemma {:induction false} HashesSplit(a: seq<ExecutedOperation>, b: seq<ExecutedOperation>)
    ensures OperationHashes(a + b) == OperationHashes(a) + OperationHashes(b)
  {
    if a == [] {
      assert a + b == b;
    } else {
      assert a + b == [a[0]] + (a[1..] + b) && (a + b)[1..] == a[1..] + b;
      HashesSplit(a[1..], b);
      var head := if a[0].status.Success? then [a[0].status.hash] else [];
      assert head + OperationHashes(a[1..]) + OperationHashes(b)
        == head + (OperationHashes(a[1..]) + OperationHashes(b));
    }
  }

  lemma {:induction false} FailuresSplit(a: seq<ExecutedOperation>, b: seq<ExecutedOperation>)
    ensures FailedOperations(a + b) == FailedOperations(a) + FailedOperations(b)
  {
    if a == [] {
      assert a + b == b;
    } else {
      assert a + b == [a[0]] + (a[1..] + b) && (a + b)[1..] == a[1..] + b;
      FailuresSplit(a[1..], b);
      var head := if a[0].status.Success? then [] else [a[0]];
      assert head + FailedOperations(a[1..]) + FailedOperations(b)
        == head + (FailedOperations(a[1..]) + FailedOperations(b));
    }
  }

  lemma {:induction false} ReportsCount(executed: seq<ExecutedOperation>)
    ensures |OperationHashes(executed)| + |FailedOperations(executed)| == |executed|
  {
    if executed != [] {
      ReportsCount(executed[1..]);
    }
  }

  /**
   * The hashes of the successes and the failed operations partition what was executed: operation `i`
   * stands in exactly one of them, at the place given by the operations of its kind before it. The
   * callbacks are those of the successes, in order.
   */
  lemma ReportsPartition(executed: seq<ExecutedOperation>, i: nat)
    requires i < |executed|
    ensures var before := executed[..i];
      var h, f := |OperationHashes(before)|, |FailedOperations(before)|;
      && h + f == i && |OperationHashes(executed)| + |FailedOperations(executed)| == |executed|
      && (if executed[i].status.Success? then h < |OperationHashes(executed)|
        && OperationHashes(executed)[h] == executed[i].status.hash
          else f < |FailedOperations(executed)| && FailedOperations(executed)[f] == executed[i])
      && Callbacks(executed) == Callbacks(before) + CallbacksOf(executed[i]) + Callbacks(executed[i + 1..])
  {
    var before, rest := executed[..i], executed[i..];
    assert executed == before + rest && rest[0] == executed[i] && rest[1..] == executed[i + 1..];
    CallbacksSplit(before, rest);
    HashesSplit(before, rest);
    FailuresSplit(before, rest);
    ReportsCount(before);
    ReportsCount(executed);
  }

  // ---------- The executor ----------

  /** How many of the first `n` jobs start before the time is up. */
  function InTime(late: nat -> bool, n: nat): (r: nat)
    ensures r <= n && (forall i :: 0 <= i < r ==> !late(i)) && (r < n ==> late(r))
  {
    if n == 0 then 0
    else
      var r := InTime(late, n - 1);
      if r == n - 1 && !late(r) then n else r
  }

  datatype BatchExecutionResult = BatchExecutionResult(hashBefore: H256, executed: seq<ExecutedOperation>,
      stateAfter: SgxExternalities)

  class StfExecutor {
    const machine: Machine<SgxExternalities>
    const handler: StateHandler.StateHandler

    constructor (machine: Machine<SgxExternalities>, handler: StateHandler.StateHandler)
      ensures this.machine == machine && this.handler == handler
    {
      this.machine := machine;
      this.handler := handler;
    }

    method ExecuteTrustedCallOnStf(state: SgxExternalities, job: Job) returns (r: Attempt<SgxExternalities>)
      ensures r == ExecuteOnStf(machine, state, job)
      ensures r.Attempted? <==> job.mrenclaveKnown
      ensures r.Attempted? ==> Judged(machine, state, job, r.state, r.executed)
    {
      if !job.mrenclaveKnown { return Fatal; }
      if job.op.Get? { return Attempted(state, ExecutedOperation(Failure, job.op)); }
      if !machine.verify(job.op.signed) { return Attempted(state, ExecutedOperation(Failure, job.op)); }
      var outcome := machine.stf(state, job.op.signed, job.env);
      if !outcome.ok { return Attempted(outcome.state, ExecutedOperation(Failure, job.op)); }
      r := Attempted(outcome.state, ExecutedOperation(Success(machine.hashOf(job.op), outcome.calls), job.op));
    }

    /** Works on a copy of the stored state, until the jobs or the time run out; the store is only read. */
    method ProposeStateUpdate(jobs: seq<Job>, shard: ShardIdentifier, late: nat -> bool,
        prepare: SgxExternalities -> SgxExternalities) returns (r: Result<BatchExecutionResult, StateFiles.Error>)
      requires !handler.locked
      ensures r.Ok? <==> shard in handler.states
      ensures r.Err? ==> r.error == StateFiles.InvalidShard(shard)
      ensures r.Ok? ==> var (state, hash) := handler.states[shard];
        var b := Fold(machine, prepare(state), jobs[..InTime(late, |jobs|)]);
        r.value == BatchExecutionResult(hash, b.executed, b.state)
    {
      var loaded := handler.LoadCloned(shard);
      if loaded.Err? { return Err(loaded.error); }
      var (stored, hash) := loaded.value;
      var state := prepare(stored);
      var executed := [];
      var n := 0;
      while n < |jobs|
        invariant n <= |jobs| && (forall i :: 0 <= i < n ==> !late(i))
        invariant Batch(state, executed) == Fold(machine, prepare(stored), jobs[..n])
      {
        if late(n) { break; }
        var attempt := ExecuteTrustedCallOnStf(state, jobs[n]);
        if attempt.Attempted? {
          state := attempt.state;
          executed := executed + [attempt.executed];
        }
        assert jobs[..n + 1][..n] == jobs[..n];
        n := n + 1;
      }
      assert n == InTime(late, |jobs|);
      r := Ok(BatchExecutionResult(hash, executed, state));
    }
  }
}
