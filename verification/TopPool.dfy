/** The pool of trusted operations of a shard: what is pending, what a block removes, and what it leaves. */
module TopPool {
  import opened Prelude
  import opened Ledger
  import opened BatchExecution
  import opened AccountSurvival

  type Pool = seq<TrustedOperation>

  // ---------- The pool's author ----------

  function PendingTrustedCalls(pool: Pool): Pool {
    if pool == [] then []
    else (if pool[0].Get? then [] else [pool[0]]) + PendingTrustedCalls(pool[1..])
  }

  predicate IsFrom(op: TrustedOperation, account: AccountId) {
    !op.Get? && op.signed.call.sender == account
  }

  function PendingTrustedCallsFor(pool: Pool, account: AccountId): Pool {
    if pool == [] then []
    else (if IsFrom(pool[0], account) then [pool[0]] else []) + PendingTrustedCallsFor(pool[1..], account)
  }

  /** The pool after the given operations were removed. */
  function Remaining(pool: Pool, ops: seq<TrustedOperation>): Pool {
    if pool == [] then []
    else (if pool[0] in ops then [] else [pool[0]]) + Remaining(pool[1..], ops)
  }

  /** Of operations removed one after the other, those that are not there any more when their turn comes. */
  function Missing(pool: Pool, ops: seq<TrustedOperation>): seq<TrustedOperation> {
    if ops == [] then []
    else
      var n := |ops| - 1;
      Missing(pool, ops[..n]) + if ops[n] in pool && ops[n] !in ops[..n] then [] else [ops[n]]
  }

  class Author {
    var pool: Pool

    constructor ()
      ensures pool == []
    {
      pool := [];
    }

    /** Removes what it finds; operations that are not in the pool are reported and do not stop the rest. */
    method RemoveCallsFromPool(executed: seq<TrustedOperation>) returns (failed: seq<TrustedOperation>)
      modifies this
      ensures pool == Remaining(old(pool), executed)
      ensures failed == Missing(old(pool), executed)
      ensures forall op :: op in failed ==> op in executed && op !in pool
      ensures NoDuplicates(executed) ==> forall op :: op in failed <==> op in executed && op !in old(pool)
    {
      hide Remaining;
      failed := [];
      NothingRemoved(pool, []);
      for n := 0 to |executed|
        invariant pool == Remaining(old(pool), executed[..n])
        invariant failed == Missing(old(pool), executed[..n])
      {
        RemainingIn(old(pool), executed[..n], executed[n]);
        assert executed[..n + 1] == executed[..n] + [executed[n]] && executed[..n + 1][..n] == executed[..n];
        RemoveOneMore(old(pool), executed[..n], executed[n]);
        if executed[n] in pool {
          pool := Remaining(pool, [executed[n]]);
        } else {
          NothingRemoved(pool, [executed[n]]);
          failed := failed + [executed[n]];
        }
      }
      assert executed[..|executed|] == executed;
      MissingAre(old(pool), executed);
    }
  }

  lemma {:induction false} MissingAre(pool: Pool, ops: seq<TrustedOperation>)
    ensures forall op :: op in Missing(pool, ops) ==> op in ops && op !in Remaining(pool, ops)
    ensures NoDuplicates(ops) ==> forall op :: op in Missing(pool, ops) <==> op in ops && op !in pool
    ensures forall i :: 0 <= i <= |ops| ==> Missing(pool, ops[..i]) <= Missing(pool, ops)
  {
    hide Remaining, Missing;
    forall i | 0 <= i <= |ops|
      ensures Missing(pool, ops[..i]) <= Missing(pool, ops)
    {
      MissingInOrder(pool, ops, i);
    }
    forall op
      ensures op in Missing(pool, ops) ==> op in ops && op !in Remaining(pool, ops)
    {
      RemainingIn(pool, ops, op);
      MissingIn(pool, ops, op);
    }
    if NoDuplicates(ops) {
      forall op
        ensures op in Missing(pool, ops) <==> op in ops && op !in pool
      {
        MissingIn(pool, ops, op);
      }
    }
  }

  /** What is missing is reported in the order in which it was to be removed. */
  lemma {:induction false} MissingInOrder(pool: Pool, ops: seq<TrustedOperation>, i: nat)
    requires i <= |ops|
    ensures Missing(pool, ops[..i]) <= Missing(pool, ops)
    decreases |ops|
  {
    if i < |ops| {
      var n := |ops| - 1;
      MissingInOrder(pool, ops[..n], i);
      assert ops[..n][..i] == ops[..i];
    } else {
      assert ops[..i] == ops;
    }
  }

  lemma {:induction false} MissingIn(pool: Pool, ops: seq<TrustedOperation>, op: TrustedOperation)
    ensures op in Missing(pool, ops) ==> op in ops
    ensures op in ops && op !in pool ==> op in Missing(pool, ops)
    ensures NoDuplicates(ops) && op in Missing(pool, ops) ==> op !in pool
  {
    if ops != [] {
      var n := |ops| - 1;
      MissingIn(pool, ops[..n], op);
      assert ops == ops[..n] + [ops[n]];
      assert NoDuplicates(ops) ==> ops[n] !in ops[..n];
    }
  }

  lemma {:induction false} NothingRemoved(pool: Pool, ops: seq<TrustedOperation>)
    requires forall i :: 0 <= i < |pool| ==> pool[i] !in ops
    ensures Remaining(pool, ops) == pool
  {
    if pool != [] { NothingRemoved(pool[1..], ops); }
  }

  lemma {:induction false} RemainingIn(pool: Pool, ops: seq<TrustedOperation>, op: TrustedOperation)
    ensures op in Remaining(pool, ops) <==> op in pool && op !in ops
  {
    if pool != [] { RemainingIn(pool[1..], ops, op); }
  }

  lemma {:induction false} RemoveOneMore(pool: Pool, ops: seq<TrustedOperation>, op: TrustedOperation)
    ensures Remaining(Remaining(pool, ops), [op]) == Remaining(pool, ops + [op])
  {
    if pool != [] {
      RemoveOneMore(pool[1..], ops, op);
      var rest := Remaining(pool[1..], ops);
      assert pool[0] in ops + [op] <==> pool[0] in ops || pool[0] == op;
      if pool[0] in ops {
        assert Remaining(pool, ops) == rest;
      } else {
        assert ([pool[0]] + rest)[1..] == rest;
      }
    }
  }

  /** The nonces of an account's calls, in the order of the pool. */
  function NoncesFor(ops: Pool, account: AccountId): seq<Index> {
    if ops == [] then []
    else (if IsFrom(ops[0], account) then [ops[0].signed.nonce] else []) + NoncesFor(ops[1..], account)
  }

  // ---------- Pool facts ----------

  lemma {:induction false} NoncesSplit(a: Pool, b: Pool, account: AccountId)
    ensures NoncesFor(a + b, account) == NoncesFor(a, account) + NoncesFor(b, account)
  {
    if a == [] {
      assert a + b == b;
    } else {
      assert (a + b)[1..] == a[1..] + b;
      NoncesSplit(a[1..], b, account);
      var head := if IsFrom(a[0], account) then [a[0].signed.nonce] else [];
      assert head + NoncesFor(a[1..], account) + NoncesFor(b, account)
        == head + (NoncesFor(a[1..], account) + NoncesFor(b, account));
    }
  }

  lemma {:induction false} NoncesOfPending(pool: Pool, account: AccountId)
    ensures NoncesFor(PendingTrustedCalls(pool), account) == NoncesFor(pool, account)
    ensures |PendingTrustedCallsFor(pool, account)| == |NoncesFor(pool, account)|
  {
    if pool != [] {
      NoncesOfPending(pool[1..], account);
      if !pool[0].Get? {
        assert PendingTrustedCalls(pool)[1..] == PendingTrustedCalls(pool[1..]);
      } else {
        assert PendingTrustedCalls(pool) == PendingTrustedCalls(pool[1..]);
      }
    }
  }

  lemma {:induction false} PendingForSplit(a: Pool, b: Pool, account: AccountId)
    ensures PendingTrustedCallsFor(a + b, account)
      == PendingTrustedCallsFor(a, account) + PendingTrustedCallsFor(b, account)
  {
    if a == [] {
      assert a + b == b;
    } else {
      assert (a + b)[1..] == a[1..] + b;
      PendingForSplit(a[1..], b, account);
      var head := if IsFrom(a[0], account) then [a[0]] else [];
      var x, y := PendingTrustedCallsFor(a[1..], account), PendingTrustedCallsFor(b, account);
      assert head + x + y == head + (x + y);
    }
  }

  /**
   * What is pending, in all and of one account, is what the pool holds of it and nothing else, in the order of
   * the pool: operation `i` stands behind the pending ones before it.
   */
  lemma PendingInOrder(pool: Pool, i: nat, account: AccountId)
    requires i < |pool|
    ensures var all, before, upTo := PendingTrustedCalls(pool), PendingTrustedCalls(pool[..i]),
        PendingTrustedCalls(pool[..i + 1]);
      && before <= upTo <= all && upTo == before + (if pool[i].Get? then [] else [pool[i]])
    ensures var all, before, upTo := PendingTrustedCallsFor(pool, account), PendingTrustedCallsFor(pool[..i], account),
        PendingTrustedCallsFor(pool[..i + 1], account);
      && before <= upTo <= all && upTo == before + (if IsFrom(pool[i], account) then [pool[i]] else [])
  {
    hide PendingTrustedCalls, PendingTrustedCallsFor;
    var before, upTo, rest := pool[..i], pool[..i + 1], pool[i + 1..];
    assert upTo == before + [pool[i]] && pool == upTo + rest;
    PendingSplit(upTo, rest);
    PendingSplit(before, [pool[i]]);
    PendingForSplit(upTo, rest, account);
    PendingForSplit(before, [pool[i]], account);
    PendingOfOne(pool[i], account);
  }

  lemma PendingOfOne(op: TrustedOperation, account: AccountId)
    ensures PendingTrustedCalls([op]) == if op.Get? then [] else [op]
    ensures PendingTrustedCallsFor([op], account) == if IsFrom(op, account) then [op] else []
  {
  }

  lemma {:induction false} PooledNonce(pool: Pool, account: AccountId, op: TrustedOperation)
    requires op in pool && IsFrom(op, account)
    ensures op.signed.nonce in NoncesFor(pool, account)
  {
    if pool[0] != op {
      PooledNonce(pool[1..], account, op);
    }
  }

  lemma {:induction false} PendingInPool(pool: Pool, op: TrustedOperation)
    ensures op in PendingTrustedCalls(pool) <==> op in pool && !op.Get?
  {
    if pool != [] { PendingInPool(pool[1..], op); }
  }

  lemma {:induction false} RemainingDistinct(pool: Pool, ops: seq<TrustedOperation>)
    requires NoDuplicates(pool)
    ensures NoDuplicates(Remaining(pool, ops))
  {
    if pool != [] {
      RemainingDistinct(pool[1..], ops);
      assert pool[0] !in pool[1..];
      RemainingIn(pool[1..], ops, pool[0]);
    }
  }

  lemma {:induction false} RemainingSplit(a: Pool, b: Pool, ops: seq<TrustedOperation>)
    ensures Remaining(a + b, ops) == Remaining(a, ops) + Remaining(b, ops)
  {
    if a == [] {
      assert a + b == b;
    } else {
      assert (a + b)[1..] == a[1..] + b;
      RemainingSplit(a[1..], b, ops);
    }
  }

  lemma {:induction false} PendingSplit(a: Pool, b: Pool)
    ensures PendingTrustedCalls(a + b) == PendingTrustedCalls(a) + PendingTrustedCalls(b)
  {
    if a == [] {
      assert a + b == b;
    } else {
      assert (a + b)[1..] == a[1..] + b;
      PendingSplit(a[1..], b);
    }
  }

  /** Removing operations and looking at the pending calls commute. */
  lemma {:induction false} PendingOfRemaining(pool: Pool, ops: seq<TrustedOperation>)
    ensures PendingTrustedCalls(Remaining(pool, ops)) == Remaining(PendingTrustedCalls(pool), ops)
  {
    if pool != [] {
      PendingOfRemaining(pool[1..], ops);
      var rest := Remaining(pool[1..], ops);
      assert ([pool[0]] + rest)[1..] == rest;
      var calls := PendingTrustedCalls(pool[1..]);
      assert ([pool[0]] + calls)[1..] == calls;
      assert [] + rest == rest && [] + calls == calls;
    }
  }

  lemma {:induction false} PendingDistinct(pool: Pool)
    requires NoDuplicates(pool)
    ensures NoDuplicates(PendingTrustedCalls(pool))
  {
    if pool != [] {
      PendingDistinct(pool[1..]);
      PendingInPool(pool[1..], pool[0]);
      assert pool[0] !in pool[1..];
    }
  }

  lemma NoncesOfOne(op: TrustedOperation, account: AccountId)
    ensures NoncesFor([op], account) == if IsFrom(op, account) then [op.signed.nonce] else []
  {
  }

  // ---------- The calls of a block ----------

  /** The jobs of a block that could not be attempted. */
  function Skipped(jobs: seq<Job>): seq<Job> {
    if jobs == [] then []
    else
      var rest := Skipped(jobs[..|jobs| - 1]);
      if jobs[|jobs| - 1].mrenclaveKnown then rest else rest + [jobs[|jobs| - 1]]
  }

  /** No call of the account is attempted after one that was skipped. */
  ghost predicate OwnFirst(jobs: seq<Job>, account: AccountId) {
    forall i, j :: 0 <= i < j < |jobs| && IsFrom(jobs[i].op, account) && IsFrom(jobs[j].op, account) ==>
      jobs[j].mrenclaveKnown ==> jobs[i].mrenclaveKnown
  }

  lemma {:induction false} AttemptedOrSkipped(jobs: seq<Job>, op: TrustedOperation)
    ensures op in Ops(jobs) <==> op in Ops(Attemptable(jobs)) || op in Ops(Skipped(jobs))
  {
    if jobs != [] {
      var n := |jobs| - 1;
      AttemptedOrSkipped(jobs[..n], op);
      OpsOfLast(jobs);
    }
  }

  lemma OpsOfLast(jobs: seq<Job>)
    requires jobs != []
    ensures var n := |jobs| - 1;
      && Ops(jobs) == Ops(jobs[..n]) + [jobs[n].op]
      && Ops(Attemptable(jobs)) == Ops(Attemptable(jobs[..n])) + (if jobs[n].mrenclaveKnown then [jobs[n].op] else [])
      && Ops(Skipped(jobs)) == Ops(Skipped(jobs[..n])) + (if jobs[n].mrenclaveKnown then [] else [jobs[n].op])
  {
  }

  /** What a block leaves of its calls are the skipped ones. */
  lemma {:induction false} SkippedRemain(jobs: seq<Job>)
    requires NoDuplicates(Ops(jobs))
    ensures Remaining(Ops(jobs), Ops(Attemptable(jobs))) == Ops(Skipped(jobs))
  {
    if jobs != [] {
      var n := |jobs| - 1;
      var before, op := Ops(jobs[..n]), jobs[n].op;
      var gone, gone' := Ops(Attemptable(jobs[..n])), Ops(Attemptable(jobs));
      OpsOfLast(jobs);
      assert forall i :: 0 <= i < n ==> Ops(jobs)[i] == before[i] && before[i] != Ops(jobs)[n];
      SkippedRemain(jobs[..n]);
      AttemptedOrSkipped(jobs[..n], op);
      RemainingSplit(before, [op], gone');
      if jobs[n].mrenclaveKnown {
        RemoveOneMore(before, gone, op);
        RemainingIn(before, gone, op);
        NothingRemoved(Remaining(before, gone), [op]);
      }
    }
  }

  /** ... and behind them, the calls that the block did not get to. */
  lemma BlockRemains(jobs: seq<Job>, later: Pool)
    requires NoDuplicates(Ops(jobs) + later)
    ensures Remaining(Ops(jobs) + later, Ops(Attemptable(jobs))) == Ops(Skipped(jobs)) + later
  {
    hide Attemptable, Skipped, Remaining;
    var calls, gone := Ops(jobs) + later, Ops(Attemptable(jobs));
    RemainingSplit(Ops(jobs), later, gone);
    assert forall i :: 0 <= i < |jobs| ==> Ops(jobs)[i] == calls[i];
    SkippedRemain(jobs);
    forall i | 0 <= i < |later|
      ensures later[i] !in gone
    {
      assert later[i] == calls[|jobs| + i];
      assert later[i] !in Ops(jobs);
      AttemptedOrSkipped(jobs, later[i]);
    }
    NothingRemoved(later, gone);
  }

  lemma {:induction false} BlockSum(f: TrustedOperation -> nat, jobs: seq<Job>)
    ensures Sum(f, Ops(jobs)) == Sum(f, Ops(Attemptable(jobs))) + Sum(f, Ops(Skipped(jobs)))
  {
    if jobs != [] {
      BlockSum(f, jobs[..|jobs| - 1]);
      OpsOfLast(jobs);
    }
  }

  /** If no own call is attempted after a skipped one, the nonces of the attempted ones come first. */
  lemma {:induction false} BlockNonces(jobs: seq<Job>, account: AccountId)
    ensures var all, gone, left := NoncesFor(Ops(jobs), account), NoncesFor(Ops(Attemptable(jobs)), account),
      NoncesFor(Ops(Skipped(jobs)), account);
      |all| == |gone| + |left| && (OwnFirst(jobs, account) ==> all == gone + left)
    ensures (forall i :: 0 <= i < |jobs| && IsFrom(jobs[i].op, account) ==> jobs[i].mrenclaveKnown)
      <==> NoncesFor(Ops(Skipped(jobs)), account) == []
  {
    hide NoncesFor;
    if jobs == [] {
      NoNonces(account);
    } else {
      var n := |jobs| - 1;
      var op := [jobs[n].op];
      BlockNonces(jobs[..n], account);
      OpsOfLast(jobs);
      NoncesSplit(Ops(jobs[..n]), op, account);
      NoncesSplit(Ops(Attemptable(jobs[..n])), op, account);
      NoncesSplit(Ops(Skipped(jobs[..n])), op, account);
      NoncesOfOne(jobs[n].op, account);
    }
  }

  lemma NoNonces(account: AccountId)
    ensures NoncesFor([], account) == []
  {
  }

  // ---------- Adding to the pool ----------

  lemma PendingOfInserted(front: Pool, op: TrustedOperation, back: Pool)
    ensures PendingTrustedCalls(front + [op] + back)
      == PendingTrustedCalls(front) + (if op.Get? then [] else [op]) + PendingTrustedCalls(back)
  {
    PendingSplit(front + [op], back);
    PendingSplit(front, [op]);
    assert PendingTrustedCalls([op]) == if op.Get? then [] else [op];
  }

  lemma SumOfInserted(f: TrustedOperation -> nat, front: Pool, op: TrustedOperation, back: Pool)
    requires op.Get? ==> f(op) == 0
    ensures Sum(f, PendingTrustedCalls(front + [op] + back)) == Sum(f, PendingTrustedCalls(front + back)) + f(op)
  {
    hide PendingTrustedCalls;
    var a, b := PendingTrustedCalls(front), PendingTrustedCalls(back);
    var x := if op.Get? then [] else [op];
    PendingOfInserted(front, op, back);
    PendingSplit(front, back);
    SumSplit(f, a + x, b);
    SumSplit(f, a, x);
    SumSplit(f, a, b);
    assert [op][..0] == [] && Sum(f, [op]) == f(op);
  }
}
