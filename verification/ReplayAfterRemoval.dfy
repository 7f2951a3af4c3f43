/** An account that is removed and refilled starts again from nonce 0, and old calls pass once more. */
module ReplayAfterRemoval {
  import opened Prelude
  import opened Ledger
  import opened TrustedCalls
  import opened BatchExecution
  import opened BridgeAccounting
  import opened NonceDiscipline

  const PAYER :=
    RuntimeState(map[7 := Account(1000, 0), 8 := Account(100000600, 0)], None, 7, map[Integritee := 9], None, map[])
  const PAYER_GONE := PAYER.(accounts := map[7 := Account(100001000, 0), 10 := Account(200, 0)])
  const PAYER_BACK :=
    PAYER.(accounts := map[7 := Account(101001000, 1), 8 := Account(570000000, 0), 10 := Account(200, 0)])

  /** A transfer that leaves its sender 400, so that the pallet may remove the account, and a shield that refills it. */
  const PAYMENT := TrustedCallSigned(BalanceTransfer(8, 10, 200), 0)
  const REFILL := TrustedCallSigned(BalanceShield(7, 8, 571000000, Integritee), 0)
  const REMOVES_PAYER := Env(FINE, Dispatch(true, {}, {8}), true, true, true)
  const ALL_FINE := Env(FINE, FINE, true, true, true)

  lemma FeePaid(accounts: Accounts, paid: Accounts)
    requires accounts == map[7 := Account(1000, 0), 8 := Account(100000600, 1)]
    requires paid == map[7 := Account(100001000, 0), 8 := Account(600, 1)]
    ensures Transfer(accounts, 8, 7, STF_TX_FEE, FINE) == Booked(paid, true, {}, 0)
  {
    assert WithFree(WithFree(accounts, 8, 600), 7, 100001000) == paid;
  }

  lemma PaidOff(paid: Accounts)
    requires paid == map[7 := Account(100001000, 0), 8 := Account(600, 1)]
    ensures Transfer(paid, 8, 10, 200, REMOVES_PAYER.second) == Booked(PAYER_GONE.accounts, true, {8}, 400)
  {
    var moved := map[7 := Account(100001000, 0), 8 := Account(400, 1), 10 := Account(200, 0)];
    assert WithFree(WithFree(paid, 8, 400), 10, 200) == moved;
    assert moved - {8} == PAYER_GONE.accounts;
  }

  lemma PaymentRemovesPayer()
    ensures var o := Execute(PAYER, PAYMENT, REMOVES_PAYER); o.result.Ok? && o.state == PAYER_GONE
  {
    hide Transfer;
    var accounts := map[7 := Account(1000, 0), 8 := Account(100000600, 1)];
    assert WithNextNonce(PAYER.accounts, 8) == accounts;
    var paid := map[7 := Account(100001000, 0), 8 := Account(600, 1)];
    FeePaid(accounts, paid);
    PaidOff(paid);
  }

  lemma RefillBringsPayerBack()
    ensures var o := Execute(PAYER_GONE, REFILL, ALL_FINE); o.result.Ok? && o.state == PAYER_BACK
  {
    var accounts := map[7 := Account(100001000, 1), 10 := Account(200, 0)];
    assert WithNextNonce(PAYER_GONE.accounts, 7) == accounts;
    var first := ForceSetBalance(accounts, 7, 101001000, FINE);
    assert first.ok && first.accounts == map[7 := Account(101001000, 1), 10 := Account(200, 0)];
    assert ForceSetBalance(first.accounts, 8, 570000000, FINE).accounts == PAYER_BACK.accounts;
  }

  lemma PaymentSucceedsAgain()
    ensures Execute(PAYER_BACK, PAYMENT, ALL_FINE).result.Ok?
  {
    var accounts := PAYER_BACK.accounts[8 := Account(570000000, 1)];
    assert WithNextNonce(PAYER_BACK.accounts, 8) == accounts;
    var fee := Transfer(accounts, 8, 7, STF_TX_FEE, FINE);
    assert fee.ok && Free(fee.accounts, 8) == 470000000 && Free(fee.accounts, 10) == 200;
    assert Transfer(fee.accounts, 8, 10, 200, FINE).ok;
  }

  function NonceOf(m: Machine<RuntimeState>, s: RuntimeState, job: Job, sender: AccountId): seq<Index> {
    if Gets(m, s, job, sender) then [job.op.signed.nonce] else []
  }

  lemma OneMore(m: Machine<RuntimeState>, s: RuntimeState, jobs: seq<Job>, job: Job, sender: AccountId)
    requires m.stf == StfCall && Runs(m, job)
    ensures var before := Fold(m, s, jobs).state;
      && Fold(m, s, jobs + [job]).state == Execute(before, job.op.signed, job.env).state
      && Passed(m, s, jobs + [job], sender) == Passed(m, s, jobs, sender) + NonceOf(m, before, job, sender)
  {
    hide Execute, Gets;
    assert (jobs + [job])[..|jobs|] == jobs;
  }

  /** The very same signed transfer is executed twice, and succeeds twice: the account was removed in between. */
  lemma ReplayExample(m: Machine<RuntimeState>)
    requires m.stf == StfCall && m.verify(PAYMENT) && m.verify(REFILL)
    ensures var first, again := Job(DirectCall(PAYMENT), true, REMOVES_PAYER), Job(DirectCall(PAYMENT), true, ALL_FINE);
      var jobs := [first] + [Job(IndirectCall(REFILL), true, ALL_FINE)];
      && Passed(m, PAYER, jobs + [again], 8) == [0, 0]
      && Execute(PAYER, PAYMENT, REMOVES_PAYER).result.Ok?
      && Execute(Fold(m, PAYER, jobs).state, PAYMENT, ALL_FINE).result.Ok?
  {
    hide Execute, Fold, Passed;
    var first, refill := Job(DirectCall(PAYMENT), true, REMOVES_PAYER), Job(IndirectCall(REFILL), true, ALL_FINE);
    var again := Job(DirectCall(PAYMENT), true, ALL_FINE);
    PaymentRemovesPayer();
    RefillBringsPayerBack();
    PaymentSucceedsAgain();
    Nothing(m, PAYER, 8);
    assert [] + [first] == [first];
    OneMore(m, PAYER, [], first, 8);
    OneMore(m, PAYER, [first], refill, 8);
    OneMore(m, PAYER, [first] + [refill], again, 8);
  }

  lemma Nothing(m: Machine<RuntimeState>, s: RuntimeState, sender: AccountId)
    ensures Fold(m, s, []).state == s && Passed(m, s, [], sender) == []
  {
  }
}
