/** Trusted calls and their execution on the shard's runtime state. */
module TrustedCalls {
  import opened Prelude
  import opened Ledger

  const STF_TX_FEE: Balance := 100000000
  const UNSHIELD_FEE: Balance := 300000000
  const SHIELD_FEE_DIVISOR := 571

  datatype ParentchainId = Integritee | TargetA | TargetB
  type Moment = nat

  datatype TrustedCall =
    | Noop(sender: AccountId)
    | BalanceSetBalance(sender: AccountId, who: AccountId, newFree: Balance, newReserved: Balance)
    | BalanceTransfer(sender: AccountId, to: AccountId, value: Balance)
    | BalanceUnshield(sender: AccountId, beneficiary: AccountId, value: Balance, shard: nat)
    | BalanceShield(sender: AccountId, who: AccountId, value: Balance, origin: ParentchainId)
    | TimestampSet(sender: AccountId, now: Moment, origin: ParentchainId)

  datatype TrustedCallSigned = TrustedCallSigned(call: TrustedCall, nonce: Index)

  /** Calls the shard wants executed on a parentchain. */
  datatype OpaqueCall =
    | VaultTransfer(vault: AccountId, beneficiary: AccountId, value: Balance)
    | PublishHash(shielded: TrustedCall)
  datatype ParentchainCall = ParentchainCall(target: ParentchainId, call: OpaqueCall)

  datatype RuntimeState = RuntimeState(
    accounts: Accounts,
    sudoKey: Option<AccountId>,
    enclave: AccountId,
    vaults: map<ParentchainId, AccountId>,
    createdAt: Option<Moment>,
    now: map<ParentchainId, Moment>)

  datatype StfError =
    | MissingPrivileges(who: AccountId)
    | RequireEnclaveSignerAccount
    | DispatchError
    | MissingFunds
    | InvalidNonce(given: Index, expected: Index)
    | InvalidMetadata
    | NoShardVaultAssigned
    | WrongParentchainIdForShardVault

  /**
   * What the surroundings decide during one call: the outcome of the first and of the second dispatched
   * call, and whether the node metadata knows the three call indexes that may be needed.
   */
  datatype Env = Env(first: Dispatch, second: Dispatch, transferIndex: bool, proxyIndex: bool, publishIndex: bool)

  /** Nothing is rolled back on an error: the state keeps what had been done until then. */
  datatype Outcome = Outcome(result: Result<(), StfError>, state: RuntimeState, calls: seq<ParentchainCall>,
      killed: set<AccountId>, dust: nat)

  /** The vaults of all parentchains, in a fixed order. */
  function ShardVaults(vaults: map<ParentchainId, AccountId>): seq<(AccountId, ParentchainId)> {
    (if Integritee in vaults then [(vaults[Integritee], Integritee)] else []) +
    (if TargetA in vaults then [(vaults[TargetA], TargetA)] else []) +
    (if TargetB in vaults then [(vaults[TargetB], TargetB)] else [])
  }

  function ShardVault(vaults: map<ParentchainId, AccountId>): Option<(AccountId, ParentchainId)> {
    var all := ShardVaults(vaults);
    if all == [] then None else Some(all[0])
  }

  function Failed(s: RuntimeState, e: StfError): Outcome {
    Outcome(Err(e), s, [], {}, 0)
  }

  /** Ends a call with what has been booked until then. */
  function Booking(s: RuntimeState, b: Booked, result: Result<(), StfError>, calls: seq<ParentchainCall>): Outcome {
    Outcome(result, s.(accounts := b.accounts), calls, b.killed, b.dust)
  }

  function ExecuteSetBalance(s: RuntimeState, call: TrustedCall, env: Env): Outcome
    requires call.BalanceSetBalance?
  {
    if s.sudoKey != Some(call.sender) then Failed(s, MissingPrivileges(call.sender))
    else
      var b := ForceSetBalance(s.accounts, call.who, call.newFree, env.first);
      Booking(s, b, if b.ok then Ok(()) else Err(DispatchError), [])
  }

  /** The fee goes first, and stays with the enclave even if the transfer itself then fails. */
  function ExecuteTransfer(s: RuntimeState, call: TrustedCall, env: Env): Outcome
    requires call.BalanceTransfer?
  {
    var fee := Transfer(s.accounts, call.sender, s.enclave, STF_TX_FEE, env.first);
    if !fee.ok then Booking(s, fee, Err(DispatchError), [])
    else
      var b := Transfer(fee.accounts, call.sender, call.to, call.value, env.second);
      Booking(s, Then(fee, b), if b.ok then Ok(()) else Err(DispatchError), [])
  }

  function BurnFunds(accounts: Accounts, who: AccountId, amount: Balance, d: Dispatch): Result<Booked, StfError> {
    if Free(accounts, who) < amount then Err(MissingFunds)
    else Ok(ForceSetBalance(accounts, who, Free(accounts, who) - amount, d))
  }

  function ExecuteUnshield(s: RuntimeState, call: TrustedCall, env: Env): Outcome
    requires call.BalanceUnshield?
  {
    var fee := Transfer(s.accounts, call.sender, s.enclave, UNSHIELD_FEE, env.first);
    if !fee.ok then Booking(s, fee, Err(DispatchError), [])
    else match BurnFunds(fee.accounts, call.sender, call.value, env.second)
      case Err(e) => Booking(s, fee, Err(e), [])
      case Ok(burnt) =>
        if !burnt.ok then Booking(s, Then(fee, burnt), Err(DispatchError), [])
        else match ShardVault(s.vaults)
          case None => Booking(s, Then(fee, burnt), Err(DispatchError), [])
          case Some((vault, target)) =>
            if !env.transferIndex || !env.proxyIndex then Booking(s, Then(fee, burnt), Err(InvalidMetadata), [])
            else Booking(s, Then(fee, burnt), Ok(()),
              [ParentchainCall(target, VaultTransfer(vault, call.beneficiary, call.value))])
  }

  /** Balances are added as 128-bit numbers. */
  function Add128(a: Balance, b: nat): (r: Balance)
    ensures r <= a + b && (a + b < U128 ==> r == a + b) && (U128 <= a + b < 2 * U128 ==> r == a + b - U128)
  {
    (a + b) % U128
  }

  /** Credits the fee to the enclave and then the rest to the beneficiary; stops if the first fails. */
  function ShieldFunds(accounts: Accounts, enclave: AccountId, who: AccountId, amount: Balance, env: Env): Booked {
    var fee := amount / SHIELD_FEE_DIVISOR;
    var first := ForceSetBalance(accounts, enclave, Add128(Free(accounts, enclave), fee), env.first);
    if !first.ok then first
    else Then(first, ForceSetBalance(first.accounts, who, Add128(Free(first.accounts, who), amount - fee), env.second))
  }

  function ExecuteShield(s: RuntimeState, call: TrustedCall, env: Env): Outcome
    requires call.BalanceShield?
  {
    if call.sender != s.enclave then Failed(s, RequireEnclaveSignerAccount)
    else match ShardVault(s.vaults)
      case None => Failed(s, NoShardVaultAssigned)
      case Some((_, target)) =>
        if call.origin != target then Failed(s, WrongParentchainIdForShardVault)
        else
          var b := ShieldFunds(s.accounts, s.enclave, call.who, call.value, env);
          if !b.ok then Booking(s, b, Err(DispatchError), [])
          else if !env.publishIndex then Booking(s, b, Err(InvalidMetadata), [])
          else Booking(s, b, Ok(()), [ParentchainCall(Integritee, PublishHash(call))])
  }

  /** The creation time is set once, by the first timestamp of the Integritee chain. */
  function ExecuteTimestamp(s: RuntimeState, call: TrustedCall, env: Env): Outcome
    requires call.TimestampSet?
  {
    if call.sender != s.enclave then Failed(s, RequireEnclaveSignerAccount)
    else
      var creates := call.origin == Integritee && s.createdAt.None?;
      if creates && !env.first.ok then Failed(s, DispatchError)
      else
        var s' := if creates then s.(createdAt := Some(call.now)) else s;
        if !env.second.ok then Failed(s', DispatchError)
        else Outcome(Ok(()), s'.(now := s'.now[call.origin := call.now]), [], {}, 0)
  }

  function Dispatched(s: RuntimeState, call: TrustedCall, env: Env): Outcome {
    match call
    case Noop(_) => Outcome(Ok(()), s, [], {}, 0)
    case BalanceSetBalance(_, _, _, _) => ExecuteSetBalance(s, call, env)
    case BalanceTransfer(_, _, _) => ExecuteTransfer(s, call, env)
    case BalanceUnshield(_, _, _, _) => ExecuteUnshield(s, call, env)
    case BalanceShield(_, _, _, _) => ExecuteShield(s, call, env)
    case TimestampSet(_, _, _) => ExecuteTimestamp(s, call, env)
  }

  predicate PassesNonceCheck(s: RuntimeState, c: TrustedCallSigned) {
    c.nonce == Nonce(s.accounts, c.call.sender)
  }

  /** A call with the wrong nonce is refused; any other uses up its nonce whether it succeeds or not. */
  function Execute(s: RuntimeState, c: TrustedCallSigned, env: Env): Outcome {
    if !PassesNonceCheck(s, c) then Failed(s, InvalidNonce(c.nonce, Nonce(s.accounts, c.call.sender)))
    else Dispatched(s.(accounts := WithNextNonce(s.accounts, c.call.sender)), c.call, env)
  }
}
