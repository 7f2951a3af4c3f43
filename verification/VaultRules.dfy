/** A shard has its vault on one parentchain, for good. */
module VaultRules {
  import opened Prelude
  import opened Ledger
  import opened TrustedCalls
  import opened BridgeAccounting

  datatype VaultError =
    | VaultOnMultipleParentchains
    | ChangingVaultNotAllowed
    | VaultDispatchError

  /** The vault, after making sure there is no second one. */
  function SingleVault(s: RuntimeState): Result<Option<(AccountId, ParentchainId)>, VaultError> {
    var all := ShardVaults(s.vaults);
    if |all| == 0 then Ok(None)
    else if |all| == 1 then Ok(Some(all[0]))
    else Err(VaultDispatchError)
  }

  function InitShardVault(s: RuntimeState, vault: AccountId, chain: ParentchainId, dispatched: bool)
      : (Result<(), VaultError>, RuntimeState) {
    match SingleVault(s)
    case Err(e) => (Err(e), s)
    case Ok(Some((existing, target))) =>
      if target != chain then (Err(VaultOnMultipleParentchains), s)
      else if existing != vault then (Err(ChangingVaultNotAllowed), s)
      else (Ok(()), s)
    case Ok(None) =>
      if dispatched then (Ok(()), s.(vaults := s.vaults[chain := vault])) else (Err(VaultDispatchError), s)
  }

  // ---------- Runs ----------

  datatype Event =
    | Init(vault: AccountId, chain: ParentchainId, dispatched: bool)
    | Call(c: TrustedCallSigned, env: Env)

  function Next(s: RuntimeState, e: Event): RuntimeState {
    match e
    case Init(vault, chain, dispatched) => InitShardVault(s, vault, chain, dispatched).1
    case Call(c, env) => Execute(s, c, env).state
  }

  function Run(s: RuntimeState, events: seq<Event>): RuntimeState
    decreases |events|
  {
    if events == [] then s else Run(Next(s, events[0]), events[1..])
  }

  /** At most one parentchain holds a vault. */
  ghost predicate AtMostOne(vaults: map<ParentchainId, AccountId>) {
    forall a, b :: a in vaults && b in vaults ==> a == b
  }

  lemma VaultsListed(vaults: map<ParentchainId, AccountId>)
    requires AtMostOne(vaults)
    ensures |ShardVaults(vaults)| <= 1
    ensures forall chain ::
      chain in vaults ==>
        ShardVaults(vaults) == [(vaults[chain], chain)]
        && ShardVault(vaults) == Some((vaults[chain], chain))
    ensures vaults == map[] ==> ShardVaults(vaults) == [] && ShardVault(vaults) == None
  {
  }

  lemma SeveralListed(vaults: map<ParentchainId, AccountId>)
    ensures |ShardVaults(vaults)| <= 1 <==> AtMostOne(vaults)
  {
    if !AtMostOne(vaults) {
      var a, b :| a in vaults && b in vaults && a != b;
    }
  }

  /** Initialising succeeds exactly if the vault is there already or can be set where there was none,
    * and then it is the one; every failure has its own cause and changes nothing. */
  lemma InitShardVaultIff(s: RuntimeState, vault: AccountId, chain: ParentchainId, dispatched: bool)
    ensures var (r, s') := InitShardVault(s, vault, chain, dispatched);
      && (r.Ok? <==> s.vaults == map[chain := vault] || (s.vaults == map[] && dispatched))
      && s' == (if r.Ok? then s.(vaults := map[chain := vault]) else s)
      && (r == Err(VaultOnMultipleParentchains) <==>
            AtMostOne(s.vaults) && s.vaults != map[] && chain !in s.vaults)
      && (r == Err(ChangingVaultNotAllowed) <==>
            AtMostOne(s.vaults) && chain in s.vaults && s.vaults[chain] != vault)
      && (r == Err(VaultDispatchError) <==> !AtMostOne(s.vaults) || (s.vaults == map[] && !dispatched))
  {
    SeveralListed(s.vaults);
    if AtMostOne(s.vaults) {
      VaultsListed(s.vaults);
      if s.vaults != map[] {
        var existing :| existing in s.vaults;
        assert s.vaults == map[existing := s.vaults[existing]];
      }
    }
  }

  /** A step sets the vault if there is none, and changes nothing about one that exists. */
  lemma NextKeepsVault(s: RuntimeState, e: Event)
    requires AtMostOne(s.vaults)
    ensures AtMostOne(Next(s, e).vaults)
    ensures s.vaults != map[] ==> Next(s, e).vaults == s.vaults
  {
    VaultsListed(s.vaults);
    match e
    case Init(_, _, _) =>
      if s.vaults != map[] {
        var chain :| chain in s.vaults;
      }
    case Call(c, env) => ExecuteKeepsRoles(s, c, env);
  }

  lemma {:induction false} VaultIsStable(s: RuntimeState, events: seq<Event>)
    requires AtMostOne(s.vaults)
    ensures AtMostOne(Run(s, events).vaults)
    ensures s.vaults != map[] ==> Run(s, events).vaults == s.vaults
    decreases |events|
  {
    if events != [] {
      NextKeepsVault(s, events[0]);
      VaultIsStable(Next(s, events[0]), events[1..]);
    }
  }

  /** Everything a call pays out goes through this vault, and it shields only from this chain. */
  ghost predicate Uses(vaults: map<ParentchainId, AccountId>, c: TrustedCallSigned, o: Outcome) {
    && (forall i :: 0 <= i < |o.calls| && o.calls[i].call.VaultTransfer? ==>
        o.calls[i].target in vaults && o.calls[i].call.vault == vaults[o.calls[i].target])
    && (c.call.BalanceShield? && o.result.Ok? ==> c.call.origin in vaults)
  }

  lemma CallUsesVault(s: RuntimeState, c: TrustedCallSigned, env: Env)
    requires AtMostOne(s.vaults)
    ensures Uses(s.vaults, c, Execute(s, c, env))
  {
    hide Transfer, ForceSetBalance, ShieldFunds, BurnFunds, ShardVaults;
    VaultsListed(s.vaults);
    assert s.vaults != map[] ==> exists chain :: chain in s.vaults;
  }

  lemma UsesMore(vaults: map<ParentchainId, AccountId>, vaults': map<ParentchainId, AccountId>,
      c: TrustedCallSigned, o: Outcome)
    requires Uses(vaults, c, o) && (vaults != map[] ==> vaults' == vaults)
    ensures Uses(vaults', c, o)
  {
  }

  /**
   * Starting without a vault, or with one, there is never more than one, and it never changes once set:
   * every payout of the whole run goes through the vault the run ends with, and every successful shield
   * comes from its chain.
   */
  lemma {:induction false} OneVaultForGood(s: RuntimeState, events: seq<Event>, i: nat)
    requires AtMostOne(s.vaults) && i < |events| && events[i].Call?
    ensures var vaults := Run(s, events).vaults;
      AtMostOne(vaults) && Uses(vaults, events[i].c, Execute(Run(s, events[..i]), events[i].c, events[i].env))
    decreases |events|
  {
    hide Execute;
    NextKeepsVault(s, events[0]);
    VaultIsStable(Next(s, events[0]), events[1..]);
    VaultIsStable(s, events);
    if i == 0 {
      CallUsesVault(s, events[0].c, events[0].env);
      UsesMore(s.vaults, Run(s, events).vaults, events[0].c, Execute(s, events[0].c, events[0].env));
    } else {
      assert events[..i][1..] == events[1..][..i - 1];
      OneVaultForGood(Next(s, events[0]), events[1..], i - 1);
    }
  }
}
