/** The observer and the handler as the objects that hold the copies and update them in sequence. */
module StateHandler {
  import opened Prelude
  import opened Externalities
  import opened StateFiles
  import S = SnapshotStore
  import opened SnapshotRepository
  import V = StateViews
  import opened RepositoryLoader
  import H = SnapshotHistoryTheorems

  class StateObserver {
    var queued: map<ShardIdentifier, SgxExternalities>
    var current: map<ShardIdentifier, SgxExternalities>

    constructor (current: map<ShardIdentifier, SgxExternalities>)
      ensures Contents() == V.Observer(map[], current)
    {
      this.queued := map[];
      this.current := current;
    }

    function Contents(): V.Observer
      reads this
    {
      V.Observer(queued, current)
    }

    method QueueStateUpdate(shard: ShardIdentifier, state: SgxExternalities)
      modifies this
      ensures Contents() == V.Observer(old(queued)[shard := state], old(current))
    {
      queued := queued[shard := state];
    }

    /** Drains the queue in whatever order it lists its entries. */
    method ApplyPendingUpdate()
      modifies this
      ensures Contents() == V.ApplyPending(old(Contents())) && queued == map[]
    {
      var updates := queued;
      queued := map[];
      var rest := updates.Keys;
      while rest != {}
        invariant queued == map[] && rest <= updates.Keys
        invariant current.Keys == old(current).Keys + (updates.Keys - rest)
        invariant forall s ::
          s in current ==> current[s] == if s in updates && s !in rest then updates[s] else old(current)[s]
      {
        var shard :| shard in rest;
        current := current[shard := updates[shard]];
        rest := rest - {shard};
      }
      assert current == old(current) + updates;
    }

    /** `observe` returns what it computed and the state as it left it; only this copy can change. */
    method ObserveState<R>(shard: ShardIdentifier, observe: SgxExternalities -> (R, SgxExternalities))
        returns (r: Result<R, ()>)
      modifies this
      ensures var seen := V.Observed(old(Contents()), shard);
        if seen.Ok? then
          r == Ok(observe(seen.value).0) &&
          Contents() == V.Observer(map[], V.ApplyPending(old(Contents())).current[shard := observe(seen.value).1])
        else r == Err(()) && Contents() == V.ApplyPending(old(Contents()))
    {
      ApplyPendingUpdate();
      if shard !in current { return Err(()); }
      var (value, state) := observe(current[shard]);
      current := current[shard := state];
      r := Ok(value);
    }
  }

  class StateHandler {
    const repository: StateSnapshotRepository
    const observer: StateObserver
    const initial: SgxExternalities
    var states: V.StatesMap
    /** True while somebody holds the write lock of the states map. */
    var locked: bool

    constructor (repository: StateSnapshotRepository, observer: StateObserver, initial: SgxExternalities,
      states: V.StatesMap)
      ensures this.repository == repository && this.observer == observer && this.initial == initial
        && this.states == states && !locked
    {
      this.repository := repository;
      this.observer := observer;
      this.initial := initial;
      this.states := states;
      this.locked := false;
    }

    function World(): V.World
      reads this, repository, repository.fileIo, observer
    {
      V.World(states, repository.Store(), observer.Contents())
    }

    /** Fills the states map from the latest snapshot of every shard, leaving out shards that fail to load. */
    static method LoadFromRepository(repository: StateSnapshotRepository, observer: StateObserver,
        initial: SgxExternalities) returns (handler: StateHandler)
      ensures fresh(handler) && !handler.locked
      ensures handler.repository == repository && handler.observer == observer && handler.initial == initial
      ensures handler.states == V.LatestStates(repository.fileIo.hasher, repository.Store())
    {
      var states: V.StatesMap := map[];
      var shards := Enumerate(repository.history.Keys);
      ghost var latest := V.LatestStates(repository.fileIo.hasher, repository.Store());
      for n := 0 to |shards|
        invariant forall s :: s in states <==> s in shards[..n] && s in latest
        invariant forall s :: s in states ==> states[s] == latest[s]
      {
        assert shards[n] in shards;
        var loaded := repository.LoadLatest(shards[n]);
        if loaded.Ok? {
          states := states[shards[n] := (loaded.value, repository.fileIo.hasher(loaded.value.state))];
        }
      }
      assert shards[..|shards|] == shards;
      assert states == latest;
      handler := new StateHandler(repository, observer, initial, states);
    }

    /** Reads copy the state and its hash together. */
    method LoadCloned(shard: ShardIdentifier) returns (r: Result<(SgxExternalities, H256), Error>)
      requires !locked
      ensures r == if shard in states then Ok(states[shard]) else Err(InvalidShard(shard))
    {
      if shard !in states { return Err(InvalidShard(shard)); }
      r := Ok(states[shard]);
    }

    /** Takes the write lock and keeps it, unless the shard is unknown. */
    method LoadForMutation(shard: ShardIdentifier) returns (r: Result<SgxExternalities, Error>)
      requires !locked
      modifies this`locked
      ensures locked == r.Ok?
      ensures r == if shard in states then Ok(states[shard].0) else Err(InvalidShard(shard))
    {
      if shard !in states { return Err(InvalidShard(shard)); }
      locked := true;
      r := Ok(states[shard].0);
    }

    /** Inserts the pruned state, drops the lock, writes the snapshot and queues the observer update. */
    method WriteAfterMutation(state: SgxExternalities, shard: ShardIdentifier, id: StateId, diskOk: bool)
        returns (r: Result<H256, Error>)
      requires locked && repository.cacheSize > 0
      modifies this, repository, repository.fileIo, observer
      ensures !locked
      ensures (r, World()) == V.WriteAfterMutation(repository.fileIo.hasher, repository.cacheSize, old(World()),
        shard, state, id, diskOk)
      ensures r == if diskOk then Ok(repository.fileIo.hasher(state.state)) else Err(Io)
      ensures shard in states && (r.Ok? ==> r == Ok(states[shard].1))
    {
      var pruned := PruneDiff(state);
      var hash := repository.fileIo.hasher(pruned.state);
      states := states[shard := (pruned, hash)];
      locked := false;
      if !diskOk { return Err(Io); }
      var _, _ := repository.Update(shard, pruned, hash, id);
      observer.QueueStateUpdate(shard, pruned);
      r := Ok(hash);
    }

    method Reset(state: SgxExternalities, shard: ShardIdentifier, id: StateId, diskOk: bool)
        returns (r: Result<H256, Error>)
      requires !locked && repository.cacheSize > 0
      modifies this, repository, repository.fileIo, observer
      ensures !locked
      ensures (r, World()) == V.WriteAfterMutation(repository.fileIo.hasher, repository.cacheSize, old(World()),
        shard, state, id, diskOk)
      ensures r == if diskOk then Ok(repository.fileIo.hasher(state.state)) else Err(Io)
      ensures shard in states && (r.Ok? ==> r == Ok(states[shard].1))
    {
      locked := true;
      r := WriteAfterMutation(state, shard, id, diskOk);
    }

    method InitializeShard(shard: ShardIdentifier, id: StateId, diskOk: bool) returns (r: Result<H256, Error>)
      requires !locked && repository.cacheSize > 0
      modifies this, repository, repository.fileIo, observer
      ensures !locked
      ensures (r, World()) == V.WriteAfterMutation(repository.fileIo.hasher, repository.cacheSize, old(World()),
        shard, initial, id, diskOk)
      ensures r == if diskOk then Ok(repository.fileIo.hasher(initial.state)) else Err(Io)
      ensures shard in states && (r.Ok? ==> r == Ok(states[shard].1))
    {
      r := Reset(initial, shard, id, diskOk);
    }
  }

  /**
   * An operation of the handler as its callers put it together: between load and write the lock is held, and a
   * load that fails ends it. The answer is that of the write, or of the load; looking at a state has none.
   */
  method Perform(handler: StateHandler, op: V.HandlerOp) returns (r: Option<Result<H256, Error>>)
    requires !handler.locked && handler.repository.cacheSize > 0
    modifies handler, handler.repository, handler.repository.fileIo, handler.observer
    ensures !handler.locked
    ensures handler.World()
      == V.HandlerStep(handler.repository.fileIo.hasher, handler.repository.cacheSize, old(handler.World()), op)
    ensures r == if op.Observe? then None
      else if op.Mutate? && op.from !in old(handler.states) then Some(Err(InvalidShard(op.from)))
      else Some(V.HandlerReply(handler.repository.fileIo.hasher, handler.repository.cacheSize, old(handler.World()),
        op))
    ensures op.Mutate? && op.from in old(handler.states) ==>
      handler.states[op.shard].0 == PruneDiff(op.f(old(handler.states)[op.from].0))
    ensures op.Observe? || (op.Mutate? && op.from !in old(handler.states)) ==>
      handler.states == old(handler.states) && handler.repository.Store() == old(handler.repository.Store())
  {
    match op
    case Reset(shard, state, id, diskOk) =>
      var written := handler.Reset(state, shard, id, diskOk);
      r := Some(written);
    case Mutate(shard, from, f, id, diskOk) =>
      var loaded := handler.LoadForMutation(from);
      if loaded.Err? { return Some(Err(loaded.error)); }
      var written := handler.WriteAfterMutation(f(loaded.value), shard, id, diskOk);
      r := Some(written);
    case Observe(shard) =>
      ghost var merged := V.ApplyPending(handler.observer.Contents()).current;
      var _ := handler.observer.ObserveState(shard, state => ((), state));
      assert shard in merged ==> merged[shard := merged[shard]] == merged;
      r := None;
  }

  /** The observer starts with the latest snapshot of every shard, and not at all if one cannot be loaded. */
  method InitializeStateObserver(repository: StateSnapshotRepository) returns (r: Result<StateObserver, Error>)
    ensures r.Ok? <==> forall s :: s in repository.history ==> S.LoadLatest(repository.Store(), s).Ok?
    ensures r.Err? ==> exists s :: s in repository.history && S.LoadLatest(repository.Store(), s) == Err(r.error)
    ensures r.Ok? ==>
      fresh(r.value) && r.value.Contents() == V.Startup(repository.fileIo.hasher, repository.Store()).observer
  {
    hide S.LoadLatest;
    var states: map<ShardIdentifier, SgxExternalities> := map[];
    var rest := repository.history.Keys;
    while rest != {}
      invariant rest <= repository.history.Keys && states.Keys == repository.history.Keys - rest
      invariant forall s :: s in states ==> S.LoadLatest(repository.Store(), s) == Ok(states[s])
    {
      var shard :| shard in rest;
      var loaded := repository.LoadLatest(shard);
      if loaded.Err? { return Err(loaded.error); }
      states := states[shard := loaded.value];
      rest := rest - {shard};
    }
    var observer := new StateObserver(states);
    r := Ok(observer);
  }

  /** Start-up as the enclave does it: load the repository, then the observer, then the handler. */
  method StartUp(fileIo: InMemoryStateFileIo, initial: SgxExternalities, cacheSize: nat,
      clock: ShardIdentifier -> StateId) returns (r: Result<StateHandler, Error>)
    modifies fileIo
    ensures r.Ok? <==> cacheSize > 0
    ensures r.Err? ==> r.error == ZeroCacheSize
    ensures forall s :: s in old(fileIo.root) && old(fileIo.root)[s] == map[] ==>
      s in fileIo.root && fileIo.root[s] == InitialDirectory(fileIo.hasher, initial, clock(s))
    ensures r.Ok? ==>
      fresh(r.value) && !r.value.locked && r.value.initial == initial && r.value.repository.fileIo == fileIo
      && r.value.repository.cacheSize == cacheSize
    ensures r.Ok? ==> Recovered(fileIo.hasher, initial, old(fileIo.root), r.value.repository.Store())
    ensures r.Ok? ==> r.value.World() == V.Startup(fileIo.hasher, r.value.repository.Store())
  {
    hide Recovered, S.LoadLatest, V.LatestStates;
    var loader := new StateSnapshotRepositoryLoader(fileIo, initial);
    var loaded := loader.LoadSnapshotRepository(cacheSize, clock);
    if loaded.Err? { return Err(loaded.error); }
    var repository := loaded.value;
    AllLoad(fileIo.hasher, initial, old(fileIo.root), repository.Store());
    var observer := InitializeStateObserver(repository);
    var handler := StateHandler.LoadFromRepository(repository, observer.value, initial);
    r := Ok(handler);
  }

  lemma AllLoad(hasher: StateHasher, initial: SgxExternalities, files: RootDirectory, s: S.Store)
    requires Recovered(hasher, initial, files, s)
    ensures forall shard :: shard in s.history ==> S.LoadLatest(s, shard).Ok?
  {
    RecoveredIsSound(hasher, initial, files, s);
    forall shard | shard in s.history
      ensures S.LoadLatest(s, shard).Ok?
    {
      H.LatestIsHead(s, shard);
    }
  }
}
