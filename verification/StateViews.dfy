/**
 * The three copies of a shard's state: the states map of the handler, the snapshot repository, and the
 * observer behind its update queue. The handler's operations as steps on all three.
 */
module StateViews {
  import opened Prelude
  import opened Externalities
  import opened StateFiles
  import opened SnapshotStore
  import opened SnapshotHistoryTheorems
  import opened RepositoryLoader

  type StatesMap = map<ShardIdentifier, (SgxExternalities, H256)>

  datatype Observer = Observer(queued: map<ShardIdentifier, SgxExternalities>,
      current: map<ShardIdentifier, SgxExternalities>)

  datatype World = World(states: StatesMap, store: Store, observer: Observer)

  /** Pending updates replace what the observer holds; they are applied before anything is looked at. */
  function ApplyPending(o: Observer): Observer {
    Observer(map[], o.current + o.queued)
  }

  function Observed(o: Observer, shard: ShardIdentifier): Result<SgxExternalities, ()> {
    if shard in o.queued then Ok(o.queued[shard])
    else if shard in o.current then Ok(o.current[shard])
    else Err(())
  }

  /** The snapshot write may fail on disk; the states map has been changed by then. */
  function WriteAfterMutation(hasher: StateHasher, cacheSize: nat, w: World, shard: ShardIdentifier,
      state: SgxExternalities, id: StateId, diskOk: bool): (Result<H256, Error>, World) {
    var pruned := PruneDiff(state);
    var hash := hasher(pruned.state);
    var states := w.states[shard := (pruned, hash)];
    if !diskOk then (Err(Io), w.(states := states))
    else (Ok(hash), World(states, Update(hasher, cacheSize, w.store, shard, pruned, hash, id),
      w.observer.(queued := w.observer.queued[shard := pruned])))
  }

  datatype HandlerOp =
    | Reset(shard: ShardIdentifier, state: SgxExternalities, id: StateId, diskOk: bool)
    | Mutate(shard: ShardIdentifier, from: ShardIdentifier, f: SgxExternalities -> SgxExternalities, id: StateId,
        diskOk: bool)
    | Observe(shard: ShardIdentifier)

  predicate Writes(w: World, op: HandlerOp) {
    op.Reset? || (op.Mutate? && op.from in w.states)
  }

  function NewState(w: World, op: HandlerOp): SgxExternalities
    requires Writes(w, op)
  {
    if op.Reset? then op.state else op.f(w.states[op.from].0)
  }

  /** A mutation that starts from an unknown shard fails with no effect; observing only drains the queue. */
  function HandlerStep(hasher: StateHasher, cacheSize: nat, w: World, op: HandlerOp): World {
    if op.Observe? then w.(observer := ApplyPending(w.observer))
    else if !Writes(w, op) then w
    else WriteAfterMutation(hasher, cacheSize, w, op.shard, NewState(w, op), op.id, op.diskOk).1
  }

  function HandlerRun(hasher: StateHasher, cacheSize: nat, w: World, ops: seq<HandlerOp>): World
    decreases |ops|
  {
    if |ops| == 0 then w else HandlerRun(hasher, cacheSize, HandlerStep(hasher, cacheSize, w, ops[0]), ops[1..])
  }

  /** What was last written to a shard: as the states map was given it, and as the disk took it. */
  datatype Writings = Writings(tried: Option<Storage>, stored: Option<Storage>)

  function Later(earlier: Option<Storage>, later: Option<Storage>): Option<Storage> {
    if later.Some? then later else earlier
  }

  function WritingOf(w: World, op: HandlerOp, shard: ShardIdentifier): Writings {
    if !Writes(w, op) || op.shard != shard then Writings(None, None)
    else Writings(Some(NewState(w, op).state), if op.diskOk then Some(NewState(w, op).state) else None)
  }

  function LastWritings(hasher: StateHasher, cacheSize: nat, w: World, ops: seq<HandlerOp>, shard: ShardIdentifier)
      : Writings
    decreases |ops|
  {
    if |ops| == 0 then Writings(None, None)
    else
      var first := WritingOf(w, ops[0], shard);
      var rest := LastWritings(hasher, cacheSize, HandlerStep(hasher, cacheSize, w, ops[0]), ops[1..], shard);
      Writings(Later(first.tried, rest.tried), Later(first.stored, rest.stored))
  }

  function Tick(last: int, op: HandlerOp): int {
    if op.Observe? then last else op.id
  }

  /** The clock ticks: every write has an id greater than every id used before; any write may fail. */
  predicate FreshWrites(last: int, ops: seq<HandlerOp>)
    decreases |ops|
  {
    |ops| == 0 || ((ops[0].Observe? || last < ops[0].id) && FreshWrites(Tick(last, ops[0]), ops[1..]))
  }

  // ---------- Agreement ----------

  /** All views of a shard are one state without a diff, recorded everywhere under its own hash. */
  ghost predicate Agrees(hasher: StateHasher, w: World, shard: ShardIdentifier) {
    && shard in w.states
    && var (state, hash) := w.states[shard];
    && state == FromStorage(state.state) && hash == hasher(state.state)
    && LoadLatest(w.store, shard) == Ok(state)
    && Observed(w.observer, shard) == Ok(state)
    && w.store.history[shard][0].hash == hash
  }

  /** The states map holds exactly this for the shard. */
  ghost predicate InMap(hasher: StateHasher, w: World, shard: ShardIdentifier, inner: Storage) {
    shard in w.states && w.states[shard] == (FromStorage(inner), hasher(inner))
  }

  /** The newest snapshot, the hash recorded for it, and the next observation are exactly this. */
  ghost predicate InStore(hasher: StateHasher, w: World, shard: ShardIdentifier, inner: Storage) {
    && shard in w.store.history && w.store.history[shard] != []
    && w.store.history[shard][0].hash == hasher(inner)
    && LoadLatest(w.store, shard) == Ok(FromStorage(inner))
    && Observed(w.observer, shard) == Ok(FromStorage(inner))
  }

  ghost predicate SameInMap(w: World, w': World, shard: ShardIdentifier) {
    && (shard in w.states <==> shard in w'.states)
    && (shard in w.states ==> w'.states[shard] == w.states[shard])
  }

  ghost predicate SameInStore(w: World, w': World, shard: ShardIdentifier) {
    && (shard in w.store.history <==> shard in w'.store.history)
    && (shard in w.store.history ==> w'.store.history[shard] == w.store.history[shard])
    && LoadLatest(w'.store, shard) == LoadLatest(w.store, shard)
    && Observed(w'.observer, shard) == Observed(w.observer, shard)
  }

  /** A shard's views after the given writings: each view holds the last one it received, or what it had before. */
  ghost predicate Follows(hasher: StateHasher, w: World, w': World, shard: ShardIdentifier, last: Writings) {
    && (if last.tried.Some? then InMap(hasher, w', shard, last.tried.value) else SameInMap(w, w', shard))
    && (if last.stored.Some? then InStore(hasher, w', shard, last.stored.value) else SameInStore(w, w', shard))
  }

  lemma UpdateHead(hasher: StateHasher, cacheSize: nat, s: Store, last: int, shard: ShardIdentifier,
      state: SgxExternalities, id: StateId)
    requires cacheSize > 0 && Consistent(s) && NotNewer(s.files, last) && last < id
    ensures var s' := Update(hasher, cacheSize, s, shard, state, hasher(state.state), id);
      && Consistent(s') && shard in s'.history && s'.history[shard] != []
      && LoadLatest(s', shard) == Ok(FromStorage(state.state)) && s'.history[shard][0].hash == hasher(state.state)
  {
    var op := UpdateOp(shard, state, hasher(state.state), id);
    StepRefines(hasher, cacheSize, s, last, op);
    LatestIsHead(Step(hasher, cacheSize, s, op).1, shard);
  }

  lemma UpdateFrame(hasher: StateHasher, cacheSize: nat, s: Store, shard: ShardIdentifier, state: SgxExternalities,
      hash: H256, id: StateId, other: ShardIdentifier)
    requires other != shard
    ensures var s' := Update(hasher, cacheSize, s, shard, state, hash, id);
      && (other in s.files <==> other in s'.files) && (other in s.files ==> s'.files[other] == s.files[other])
      && (other in s.history <==> other in s'.history) && (other in s.history ==> s'.history[other] == s.history[other])
      && LoadLatest(s', other) == LoadLatest(s, other)
  {
  }

  /** The answer to a write. */
  function HandlerReply(hasher: StateHasher, cacheSize: nat, w: World, op: HandlerOp): Result<H256, Error>
    requires Writes(w, op)
  {
    WriteAfterMutation(hasher, cacheSize, w, op.shard, NewState(w, op), op.id, op.diskOk).0
  }

  /** The answer is the hash of the state written, as the states map and the newest snapshot record it, or an error. */
  ghost predicate Answers(hasher: StateHasher, w: World, shard: ShardIdentifier, inner: Storage, diskOk: bool,
      r: Result<H256, Error>) {
    if !diskOk then r == Err(Io)
    else
      && r == Ok(hasher(inner)) && shard in w.states && r == Ok(w.states[shard].1)
      && shard in w.store.history && w.store.history[shard] != [] && r == Ok(w.store.history[shard][0].hash)
  }

  /**
   * One operation: the written shard follows it in all views, every other shard looks as before, and the answer
   * is about what was written.
   */
  lemma StepFollows(hasher: StateHasher, cacheSize: nat, w: World, last: int, op: HandlerOp, shard: ShardIdentifier)
    requires cacheSize > 0 && Consistent(w.store) && NotNewer(w.store.files, last) && FreshWrites(last, [op])
    ensures var w' := HandlerStep(hasher, cacheSize, w, op);
      && Consistent(w'.store) && NotNewer(w'.store.files, Tick(last, op))
      && Follows(hasher, w, w', shard, WritingOf(w, op, shard))
      && (Writes(w, op) ==>
            Answers(hasher, w', op.shard, NewState(w, op).state, op.diskOk, HandlerReply(hasher, cacheSize, w, op)))
  {
    hide Update, LoadLatest, Backed;
    if Writes(w, op) && op.diskOk {
      var pruned := PruneDiff(NewState(w, op));
      UpdateHead(hasher, cacheSize, w.store, last, op.shard, pruned, op.id);
      StepNotNewer(hasher, cacheSize, w.store, last, UpdateOp(op.shard, pruned, hasher(pruned.state), op.id));
      if shard != op.shard {
        UpdateFrame(hasher, cacheSize, w.store, op.shard, pruned, hasher(pruned.state), op.id, shard);
      }
    }
  }

  /**
   * In every run over any shards, with any writes failing on disk, the states map holds the last state
   * written to a shard, and its newest snapshot and the observer the last one the disk took.
   */
  lemma {:induction false} RunFollows(hasher: StateHasher, cacheSize: nat, w: World, last: int, ops: seq<HandlerOp>,
      shard: ShardIdentifier)
    requires cacheSize > 0 && Consistent(w.store) && NotNewer(w.store.files, last) && FreshWrites(last, ops)
    ensures Follows(hasher, w, HandlerRun(hasher, cacheSize, w, ops), shard,
      LastWritings(hasher, cacheSize, w, ops, shard))
    decreases |ops|
  {
    hide LoadLatest, Observed, HandlerStep, WritingOf;
    if |ops| > 0 {
      StepFollows(hasher, cacheSize, w, last, ops[0], shard);
      RunFollows(hasher, cacheSize, HandlerStep(hasher, cacheSize, w, ops[0]), Tick(last, ops[0]), ops[1..], shard);
    }
  }

  /**
   * Three-view agreement: after every run, whatever failed, a shard agrees in all views exactly if the last
   * state written to it is the last one the disk took, or, if the disk took none, the one it agreed on
   * before. A shard nobody wrote looks as before, whatever happened to others.
   */
  lemma RunAgrees(hasher: StateHasher, cacheSize: nat, w: World, last: int, ops: seq<HandlerOp>, shard: ShardIdentifier)
    requires cacheSize > 0 && Consistent(w.store) && NotNewer(w.store.files, last) && FreshWrites(last, ops)
    ensures var w' := HandlerRun(hasher, cacheSize, w, ops);
      var writings := LastWritings(hasher, cacheSize, w, ops, shard);
      && (writings.stored.Some? ==> (Agrees(hasher, w', shard) <==> writings.tried == writings.stored))
      && (writings.tried.Some? && writings.stored.None? && Agrees(hasher, w, shard) ==>
            (Agrees(hasher, w', shard) <==> writings.tried.value == w.states[shard].0.state))
      && (writings.tried.None? ==> SameInMap(w, w', shard) && SameInStore(w, w', shard))
      && (writings.tried.None? && Agrees(hasher, w, shard) ==> Agrees(hasher, w', shard))
  {
    RunFollows(hasher, cacheSize, w, last, ops, shard);
    StoredWasTried(hasher, cacheSize, w, ops, shard);
  }

  lemma {:induction false} StoredWasTried(hasher: StateHasher, cacheSize: nat, w: World, ops: seq<HandlerOp>,
      shard: ShardIdentifier)
    ensures var writings := LastWritings(hasher, cacheSize, w, ops, shard);
      && (writings.stored.Some? ==> writings.tried.Some?)
      && ((forall i :: 0 <= i < |ops| && !ops[i].Observe? ==> ops[i].diskOk) ==> writings.tried == writings.stored)
    decreases |ops|
  {
    hide HandlerStep;
    if |ops| > 0 {
      StoredWasTried(hasher, cacheSize, HandlerStep(hasher, cacheSize, w, ops[0]), ops[1..], shard);
    }
  }

  // ---------- Restart ----------

  function LatestStates(hasher: StateHasher, s: Store): StatesMap {
    map shard | shard in s.history && LoadLatest(s, shard).Ok? ::
      (LoadLatest(s, shard).value, hasher(LoadLatest(s, shard).value.state))
  }

  /** Handler and observer as they are set up over a loaded repository. */
  function Startup(hasher: StateHasher, s: Store): World {
    var states := LatestStates(hasher, s);
    World(states, s, Observer(map[], map shard | shard in states :: states[shard].0))
  }

  /** A store from start-up on: its files are exactly its history, and every recorded hash is honest. */
  ghost predicate Sound(hasher: StateHasher, s: Store) {
    && Consistent(s) && Exact(s)
    && forall shard :: shard in s.history ==> HonestShard(hasher, s.files[shard], s.history[shard])
  }

  lemma StartupShard(hasher: StateHasher, s: Store, shard: ShardIdentifier)
    requires Consistent(s) && shard in s.history && HonestShard(hasher, s.files[shard], s.history[shard])
    ensures LoadLatest(s, shard).Ok? && Agrees(hasher, Startup(hasher, s), shard)
  {
    LatestIsHead(s, shard);
  }

  /** Right after start-up over any files, the store is sound and all views of every shard agree. */
  lemma StartupAgrees(hasher: StateHasher, initial: SgxExternalities, files: RootDirectory, s: Store)
    requires Recovered(hasher, initial, files, s)
    ensures Sound(hasher, s) && Startup(hasher, s).states.Keys == files.Keys
    ensures forall shard :: shard in files ==> Agrees(hasher, Startup(hasher, s), shard)
  {
    hide Backed, HonestShard, LoadLatest, LoadedShard, Agrees;
    RecoveredIsSound(hasher, initial, files, s);
    forall shard | shard in s.history
      ensures LoadLatest(s, shard).Ok? && Agrees(hasher, Startup(hasher, s), shard)
    {
      StartupShard(hasher, s, shard);
    }
  }

  lemma HonestPush(hasher: StateHasher, cacheSize: nat, dir: ShardDirectory, dir': ShardDirectory,
      snapshots: seq<Metadata>, id: StateId, inner: Storage)
    requires cacheSize > 0 && Backed(dir, snapshots) && HonestShard(hasher, dir, snapshots)
    requires forall x :: x in dir ==> x < id
    requires var pushed := [Metadata(hasher(inner), id)] + snapshots;
      dir' == dir[id := Entry(hasher(inner), inner)] - (Ids(pushed[..0]) + Ids(pushed[|Take(pushed, cacheSize)|..]))
    ensures HonestShard(hasher, dir', Take([Metadata(hasher(inner), id)] + snapshots, cacheSize))
  {
    hide View, Decreasing, Ids;
    var m := Metadata(hasher(inner), id);
    var kept := Take([m] + snapshots, cacheSize);
    PushAndPrune(cacheSize, dir, dir', snapshots, m, Entry(hasher(inner), inner));
    forall i | 0 <= i < |kept|
      ensures kept[i].id in dir' && kept[i].hash == hasher(dir'[kept[i].id].inner)
    {
      ViewAt(dir', kept, i);
      if i > 0 {
        ViewAt(dir, snapshots, i - 1);
        assert kept[i] == snapshots[i - 1];
      }
    }
  }

  lemma HonestUpdate(hasher: StateHasher, cacheSize: nat, s: Store, last: int, shard: ShardIdentifier,
      state: SgxExternalities, id: StateId)
    requires cacheSize > 0 && Consistent(s) && NotNewer(s.files, last) && last < id
    requires shard in s.files ==> shard in s.history && HonestShard(hasher, s.files[shard], s.history[shard])
    ensures var s' := Update(hasher, cacheSize, s, shard, state, hasher(state.state), id);
      shard in s'.files && shard in s'.history && HonestShard(hasher, s'.files[shard], s'.history[shard])
  {
    if shard in s.history {
      hide Update, HonestShard, Backed;
      var s' := Update(hasher, cacheSize, s, shard, state, hasher(state.state), id);
      UpdateShard(hasher, cacheSize, s, shard, state, hasher(state.state), id);
      HonestPush(hasher, cacheSize, s.files[shard], s'.files[shard], s.history[shard], id, state.state);
    }
  }

  lemma StepSound(hasher: StateHasher, cacheSize: nat, w: World, last: int, op: HandlerOp)
    requires cacheSize > 0 && Sound(hasher, w.store) && NotNewer(w.store.files, last) && FreshWrites(last, [op])
    ensures var w' := HandlerStep(hasher, cacheSize, w, op);
      Sound(hasher, w'.store) && NotNewer(w'.store.files, Tick(last, op))
  {
    hide Backed, HonestShard, Follows, Update, Ids, LoadLatest, Observed;
    var w' := HandlerStep(hasher, cacheSize, w, op);
    StepFollows(hasher, cacheSize, w, last, op, op.shard);
    if Writes(w, op) && op.diskOk {
      var pruned := PruneDiff(NewState(w, op));
      HonestUpdate(hasher, cacheSize, w.store, last, op.shard, pruned, op.id);
      StepExact(hasher, cacheSize, w.store, last, UpdateOp(op.shard, pruned, hasher(pruned.state), op.id));
      forall shard | shard in w'.store.history && shard != op.shard
        ensures HonestShard(hasher, w'.store.files[shard], w'.store.history[shard])
      {
        UpdateFrame(hasher, cacheSize, w.store, op.shard, pruned, hasher(pruned.state), op.id, shard);
      }
    }
  }

  lemma {:induction false} RunSound(hasher: StateHasher, cacheSize: nat, w: World, last: int, ops: seq<HandlerOp>)
    requires cacheSize > 0 && Sound(hasher, w.store) && NotNewer(w.store.files, last) && FreshWrites(last, ops)
    ensures Sound(hasher, HandlerRun(hasher, cacheSize, w, ops).store)
    decreases |ops|
  {
    hide Sound, HandlerStep;
    if |ops| > 0 {
      StepSound(hasher, cacheSize, w, last, ops[0]);
      RunSound(hasher, cacheSize, HandlerStep(hasher, cacheSize, w, ops[0]), Tick(last, ops[0]), ops[1..]);
    }
  }

  lemma ReloadShard(hasher: StateHasher, initial: SgxExternalities, s: Store, s': Store, shard: ShardIdentifier)
    requires Sound(hasher, s) && shard in s.history && shard in s'.files && shard in s'.history
    requires LoadedShard(hasher, initial, s.files[shard], s'.files[shard], s'.history[shard])
    ensures s'.files[shard] == s.files[shard] && s'.history[shard] == s.history[shard]
  {
    assert s.history[shard][0].id in s.files[shard];
    RecoveredStartsWithHistory(hasher, s.files[shard], s.history[shard], s'.history[shard]);
  }

  /** Loading the files of a sound store gives back that store, whatever the initialiser would have written. */
  lemma ReloadIsIdentity(hasher: StateHasher, initial: SgxExternalities, s: Store, s': Store)
    requires Sound(hasher, s) && Recovered(hasher, initial, s.files, s')
    ensures s' == s
  {
    hide LoadedShard, Consistent, HonestShard;
    forall shard | shard in s.files
      ensures s'.files[shard] == s.files[shard] && s'.history[shard] == s.history[shard]
    {
      ReloadShard(hasher, initial, s, s', shard);
    }
    assert s'.files == s.files;
    assert s'.history == s.history;
  }

  function Entered(states: StatesMap, shard: ShardIdentifier): Option<(SgxExternalities, H256)> {
    if shard in states then Some(states[shard]) else None
  }

  function After(hasher: StateHasher, before: Option<(SgxExternalities, H256)>, writing: Option<Storage>)
      : Option<(SgxExternalities, H256)> {
    if writing.Some? then Some((FromStorage(writing.value), hasher(writing.value))) else before
  }

  /**
   * Restart agreement: start up over any files, run any handler operations with any snapshot writes failing,
   * and start up again over the files left behind. The repository is what it was, and a shard has lost
   * exactly the writes after the last one the disk took.
   */
  lemma RestartAgreement(hasher: StateHasher, cacheSize: nat, initial: SgxExternalities, files: RootDirectory,
      loaded: Store, last: int, ops: seq<HandlerOp>, initial': SgxExternalities, reloaded: Store,
      shard: ShardIdentifier)
    requires cacheSize > 0 && Recovered(hasher, initial, files, loaded) && NotNewer(loaded.files, last)
      && FreshWrites(last, ops)
    requires Recovered(hasher, initial', HandlerRun(hasher, cacheSize, Startup(hasher, loaded), ops).store.files,
      reloaded)
    ensures var start := Startup(hasher, loaded);
      var w, again := HandlerRun(hasher, cacheSize, start, ops), Startup(hasher, reloaded);
      var writings := LastWritings(hasher, cacheSize, start, ops, shard);
      && reloaded == w.store
      && Entered(w.states, shard) == After(hasher, Entered(start.states, shard), writings.tried)
      && Entered(again.states, shard) == After(hasher, Entered(start.states, shard), writings.stored)
  {
    hide Sound, Recovered, HandlerRun, LastWritings, Agrees, LoadLatest, Observed;
    var start := Startup(hasher, loaded);
    var w := HandlerRun(hasher, cacheSize, start, ops);
    StartupAgrees(hasher, initial, files, loaded);
    SoundConsistent(hasher, loaded);
    RunSound(hasher, cacheSize, start, last, ops);
    ReloadIsIdentity(hasher, initial', w.store, reloaded);
    RunFollows(hasher, cacheSize, start, last, ops, shard);
    KnownIfLoads(w.store, shard);
  }

  lemma SoundConsistent(hasher: StateHasher, s: Store)
    requires Sound(hasher, s)
    ensures Consistent(s)
  {
  }

  lemma KnownIfLoads(s: Store, shard: ShardIdentifier)
    ensures LoadLatest(s, shard).Ok? ==> shard in s.history
  {
  }

  /** If every snapshot could be written, the whole states map is what it was. */
  lemma RestartIsIdentity(hasher: StateHasher, cacheSize: nat, initial: SgxExternalities, files: RootDirectory,
      loaded: Store, last: int, ops: seq<HandlerOp>, initial': SgxExternalities, reloaded: Store)
    requires cacheSize > 0 && Recovered(hasher, initial, files, loaded) && NotNewer(loaded.files, last)
      && FreshWrites(last, ops)
    requires Recovered(hasher, initial', HandlerRun(hasher, cacheSize, Startup(hasher, loaded), ops).store.files,
      reloaded)
    requires forall i :: 0 <= i < |ops| && !ops[i].Observe? ==> ops[i].diskOk
    ensures var w := HandlerRun(hasher, cacheSize, Startup(hasher, loaded), ops);
      reloaded == w.store && Startup(hasher, reloaded).states == w.states
  {
    hide Recovered, HandlerRun, LastWritings, Startup, FreshWrites;
    var start := Startup(hasher, loaded);
    var w, again := HandlerRun(hasher, cacheSize, start, ops), Startup(hasher, reloaded);
    RestartAgreement(hasher, cacheSize, initial, files, loaded, last, ops, initial', reloaded, 0);
    forall shard: ShardIdentifier
      ensures Entered(again.states, shard) == Entered(w.states, shard)
    {
      RestartAgreement(hasher, cacheSize, initial, files, loaded, last, ops, initial', reloaded, shard);
      StoredWasTried(hasher, cacheSize, start, ops, shard);
    }
    SameEntries(again.states, w.states);
  }

  lemma SameEntries(a: StatesMap, b: StatesMap)
    requires forall shard: ShardIdentifier :: Entered(a, shard) == Entered(b, shard)
    ensures a == b
  {
    assert forall shard: ShardIdentifier :: shard in a ==> Entered(a, shard) == Entered(b, shard);
    assert forall shard: ShardIdentifier :: shard in b ==> Entered(a, shard) == Entered(b, shard);
  }

  /**
   * The clock behind the ids may go back. An update under an unused id is what a restart finds exactly
   * when its id is later than the snapshot it replaces, or when the repository keeps only one snapshot.
   */
  lemma RestartFindsUpdateIff(hasher: StateHasher, cacheSize: nat, s: Store, shard: ShardIdentifier,
      state: SgxExternalities, id: StateId, recovered: seq<Metadata>)
    requires cacheSize > 0 && Consistent(s) && Exact(s) && shard in s.history && id !in s.files[shard]
    requires RecoveredShard(hasher, Update(hasher, cacheSize, s, shard, state, hasher(state.state), id).files[shard],
      recovered)
    ensures recovered != [] && (recovered[0].id == id <==> s.history[shard][0].id < id || cacheSize == 1)
  {
    hide Update;
    var s' := Update(hasher, cacheSize, s, shard, state, hasher(state.state), id);
    UpdateShard(hasher, cacheSize, s, shard, state, hasher(state.state), id);
    UpdatedFiles(hasher, cacheSize, s, shard, state, id);
    NewestRecovered(hasher, s'.files[shard], recovered, id);
    NewestRecovered(hasher, s'.files[shard], recovered, s.history[shard][0].id);
  }

  lemma NewestRecovered(hasher: StateHasher, dir: ShardDirectory, recovered: seq<Metadata>, id: StateId)
    requires RecoveredShard(hasher, dir, recovered)
    ensures id in dir ==> recovered != [] && recovered[0].id in dir && id <= recovered[0].id
  {
    assert id in dir ==> id in Ids(recovered);
    assert recovered != [] ==> recovered[0].id in Ids(recovered);
  }

  /** After an update under an unused id the new file is there, and the newest old one unless only one is kept. */
  lemma UpdatedFiles(hasher: StateHasher, cacheSize: nat, s: Store, shard: ShardIdentifier,
      state: SgxExternalities, id: StateId)
    requires cacheSize > 0 && Consistent(s) && Exact(s) && shard in s.history && id !in s.files[shard]
    ensures var newest := s.history[shard][0].id;
      var dir := Update(hasher, cacheSize, s, shard, state, hasher(state.state), id).files[shard];
      && newest != id && id in dir && (newest in dir <==> cacheSize > 1)
      && forall other :: other in dir && other != id ==> other <= newest && cacheSize > 1
  {
    hide Update, Backed, Ids, Take;
    UpdateShard(hasher, cacheSize, s, shard, state, hasher(state.state), id);
    UpdatedDirectory(cacheSize, s.files[shard],
      Update(hasher, cacheSize, s, shard, state, hasher(state.state), id).files[shard], s.history[shard],
      Metadata(hasher(state.state), id), Entry(hasher(state.state), state.state));
  }

  lemma UpdatedDirectory(cacheSize: nat, dir: ShardDirectory, dir': ShardDirectory, snapshots: seq<Metadata>,
      m: Metadata, entry: Entry)
    requires cacheSize > 0 && Backed(dir, snapshots) && dir.Keys == Ids(snapshots) && m.id !in dir
    requires var pushed := [m] + snapshots;
      dir' == dir[m.id := entry] - (Ids(pushed[..0]) + Ids(pushed[|Take(pushed, cacheSize)|..]))
    ensures var newest := snapshots[0].id;
      && newest != m.id && m.id in dir' && (newest in dir' <==> cacheSize > 1)
      && forall other :: other in dir' && other != m.id ==> other <= newest && cacheSize > 1
  {
    var pushed := [m] + snapshots;
    var kept := |Take(pushed, cacheSize)|;
    var dropped := pushed[kept..];
    assert forall i :: 0 <= i < |dropped| ==> dropped[i] == snapshots[kept - 1 + i];
    assert pushed[..0] == [] && Ids([]) == {};
    assert cacheSize == 1 ==> dropped == snapshots;
    assert cacheSize > 1 ==> snapshots[0].id !in Ids(dropped);
  }

  /** The clock goes back from 10 to 5 between two states: a restart finds the first one again. */
  lemma ClockBackExample(hasher: StateHasher, first: Storage, second: Storage, initial: SgxExternalities, s': Store)
    requires first != second
    requires var s := Update(hasher, 2, OneSnapshot(hasher, first, 10), 1, FromStorage(second), hasher(second), 5);
      Recovered(hasher, initial, s.files, s')
    ensures var s := Update(hasher, 2, OneSnapshot(hasher, first, 10), 1, FromStorage(second), hasher(second), 5);
      LoadLatest(s, 1) == Ok(FromStorage(second)) && LoadLatest(s', 1) == Ok(FromStorage(first))
  {
    hide Update, HonestShard, Decreasing;
    var s0 := OneSnapshot(hasher, first, 10);
    var s := Update(hasher, 2, s0, 1, FromStorage(second), hasher(second), 5);
    OneSnapshotIsConsistent(hasher, first, 10);
    TwoSnapshots(hasher, first, second);
    assert 1 in s.files && 10 in s.files[1];
    assert LoadedShard(hasher, initial, s.files[1], s'.files[1], s'.history[1]);
    RestartFindsUpdateIff(hasher, 2, s0, 1, FromStorage(second), 5, s'.history[1]);
    assert s'.history[1][0].id in Ids(s'.history[1]);
  }

  lemma TwoSnapshots(hasher: StateHasher, first: Storage, second: Storage)
    ensures var s := Update(hasher, 2, OneSnapshot(hasher, first, 10), 1, FromStorage(second), hasher(second), 5);
      && s.files == map[1 := map[10 := Entry(hasher(first), first), 5 := Entry(hasher(second), second)]]
      && s.history == map[1 := [Metadata(hasher(second), 5), Metadata(hasher(first), 10)]]
  {
    var s := Update(hasher, 2, OneSnapshot(hasher, first, 10), 1, FromStorage(second), hasher(second), 5);
    assert s.history[1] == [Metadata(hasher(second), 5), Metadata(hasher(first), 10)];
    assert s.files[1] == map[10 := Entry(hasher(first), first), 5 := Entry(hasher(second), second)];
    assert s.files.Keys == s.history.Keys == {1};
  }

  /** A failed write: the states map has the new state, the newest snapshot and the observer have the old one. */
  lemma FailedWriteExample(hasher: StateHasher, first: Storage, second: Storage)
    requires first != second
    ensures var w := HandlerRun(hasher, 2, Startup(hasher, OneSnapshot(hasher, first, 10)),
        [Reset(1, FromStorage(second), 11, false)]);
      && Entered(w.states, 1) == Some((FromStorage(second), hasher(second)))
      && LoadLatest(w.store, 1) == Ok(FromStorage(first)) && Observed(w.observer, 1) == Ok(FromStorage(first))
  {
    var op := Reset(1, FromStorage(second), 11, false);
    var w := Startup(hasher, OneSnapshot(hasher, first, 10));
    assert [op][1..] == [];
    assert HandlerRun(hasher, 2, w, [op]) == HandlerStep(hasher, 2, w, op);
  }
}
