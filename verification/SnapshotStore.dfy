/** The snapshot repository as a value: the history of every shard and the files behind it. */
module SnapshotStore {
  import opened Prelude
  import opened Externalities
  import opened StateFiles

  /** Hash and state id of one snapshot. */
  datatype Metadata = Metadata(hash: H256, id: StateId)
  type SnapshotHistory = map<ShardIdentifier, seq<Metadata>>

  datatype Store = Store(files: RootDirectory, history: SnapshotHistory)

  function Ids(snapshots: seq<Metadata>): set<StateId> {
    set i | 0 <= i < |snapshots| :: snapshots[i].id
  }

  /** Index of the newest snapshot with the given hash. */
  function Position(snapshots: seq<Metadata>, hash: H256): (r: Option<nat>)
    ensures r.None? <==> forall m :: m in snapshots ==> m.hash != hash
    ensures r.Some? ==> r.value < |snapshots| && snapshots[r.value].hash == hash
    ensures r.Some? ==> forall i :: 0 <= i < r.value ==> snapshots[i].hash != hash
  {
    if snapshots == [] then None
    else if snapshots[0].hash == hash then Some(0)
    else match Position(snapshots[1..], hash)
      case None => None
      case Some(i) => Some(i + 1)
  }

  function LoadLatest(s: Store, shard: ShardIdentifier): Result<SgxExternalities, Error> {
    if shard !in s.history then Err(InvalidShard(shard))
    else if s.history[shard] == [] then Err(EmptyRepository)
    else Load(s.files, shard, s.history[shard][0].id)
  }

  function InitializeNewShard(hasher: StateHasher, s: Store, shard: ShardIdentifier, state: SgxExternalities,
      id: StateId): Store {
    var files := Initialized(hasher, s.files, shard, id, state);
    Store(files, s.history[shard := [Metadata(DirectoryOf(files, shard)[id].hash, id)]])
  }

  function Update(hasher: StateHasher, cacheSize: nat, s: Store, shard: ShardIdentifier, state: SgxExternalities,
      hash: H256, id: StateId): Store {
    if shard !in s.history then InitializeNewShard(hasher, s, shard, state, id)
    else
      var pushed := [Metadata(hash, id)] + s.history[shard];
      var files := Written(hasher, s.files, shard, id, state);
      if |pushed| > cacheSize then
        Store(Without(files, shard, Ids(pushed[cacheSize..])), s.history[shard := pushed[..cacheSize]])
      else
        Store(files, s.history[shard := pushed])
  }

  function RevertTo(s: Store, shard: ShardIdentifier, hash: H256): (Result<SgxExternalities, Error>, Store) {
    if shard !in s.history then (Err(InvalidShard(shard)), s)
    else
      var snapshots := s.history[shard];
      match Position(snapshots, hash)
      case None => (Err(StateNotFoundInRepository(hash)), s)
      case Some(i) =>
        match Load(s.files, shard, snapshots[i].id)
        case Err(e) => (Err(e), s)
        case Ok(state) =>
          (Ok(state), Store(Without(s.files, shard, Ids(snapshots[..i])), s.history[shard := snapshots[i..]]))
  }

  // ---------- Runs ----------

  datatype Op =
    | UpdateOp(shard: ShardIdentifier, state: SgxExternalities, hash: H256, id: StateId)
    | InitializeOp(shard: ShardIdentifier, state: SgxExternalities, id: StateId)
    | RevertOp(shard: ShardIdentifier, hash: H256)
    | LoadLatestOp(shard: ShardIdentifier)

  /** What the caller of an operation gets back; updates and initialisations always succeed on these files. */
  datatype Reply = Done | Loaded(result: Result<SgxExternalities, Error>)

  function Step(hasher: StateHasher, cacheSize: nat, s: Store, op: Op): (Reply, Store) {
    match op
    case UpdateOp(shard, state, hash, id) => (Done, Update(hasher, cacheSize, s, shard, state, hash, id))
    case InitializeOp(shard, state, id) => (Done, InitializeNewShard(hasher, s, shard, state, id))
    case RevertOp(shard, hash) => var (r, s') := RevertTo(s, shard, hash); (Loaded(r), s')
    case LoadLatestOp(shard) => (Loaded(LoadLatest(s, shard)), s)
  }

  function Run(hasher: StateHasher, cacheSize: nat, s: Store, ops: seq<Op>): (seq<Reply>, Store)
    decreases |ops|
  {
    if ops == [] then ([], s)
    else
      var (r, s') := Step(hasher, cacheSize, s, ops[0]);
      var (rs, s'') := Run(hasher, cacheSize, s', ops[1..]);
      ([r] + rs, s'')
  }

  /** The clock ticks: every id handed out is greater than `last` and than every id handed out before it. */
  predicate FreshIds(last: int, ops: seq<Op>)
    decreases |ops|
  {
    ops == [] ||
    if ops[0].UpdateOp? || ops[0].InitializeOp? then last < ops[0].id && FreshIds(ops[0].id, ops[1..])
    else FreshIds(last, ops[1..])
  }

  function Clock(last: int, op: Op): int {
    if op.UpdateOp? || op.InitializeOp? then op.id else last
  }

  // ---------- What every operation keeps ----------

  /** A history newest first: ids strictly decrease. */
  ghost predicate Decreasing(snapshots: seq<Metadata>) {
    forall i, j :: 0 <= i < j < |snapshots| ==> snapshots[i].id > snapshots[j].id
  }

  /** Every snapshot of the history has its file, and files outside the history are older than all of it. */
  ghost predicate Backed(dir: ShardDirectory, snapshots: seq<Metadata>) {
    && snapshots != []
    && Decreasing(snapshots)
    && (forall i :: 0 <= i < |snapshots| ==> snapshots[i].id in dir)
    && (forall id :: id in dir ==> id in Ids(snapshots) || id < snapshots[|snapshots| - 1].id)
  }

  ghost predicate Consistent(s: Store) {
    forall shard :: shard in s.history ==> shard in s.files && Backed(s.files[shard], s.history[shard])
  }

  /** No file carries an id newer than `last`. */
  ghost predicate NotNewer(files: RootDirectory, last: int) {
    forall shard, id :: shard in files && id in files[shard] ==> id <= last
  }


  // ---------- The simple model ----------

  datatype Version = Version(hash: H256, inner: Storage)
  type Versions = map<ShardIdentifier, seq<Version>>

  function DropUntil(vs: seq<Version>, hash: H256): (r: seq<Version>)
    ensures |r| <= |vs| && r == vs[|vs| - |r|..]
  {
    if vs == [] || vs[0].hash == hash then vs else DropUntil(vs[1..], hash)
  }

  function VersionsStep(hasher: StateHasher, cacheSize: nat, v: Versions, op: Op): (Reply, Versions) {
    match op
    case UpdateOp(shard, state, hash, _) =>
      (Done,
       if shard in v then v[shard := Take([Version(hash, state.state)] + v[shard], cacheSize)]
       else v[shard := [Version(hasher(state.state), state.state)]])
    case InitializeOp(shard, state, _) => (Done, v[shard := [Version(hasher(state.state), state.state)]])
    case RevertOp(shard, hash) =>
      if shard !in v then (Loaded(Err(InvalidShard(shard))), v)
      else
        var kept := DropUntil(v[shard], hash);
        if kept == [] then (Loaded(Err(StateNotFoundInRepository(hash))), v)
        else (Loaded(Ok(FromStorage(kept[0].inner))), v[shard := kept])
    case LoadLatestOp(shard) =>
      (Loaded(if shard !in v then Err(InvalidShard(shard))
              else if v[shard] == [] then Err(EmptyRepository)
              else Ok(FromStorage(v[shard][0].inner))), v)
  }

  function VersionsRun(hasher: StateHasher, cacheSize: nat, v: Versions, ops: seq<Op>): (seq<Reply>, Versions)
    decreases |ops|
  {
    if ops == [] then ([], v)
    else
      var (r, v') := VersionsStep(hasher, cacheSize, v, ops[0]);
      var (rs, v'') := VersionsRun(hasher, cacheSize, v', ops[1..]);
      ([r] + rs, v'')
  }

  /** What the snapshots of one shard hold when each is loaded from its own file. */
  ghost function View(dir: ShardDirectory, snapshots: seq<Metadata>): (r: seq<Version>)
    requires forall i :: 0 <= i < |snapshots| ==> snapshots[i].id in dir
    ensures |r| == |snapshots|
  {
    seq(|snapshots|, i requires 0 <= i < |snapshots| => Version(snapshots[i].hash, dir[snapshots[i].id].inner))
  }

  lemma ViewAt(dir: ShardDirectory, snapshots: seq<Metadata>, i: nat)
    requires forall i :: 0 <= i < |snapshots| ==> snapshots[i].id in dir
    requires i < |snapshots|
    ensures View(dir, snapshots)[i] == Version(snapshots[i].hash, dir[snapshots[i].id].inner)
  {
  }

  ghost function Abstract(s: Store): Versions
    requires Consistent(s)
  {
    map shard | shard in s.history :: View(s.files[shard], s.history[shard])
  }

  // ---------- Refinement ----------

  lemma PushIds(snapshots: seq<Metadata>, m: Metadata)
    ensures Ids([m] + snapshots) == {m.id} + Ids(snapshots)
  {
    var pushed := [m] + snapshots;
    assert pushed[0] == m;
    assert forall i :: 0 <= i < |snapshots| ==> pushed[i + 1] == snapshots[i];
  }

  lemma PushView(dir: ShardDirectory, snapshots: seq<Metadata>, m: Metadata, entry: Entry)
    requires forall i :: 0 <= i < |snapshots| ==> snapshots[i].id in dir && snapshots[i].id != m.id
    ensures View(dir[m.id := entry], [m] + snapshots) == [Version(m.hash, entry.inner)] + View(dir, snapshots)
  {
    var pushed := [m] + snapshots;
    assert forall i :: 0 < i < |pushed| ==> pushed[i] == snapshots[i - 1];
  }

  /** Pushing a snapshot newer than every file keeps the directory and the history in step. */
  lemma Push(dir: ShardDirectory, snapshots: seq<Metadata>, m: Metadata, entry: Entry)
    requires Backed(dir, snapshots)
    requires forall id :: id in dir ==> id < m.id
    ensures Backed(dir[m.id := entry], [m] + snapshots)
    ensures View(dir[m.id := entry], [m] + snapshots) == [Version(m.hash, entry.inner)] + View(dir, snapshots)
  {
    hide View, Ids;
    var pushed := [m] + snapshots;
    assert forall i :: 0 < i < |pushed| ==> pushed[i] == snapshots[i - 1] && pushed[i].id < m.id;
    PushIds(snapshots, m);
    PushView(dir, snapshots, m, entry);
  }

  /** Cutting a history in three splits its ids in three. */
  lemma SliceIds(snapshots: seq<Metadata>, lo: nat, hi: nat)
    requires lo <= hi <= |snapshots| && Decreasing(snapshots)
    ensures Ids(snapshots[lo..hi]) == Ids(snapshots) - (Ids(snapshots[..lo]) + Ids(snapshots[hi..]))
  {
    var kept, newer, older := snapshots[lo..hi], snapshots[..lo], snapshots[hi..];
    assert forall i :: 0 <= i < |kept| ==> kept[i] == snapshots[lo + i];
    forall i | 0 <= i < |snapshots|
      ensures snapshots[i].id in Ids(newer) <==> i < lo
      ensures snapshots[i].id in Ids(kept) <==> lo <= i < hi
      ensures snapshots[i].id in Ids(older) <==> hi <= i
    {
      assert i < lo ==> newer[i] == snapshots[i];
      assert lo <= i < hi ==> kept[i - lo] == snapshots[i];
      assert hi <= i ==> older[i - hi] == snapshots[i];
    }
  }

  lemma SliceView(dir: ShardDirectory, dir': ShardDirectory, snapshots: seq<Metadata>, lo: nat, hi: nat)
    requires lo <= hi <= |snapshots|
    requires forall i :: 0 <= i < |snapshots| ==> snapshots[i].id in dir
    requires forall i :: lo <= i < hi ==> snapshots[i].id in dir' && dir'[snapshots[i].id] == dir[snapshots[i].id]
    ensures View(dir', snapshots[lo..hi]) == View(dir, snapshots)[lo..hi]
  {
    var kept := snapshots[lo..hi];
    assert forall i :: 0 <= i < |kept| ==> kept[i] == snapshots[lo + i];
  }

  /** Dropping both ends of a history with their files keeps the middle and what it holds. */
  lemma KeepSlice(dir: ShardDirectory, dir': ShardDirectory, snapshots: seq<Metadata>, lo: nat, hi: nat)
    requires Backed(dir, snapshots)
    requires lo < hi <= |snapshots|
    requires dir' == dir - (Ids(snapshots[..lo]) + Ids(snapshots[hi..]))
    ensures Backed(dir', snapshots[lo..hi])
    ensures View(dir', snapshots[lo..hi]) == View(dir, snapshots)[lo..hi]
    ensures dir.Keys == Ids(snapshots) ==> dir'.Keys == Ids(snapshots[lo..hi])
  {
    hide View;
    SliceIds(snapshots, lo, hi);
    var kept := snapshots[lo..hi];
    forall i | lo <= i < hi
      ensures snapshots[i].id in dir'
    {
      assert kept[i - lo].id in Ids(kept);
    }
    SliceView(dir, dir', snapshots, lo, hi);
  }

  lemma {:induction false} DropUntilPosition(dir: ShardDirectory, snapshots: seq<Metadata>, hash: H256)
    requires forall i :: 0 <= i < |snapshots| ==> snapshots[i].id in dir
    ensures match Position(snapshots, hash)
      case None => DropUntil(View(dir, snapshots), hash) == []
      case Some(i) => DropUntil(View(dir, snapshots), hash) == View(dir, snapshots)[i..]
  {
    var view := View(dir, snapshots);
    if snapshots != [] && snapshots[0].hash != hash {
      DropUntilPosition(dir, snapshots[1..], hash);
      assert view[1..] == View(dir, snapshots[1..]);
    }
  }

  /** One shard's part of the store after an operation on that shard. */
  lemma FrameOtherShards(s: Store, s': Store, shard: ShardIdentifier)
    requires Consistent(s)
    requires shard in s'.files && shard in s'.history
    requires s'.files == s.files[shard := s'.files[shard]] && s'.history == s.history[shard := s'.history[shard]]
    requires Backed(s'.files[shard], s'.history[shard])
    ensures Consistent(s')
    ensures Abstract(s') == Abstract(s)[shard := View(s'.files[shard], s'.history[shard])]
  {
    hide Backed, View;
  }

  /** One shard's share of an update. */
  lemma PushAndPrune(cacheSize: nat, dir: ShardDirectory, dir': ShardDirectory, snapshots: seq<Metadata>,
      m: Metadata, entry: Entry)
    requires cacheSize > 0 && Backed(dir, snapshots)
    requires forall id :: id in dir ==> id < m.id
    requires var pushed := [m] + snapshots;
      dir' == dir[m.id := entry] - (Ids(pushed[..0]) + Ids(pushed[|Take(pushed, cacheSize)|..]))
    ensures var kept := Take([m] + snapshots, cacheSize);
      && Backed(dir', kept)
      && View(dir', kept) == Take([Version(m.hash, entry.inner)] + View(dir, snapshots), cacheSize)
      && (dir.Keys == Ids(snapshots) ==> dir'.Keys == Ids(kept))
  {
    hide View, Ids, Decreasing;
    var pushed := [m] + snapshots;
    var kept := Take(pushed, cacheSize);
    Push(dir, snapshots, m, entry);
    PushIds(snapshots, m);
    KeepSlice(dir[m.id := entry], dir', pushed, 0, |kept|);
    assert kept == pushed[0..|kept|];
  }

  lemma UpdateShard(hasher: StateHasher, cacheSize: nat, s: Store, shard: ShardIdentifier, state: SgxExternalities,
      hash: H256, id: StateId)
    requires cacheSize > 0 && shard in s.history && shard in s.files
    ensures var s' := Update(hasher, cacheSize, s, shard, state, hash, id);
      var pushed := [Metadata(hash, id)] + s.history[shard];
      && shard in s'.files && shard in s'.history
      && s'.files == s.files[shard := s'.files[shard]] && s'.history == s.history[shard := s'.history[shard]]
      && s'.history[shard] == Take(pushed, cacheSize)
      && s'.files[shard] == s.files[shard][id := Entry(hasher(state.state), state.state)]
                             - (Ids(pushed[..0]) + Ids(pushed[|Take(pushed, cacheSize)|..]))
  {
  }

  lemma UpdateRefines(hasher: StateHasher, cacheSize: nat, s: Store, last: int, shard: ShardIdentifier,
      state: SgxExternalities, hash: H256, id: StateId)
    requires cacheSize > 0 && Consistent(s) && NotNewer(s.files, last) && last < id
    requires shard in s.history
    ensures var s' := Update(hasher, cacheSize, s, shard, state, hash, id);
      && Consistent(s')
      && Abstract(s') == Abstract(s)[shard := Take([Version(hash, state.state)] + Abstract(s)[shard], cacheSize)]
  {
    var s' := Update(hasher, cacheSize, s, shard, state, hash, id);
    UpdateShard(hasher, cacheSize, s, shard, state, hash, id);
    PushAndPrune(cacheSize, s.files[shard], s'.files[shard], s.history[shard], Metadata(hash, id),
      Entry(hasher(state.state), state.state));
    FrameOtherShards(s, s', shard);
  }

  lemma InitializeRefines(hasher: StateHasher, s: Store, last: int, shard: ShardIdentifier,
      state: SgxExternalities, id: StateId)
    requires Consistent(s) && NotNewer(s.files, last) && last < id
    ensures var s' := InitializeNewShard(hasher, s, shard, state, id);
      && Consistent(s')
      && Abstract(s') == Abstract(s)[shard := [Version(hasher(state.state), state.state)]]
  {
    var s' := InitializeNewShard(hasher, s, shard, state, id);
    assert View(s'.files[shard], s'.history[shard]) == [Version(hasher(state.state), state.state)];
    FrameOtherShards(s, s', shard);
  }

  /** One shard's share of a revert that finds its target. */
  lemma RevertShard(s: Store, shard: ShardIdentifier, hash: H256)
    requires shard in s.history && shard in s.files && Backed(s.files[shard], s.history[shard])
    requires Position(s.history[shard], hash).Some?
    ensures var (r, s') := RevertTo(s, shard, hash);
      var snapshots, i := s.history[shard], Position(s.history[shard], hash).value;
      && r == Ok(FromStorage(s.files[shard][snapshots[i].id].inner))
      && shard in s'.files && shard in s'.history
      && s'.files == s.files[shard := s'.files[shard]] && s'.history == s.history[shard := s'.history[shard]]
      && s'.history[shard] == snapshots[i..|snapshots|]
      && s'.files[shard] == s.files[shard] - (Ids(snapshots[..i]) + Ids(snapshots[|snapshots|..]))
  {
    assert Ids(s.history[shard][|s.history[shard]|..]) == {};
  }

  lemma RevertRefines(s: Store, shard: ShardIdentifier, hash: H256)
    requires Consistent(s) && shard in s.history
    ensures var (r, s') := RevertTo(s, shard, hash);
      && Consistent(s')
      && var kept := DropUntil(Abstract(s)[shard], hash);
         if kept == [] then r == Err(StateNotFoundInRepository(hash)) && s' == s
         else r == Ok(FromStorage(kept[0].inner)) && Abstract(s') == Abstract(s)[shard := kept]
  {
    hide View, Decreasing, Ids;
    var snapshots := s.history[shard];
    DropUntilPosition(s.files[shard], snapshots, hash);
    if Position(snapshots, hash).Some? {
      var (r, s') := RevertTo(s, shard, hash);
      RevertShard(s, shard, hash);
      KeepSlice(s.files[shard], s'.files[shard], snapshots, Position(snapshots, hash).value, |snapshots|);
      var view := View(s.files[shard], snapshots);
      assert view[..|snapshots|] == view;
      ViewAt(s.files[shard], snapshots, Position(snapshots, hash).value);
      FrameOtherShards(s, s', shard);
    }
  }

  /** Files never get ahead of the clock. */
  lemma StepNotNewer(hasher: StateHasher, cacheSize: nat, s: Store, last: int, op: Op)
    requires NotNewer(s.files, last) && FreshIds(last, [op])
    ensures NotNewer(Step(hasher, cacheSize, s, op).1.files, Clock(last, op))
  {
    var s' := Step(hasher, cacheSize, s, op).1;
    forall shard, id | shard in s'.files && id in s'.files[shard]
      ensures id <= Clock(last, op)
    {
    }
  }

  lemma StepRefines(hasher: StateHasher, cacheSize: nat, s: Store, last: int, op: Op)
    requires cacheSize > 0 && Consistent(s) && NotNewer(s.files, last) && FreshIds(last, [op])
    ensures var (r, s') := Step(hasher, cacheSize, s, op);
      && Consistent(s')
      && (r, Abstract(s')) == VersionsStep(hasher, cacheSize, Abstract(s), op)
  {
    match op
    case UpdateOp(shard, state, hash, id) =>
      if shard in s.history {
        UpdateRefines(hasher, cacheSize, s, last, shard, state, hash, id);
      } else {
        InitializeRefines(hasher, s, last, shard, state, id);
      }
    case InitializeOp(shard, state, id) => InitializeRefines(hasher, s, last, shard, state, id);
    case RevertOp(shard, hash) =>
      if shard in s.history {
        RevertRefines(s, shard, hash);
      }
    case LoadLatestOp(shard) =>
  }

  /**
   * The repository behaves as a plain list of versions per shard: in every run with fresh ids, all
   * replies are those of the simple model, and every kept snapshot still loads its own state.
   */
  lemma {:induction false} RunRefines(hasher: StateHasher, cacheSize: nat, s: Store, last: int, ops: seq<Op>)
    requires cacheSize > 0 && Consistent(s) && NotNewer(s.files, last) && FreshIds(last, ops)
    ensures var (rs, s') := Run(hasher, cacheSize, s, ops);
      && Consistent(s')
      && (rs, Abstract(s')) == VersionsRun(hasher, cacheSize, Abstract(s), ops)
    decreases |ops|
  {
    if ops != [] {
      StepRefines(hasher, cacheSize, s, last, ops[0]);
      StepNotNewer(hasher, cacheSize, s, last, ops[0]);
      var (_, s') := Step(hasher, cacheSize, s, ops[0]);
      RunRefines(hasher, cacheSize, s', Clock(last, ops[0]), ops[1..]);
    }
  }
}
