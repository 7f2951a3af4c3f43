/** The externalities of a shard: the key-value state and the diff recorded since it was last pruned. */
module Externalities {
  import opened Prelude

  type H256 = nat
  type ShardIdentifier = H256

  /** The key-value state itself; nothing here looks inside it. */
  type Storage(==, !new)
  type Key(==, !new)
  type Value(==, !new)
  type StorageDiff = map<Key, Option<Value>>

  datatype SgxExternalities = SgxExternalities(state: Storage, diff: StorageDiff)

  /** The hash of a state covers its key-value pairs only; every result holds for every such function. */
  type StateHasher = Storage -> H256

  function PruneDiff(s: SgxExternalities): SgxExternalities {
    s.(diff := map[])
  }

  /** What a state looks like after it was written to a file and read back. */
  function FromStorage(inner: Storage): SgxExternalities {
    SgxExternalities(inner, map[])
  }
}

/** Snapshot files, one per shard and state id, as kept by the in-memory file store. */
module StateFiles {
  import opened Prelude
  import opened Externalities

  type StateId = nat

  datatype Entry = Entry(hash: H256, inner: Storage)
  type ShardDirectory = map<StateId, Entry>
  type RootDirectory = map<ShardIdentifier, ShardDirectory>

  datatype Error =
    | InvalidShard(shard: ShardIdentifier)
    | InvalidStateId(id: StateId)
    | EmptyRepository
    | StateNotFoundInRepository(hash: H256)
    | ZeroCacheSize
    | Io

  function DirectoryOf(root: RootDirectory, shard: ShardIdentifier): ShardDirectory {
    if shard in root then root[shard] else map[]
  }

  /** Reads back what the file of that shard and id holds; tells an unknown shard from an unknown id. */
  function Load(root: RootDirectory, shard: ShardIdentifier, id: StateId): (r: Result<SgxExternalities, Error>)
    ensures r.Ok? <==> id in DirectoryOf(root, shard)
    ensures r.Err? ==> r.error == if shard in root then InvalidStateId(id) else InvalidShard(shard)
  {
    if shard !in root then Err(InvalidShard(shard))
    else if id !in root[shard] then Err(InvalidStateId(id))
    else Ok(FromStorage(root[shard][id].inner))
  }

  function Written(hasher: StateHasher, root: RootDirectory, shard: ShardIdentifier, id: StateId,
      state: SgxExternalities): RootDirectory {
    root[shard := DirectoryOf(root, shard)[id := Entry(hasher(state.state), state.state)]]
  }

  /** Creates the file of an initial snapshot, unless a file with that id is already there. */
  function Initialized(hasher: StateHasher, root: RootDirectory, shard: ShardIdentifier, id: StateId,
      state: SgxExternalities): RootDirectory {
    if id in DirectoryOf(root, shard) then root else Written(hasher, root, shard, id, state)
  }

  function Without(root: RootDirectory, shard: ShardIdentifier, ids: set<StateId>): RootDirectory {
    if shard in root then root[shard := root[shard] - ids] else root
  }

  lemma WithoutNone(root: RootDirectory, shard: ShardIdentifier)
    ensures Without(root, shard, {}) == root
  {
    if shard in root {
      assert root[shard] - {} == root[shard];
    }
  }

  class InMemoryStateFileIo {
    const hasher: StateHasher
    var root: RootDirectory

    constructor (hasher: StateHasher, shards: seq<ShardIdentifier>)
      ensures this.hasher == hasher
      ensures root == map s | s in shards :: map[]
    {
      this.hasher := hasher;
      this.root := map s | s in shards :: map[];
    }

    method InitializeShard(shard: ShardIdentifier, id: StateId, state: SgxExternalities) returns (hash: H256)
      modifies this
      ensures root == Initialized(hasher, old(root), shard, id, state)
      ensures hash == root[shard][id].hash
      ensures if id in DirectoryOf(old(root), shard) then root == old(root) else hash == hasher(state.state)
    {
      var states := DirectoryOf(root, shard);
      if id !in states {
        states := states[id := Entry(hasher(state.state), state.state)];
        root := root[shard := states];
      }
      hash := states[id].hash;
    }

    method Write(shard: ShardIdentifier, id: StateId, state: SgxExternalities) returns (hash: H256)
      modifies this
      ensures root == Written(hasher, old(root), shard, id, state)
      ensures hash == hasher(state.state)
    {
      hash := hasher(state.state);
      root := root[shard := DirectoryOf(root, shard)[id := Entry(hash, state.state)]];
    }

    /** Fails exactly when there is no such file, and then changes nothing. */
    method Remove(shard: ShardIdentifier, id: StateId) returns (removed: bool)
      modifies this
      ensures root == Without(old(root), shard, {id})
      ensures removed <==> id in DirectoryOf(old(root), shard)
    {
      removed := id in DirectoryOf(root, shard);
      if removed {
        root := root[shard := root[shard] - {id}];
      } else {
        assert shard in root ==> root[shard] - {id} == root[shard];
        assert Without(root, shard, {id}) == root;
      }
    }

    method ListShards() returns (shards: seq<ShardIdentifier>)
      ensures NoDuplicates(shards)
      ensures forall s :: s in shards <==> s in root
    {
      shards := Enumerate(root.Keys);
    }

    method ListStateIds(shard: ShardIdentifier) returns (r: Result<seq<StateId>, Error>)
      ensures r.Ok? <==> shard in root
      ensures r.Err? ==> r.error == InvalidShard(shard)
      ensures r.Ok? ==> NoDuplicates(r.value) && forall id :: id in r.value <==> id in root[shard]
    {
      if shard !in root { return Err(InvalidShard(shard)); }
      var ids := Enumerate(root[shard].Keys);
      r := Ok(ids);
    }
  }
}
