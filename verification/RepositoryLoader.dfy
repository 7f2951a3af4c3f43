/** Rebuilds the snapshot history from the files on disk. */
module RepositoryLoader {
  import opened Prelude
  import opened Externalities
  import opened StateFiles
  import opened SnapshotStore
  import SnapshotRepository

  // ---------- Newest first ----------

  lemma HeadBelow(ids: seq<StateId>, id: StateId, rest: seq<StateId>)
    requires ids != [] && (forall i :: 0 < i < |ids| ==> ids[0] < ids[i]) && id !in ids && ids[0] <= id
    requires forall x :: x in rest <==> x == id || x in ids[1..]
    ensures forall k :: 0 <= k < |rest| ==> ids[0] < rest[k]
    ensures forall x :: x in [ids[0]] + rest <==> x == id || x in ids
  {
    assert ids == [ids[0]] + ids[1..];
    forall k | 0 <= k < |rest|
      ensures ids[0] < rest[k]
    {
      assert rest[k] in rest;
      assert ids[0] in ids;
    }
  }

  function InsertAscending(ids: seq<StateId>, id: StateId): (r: seq<StateId>)
    requires forall i, j :: 0 <= i < j < |ids| ==> ids[i] < ids[j]
    requires id !in ids
    ensures forall i, j :: 0 <= i < j < |r| ==> r[i] < r[j]
    ensures forall x :: x in r <==> x == id || x in ids
  {
    if ids == [] || id < ids[0] then [id] + ids
    else
      var rest := InsertAscending(ids[1..], id);
      HeadBelow(ids, id, rest);
      [ids[0]] + rest
  }

  function SortAscending(ids: seq<StateId>): (r: seq<StateId>)
    requires NoDuplicates(ids)
    ensures forall i, j :: 0 <= i < j < |r| ==> r[i] < r[j]
    ensures forall x :: x in r <==> x in ids
  {
    if ids == [] then [] else InsertAscending(SortAscending(ids[1..]), ids[0])
  }

  function NewestFirst(ids: seq<StateId>): (r: seq<StateId>)
    requires NoDuplicates(ids)
    ensures forall i, j :: 0 <= i < j < |r| ==> r[i] > r[j]
    ensures forall x :: x in r <==> x in ids
  {
    var sorted := SortAscending(ids);
    ReverseKeepsElements(sorted);
    Reverse(sorted)
  }

  // ---------- What loading yields ----------

  /** The hash recorded for a snapshot is the hash of the state in its file. */
  ghost predicate HonestShard(hasher: StateHasher, dir: ShardDirectory, snapshots: seq<Metadata>) {
    forall i :: 0 <= i < |snapshots|
      ==> snapshots[i].id in dir && snapshots[i].hash == hasher(dir[snapshots[i].id].inner)
  }

  /** All files of a shard, newest first, each with the hash of its content. */
  ghost predicate RecoveredShard(hasher: StateHasher, dir: ShardDirectory, snapshots: seq<Metadata>) {
    Decreasing(snapshots) && Ids(snapshots) == dir.Keys && HonestShard(hasher, dir, snapshots)
  }

  function InitialDirectory(hasher: StateHasher, initial: SgxExternalities, id: StateId): ShardDirectory {
    map[id := Entry(hasher(initial.state), initial.state)]
  }

  ghost predicate InitializedWhereEmpty(hasher: StateHasher, initial: SgxExternalities, dir: ShardDirectory,
      dir': ShardDirectory) {
    if dir != map[] then dir' == dir
    else exists id :: dir' == InitialDirectory(hasher, initial, id)
  }

  ghost predicate LoadedShard(hasher: StateHasher, initial: SgxExternalities, dir: ShardDirectory,
      dir': ShardDirectory, snapshots: seq<Metadata>) {
    InitializedWhereEmpty(hasher, initial, dir, dir') && RecoveredShard(hasher, dir', snapshots)
  }

  /** The same, with the time at which an initial snapshot was written. */
  ghost predicate LoadedAt(hasher: StateHasher, initial: SgxExternalities, dir: ShardDirectory, dir': ShardDirectory,
      snapshots: seq<Metadata>, id: StateId) {
    && LoadedShard(hasher, initial, dir, dir', snapshots)
    && (dir == map[] ==> dir' == InitialDirectory(hasher, initial, id))
  }

  /** A store as loaded from files: shards without a snapshot get one holding the initial state. */
  ghost predicate Recovered(hasher: StateHasher, initial: SgxExternalities, files: RootDirectory, s: Store) {
    && files.Keys == s.files.Keys == s.history.Keys
    && forall shard :: shard in files ==>
      LoadedShard(hasher, initial, files[shard], s.files[shard], s.history[shard])
  }

  lemma NoIds(snapshots: seq<Metadata>)
    ensures Ids(snapshots) == {} <==> snapshots == []
  {
    if snapshots != [] {
      assert snapshots[0].id in Ids(snapshots);
    }
  }

  lemma TailIds(snapshots: seq<Metadata>)
    requires snapshots != [] && Decreasing(snapshots)
    ensures Ids(snapshots[1..]) == Ids(snapshots) - {snapshots[0].id}
  {
    SliceIds(snapshots, 1, |snapshots|);
    assert snapshots[1..|snapshots|] == snapshots[1..];
    assert snapshots[..1] == [snapshots[0]] && Ids([snapshots[0]]) == {snapshots[0].id};
    assert snapshots[|snapshots|..] == [] && Ids([]) == {};
  }

  lemma HeadIsNewest(hasher: StateHasher, dir: ShardDirectory, snapshots: seq<Metadata>, recovered: seq<Metadata>)
    requires Backed(dir, snapshots) && HonestShard(hasher, dir, snapshots)
    requires RecoveredShard(hasher, dir, recovered)
    ensures recovered != [] && recovered[0] == snapshots[0]
  {
    assert snapshots[0].id in Ids(recovered);
    assert recovered[0].id in Ids(recovered);
  }

  lemma TailBacked(hasher: StateHasher, dir: ShardDirectory, snapshots: seq<Metadata>)
    requires Backed(dir, snapshots) && HonestShard(hasher, dir, snapshots)
    requires |snapshots| > 1
    ensures Backed(dir - {snapshots[0].id}, snapshots[1..])
    ensures HonestShard(hasher, dir - {snapshots[0].id}, snapshots[1..])
  {
    TailIds(snapshots);
  }

  lemma TailRecovered(hasher: StateHasher, dir: ShardDirectory, recovered: seq<Metadata>)
    requires RecoveredShard(hasher, dir, recovered) && recovered != []
    ensures RecoveredShard(hasher, dir - {recovered[0].id}, recovered[1..])
  {
    TailIds(recovered);
  }

  /** Loading starts the history of a shard with everything the running history held, in the same order. */
  lemma {:induction false} RecoveredStartsWithHistory(hasher: StateHasher, dir: ShardDirectory,
      snapshots: seq<Metadata>, recovered: seq<Metadata>)
    requires Backed(dir, snapshots) && HonestShard(hasher, dir, snapshots)
    requires RecoveredShard(hasher, dir, recovered)
    ensures snapshots <= recovered
    ensures dir.Keys == Ids(snapshots) ==> recovered == snapshots
    decreases |snapshots|
  {
    HeadIsNewest(hasher, dir, snapshots, recovered);
    TailIds(snapshots);
    TailRecovered(hasher, dir, recovered);
    if |snapshots| > 1 {
      TailBacked(hasher, dir, snapshots);
      RecoveredStartsWithHistory(hasher, dir - {snapshots[0].id}, snapshots[1..], recovered[1..]);
    } else {
      assert Ids(recovered[1..]) == dir.Keys - {snapshots[0].id};
      NoIds(recovered[1..]);
    }
  }

  /** The loader's result does not depend on the order in which the file system lists the snapshots. */
  lemma RecoveredUnique(hasher: StateHasher, dir: ShardDirectory, a: seq<Metadata>, b: seq<Metadata>)
    requires RecoveredShard(hasher, dir, a) && RecoveredShard(hasher, dir, b)
    ensures a == b
  {
    if a != [] {
      assert forall i :: 0 <= i < |a| ==> a[i].id in Ids(a);
      RecoveredStartsWithHistory(hasher, dir, a, b);
    } else {
      NoIds(b);
    }
  }

  /** A loaded store satisfies everything a running one keeps. */
  lemma RecoveredIsSound(hasher: StateHasher, initial: SgxExternalities, files: RootDirectory, s: Store)
    requires Recovered(hasher, initial, files, s)
    ensures Consistent(s)
    ensures forall shard ::
      shard in s.history ==>
        HonestShard(hasher, s.files[shard], s.history[shard])
        && s.files[shard].Keys == Ids(s.history[shard])
  {
    forall shard | shard in s.history
      ensures Backed(s.files[shard], s.history[shard])
    {
      var snapshots := s.history[shard];
      if files[shard] == map[] {
        var id :| s.files[shard] == InitialDirectory(hasher, initial, id);
        assert id in Ids(snapshots);
      }
      NoIds(snapshots);
      assert forall i :: 0 <= i < |snapshots| ==> snapshots[i].id in Ids(snapshots);
    }
  }

  /** An entry for every id whose file can be read, in the order of the ids; the others are left out. */
  function SnapshotsOf(hasher: StateHasher, root: RootDirectory, shard: ShardIdentifier, ids: seq<StateId>)
      : seq<Metadata> {
    if ids == [] then []
    else
      var n := |ids| - 1;
      var loaded := Load(root, shard, ids[n]);
      SnapshotsOf(hasher, root, shard, ids[..n])
      + if loaded.Ok? then [Metadata(hasher(loaded.value.state), ids[n])] else []
  }

  lemma AppendSnapshot(hasher: StateHasher, dir: ShardDirectory, earlier: seq<Metadata>, m: Metadata)
    requires Decreasing(earlier) && HonestShard(hasher, dir, earlier)
    requires m.id in dir && m.hash == hasher(dir[m.id].inner) && forall i :: 0 <= i < |earlier| ==> m.id < earlier[i].id
    ensures Decreasing(earlier + [m]) && HonestShard(hasher, dir, earlier + [m])
    ensures Ids(earlier + [m]) == Ids(earlier) + {m.id}
  {
    var snapshots := earlier + [m];
    assert snapshots[|earlier|] == m;
    assert forall i :: 0 <= i < |earlier| ==> snapshots[i] == earlier[i];
  }

  lemma IdsFrom(snapshots: seq<Metadata>, ids: seq<StateId>, bound: StateId)
    requires forall i :: 0 <= i < |ids| ==> bound < ids[i]
    requires forall id :: id in Ids(snapshots) ==> id in ids
    ensures forall i :: 0 <= i < |snapshots| ==> bound < snapshots[i].id
  {
    forall i | 0 <= i < |snapshots|
      ensures bound < snapshots[i].id
    {
      assert snapshots[i].id in Ids(snapshots);
    }
  }

  /** Of any ids, newest first, exactly the readable ones are there, newest first, with honest hashes. */
  lemma {:induction false} ReadableSnapshots(hasher: StateHasher, root: RootDirectory, shard: ShardIdentifier,
      ids: seq<StateId>)
    requires forall i, j :: 0 <= i < j < |ids| ==> ids[i] > ids[j]
    ensures var snapshots := SnapshotsOf(hasher, root, shard, ids);
      && Decreasing(snapshots) && HonestShard(hasher, DirectoryOf(root, shard), snapshots)
      && forall id :: id in Ids(snapshots) <==> id in ids && id in DirectoryOf(root, shard)
  {
    if ids != [] {
      hide Decreasing, HonestShard, Ids;
      var n := |ids| - 1;
      var earlier := SnapshotsOf(hasher, root, shard, ids[..n]);
      ReadableSnapshots(hasher, root, shard, ids[..n]);
      assert ids == ids[..n] + [ids[n]];
      assert forall id :: id in ids <==> id in ids[..n] || id == ids[n];
      if Load(root, shard, ids[n]).Ok? {
        IdsFrom(earlier, ids[..n], ids[n]);
        AppendSnapshot(hasher, root[shard], earlier, Metadata(hasher(root[shard][ids[n]].inner), ids[n]));
      } else {
        assert SnapshotsOf(hasher, root, shard, ids) == earlier;
      }
    }
  }

  lemma AllReadable(hasher: StateHasher, root: RootDirectory, shard: ShardIdentifier, ids: seq<StateId>)
    requires shard in root && forall i, j :: 0 <= i < j < |ids| ==> ids[i] > ids[j]
    requires forall x :: x in ids <==> x in root[shard]
    ensures var snapshots := SnapshotsOf(hasher, root, shard, ids);
      RecoveredShard(hasher, root[shard], snapshots) && (snapshots == [] <==> root[shard] == map[])
  {
    hide SnapshotsOf, Ids, HonestShard, Decreasing;
    var snapshots := SnapshotsOf(hasher, root, shard, ids);
    ReadableSnapshots(hasher, root, shard, ids);
    assert Ids(snapshots) == root[shard].Keys;
    NoIds(snapshots);
  }

  lemma InitialRecovered(hasher: StateHasher, state: SgxExternalities, id: StateId)
    ensures RecoveredShard(hasher, InitialDirectory(hasher, state, id), [Metadata(hasher(state.state), id)])
  {
    var m := Metadata(hasher(state.state), id);
    assert [m][0] == m;
    assert Ids([m]) == {id};
  }

  lemma AllLoadedAt(hasher: StateHasher, initial: SgxExternalities, files: RootDirectory, s: Store,
      clock: ShardIdentifier -> StateId)
    requires files.Keys == s.files.Keys == s.history.Keys
    requires forall shard :: shard in files ==>
      LoadedAt(hasher, initial, files[shard], s.files[shard], s.history[shard], clock(shard))
    ensures Recovered(hasher, initial, files, s)
    ensures forall shard :: shard in files && files[shard] == map[] ==>
      s.files[shard] == InitialDirectory(hasher, initial, clock(shard))
  {
    hide LoadedShard, InitialDirectory;
  }

  // ---------- The loader ----------

  class StateSnapshotRepositoryLoader {
    const fileIo: InMemoryStateFileIo
    const initial: SgxExternalities

    constructor (fileIo: InMemoryStateFileIo, initial: SgxExternalities)
      ensures this.fileIo == fileIo && this.initial == initial
    {
      this.fileIo := fileIo;
      this.initial := initial;
    }

    /** Keeps the snapshots whose hash can be computed, in the given order. */
    method MapToSnapshotMetadata(shard: ShardIdentifier, ids: seq<StateId>) returns (snapshots: seq<Metadata>)
      ensures snapshots == SnapshotsOf(fileIo.hasher, fileIo.root, shard, ids)
    {
      snapshots := [];
      for n := 0 to |ids|
        invariant snapshots == SnapshotsOf(fileIo.hasher, fileIo.root, shard, ids[..n])
      {
        assert ids[..n + 1][..n] == ids[..n];
        var loaded := Load(fileIo.root, shard, ids[n]);
        if loaded.Ok? {
          snapshots := snapshots + [Metadata(fileIo.hasher(loaded.value.state), ids[n])];
        }
      }
      assert ids[..|ids|] == ids;
    }

    /** The history of one shard; `id` is what the clock reads in case an initial snapshot must be written. */
    method LoadShard(shard: ShardIdentifier, id: StateId) returns (snapshots: seq<Metadata>)
      requires shard in fileIo.root
      modifies fileIo
      ensures fileIo.root.Keys == old(fileIo.root).Keys
      ensures forall other :: other in fileIo.root && other != shard ==> fileIo.root[other] == old(fileIo.root)[other]
      ensures LoadedAt(fileIo.hasher, initial, old(fileIo.root)[shard], fileIo.root[shard], snapshots, id)
    {
      hide RecoveredShard, HonestShard, SnapshotsOf;
      var listed := fileIo.ListStateIds(shard);
      var ids := NewestFirst(listed.value);
      snapshots := MapToSnapshotMetadata(shard, ids);
      AllReadable(fileIo.hasher, fileIo.root, shard, ids);
      if snapshots == [] {
        var hash := fileIo.InitializeShard(shard, id, initial);
        snapshots := [Metadata(hash, id)];
        assert fileIo.root[shard] == InitialDirectory(fileIo.hasher, initial, id);
        InitialRecovered(fileIo.hasher, initial, id);
      }
    }

    /** `clock` gives the time at which each shard would be initialised. */
    method LoadSnapshotRepository(cacheSize: nat, clock: ShardIdentifier -> StateId)
        returns (r: Result<SnapshotRepository.StateSnapshotRepository, Error>)
      modifies fileIo
      ensures r.Ok? <==> cacheSize > 0
      ensures r.Err? ==> r.error == ZeroCacheSize
      ensures r.Ok? ==> fresh(r.value) && r.value.fileIo == fileIo && r.value.cacheSize == cacheSize
      ensures r.Ok? ==> Recovered(fileIo.hasher, initial, old(fileIo.root), r.value.Store())
      ensures forall s :: s in old(fileIo.root) && old(fileIo.root)[s] == map[] ==>
        s in fileIo.root && fileIo.root[s] == InitialDirectory(fileIo.hasher, initial, clock(s))
    {
      hide LoadedAt, Recovered, InitialDirectory;
      var history: SnapshotHistory := map[];
      var shards := fileIo.ListShards();
      for n := 0 to |shards|
        invariant fileIo.root.Keys == old(fileIo.root).Keys
        invariant forall s :: s in history <==> s in shards[..n]
        invariant forall s :: s in fileIo.root && s !in history ==> fileIo.root[s] == old(fileIo.root)[s]
        invariant forall s ::
          s in history ==>
            s in fileIo.root
            && LoadedAt(fileIo.hasher, initial, old(fileIo.root)[s], fileIo.root[s], history[s], clock(s))
      {
        assert shards[n] in shards;
        var snapshots := LoadShard(shards[n], clock(shards[n]));
        history := history[shards[n] := snapshots];
      }
      assert shards[..|shards|] == shards;
      AllLoadedAt(fileIo.hasher, initial, old(fileIo.root), Store(fileIo.root, history), clock);
      r := SnapshotRepository.StateSnapshotRepository.New(fileIo, cacheSize, history);
    }
  }
}
