/** The snapshot repository as the object that owns the history and works on the files. */
module SnapshotRepository {
  import opened Prelude
  import opened Externalities
  import opened StateFiles
  import S = SnapshotStore

  /** Different snapshots, each with its file. */
  ghost predicate Removable(root: RootDirectory, shard: ShardIdentifier, snapshots: seq<S.Metadata>) {
    S.Decreasing(snapshots) && S.Ids(snapshots) <= DirectoryOf(root, shard).Keys
  }

  /** How many removals fail when snapshots are removed one after the other. */
  function Absent(dir: ShardDirectory, snapshots: seq<S.Metadata>): nat {
    if snapshots == [] then 0
    else
      var n := |snapshots| - 1;
      Absent(dir, snapshots[..n]) + if snapshots[n].id in dir && snapshots[n].id !in S.Ids(snapshots[..n]) then 0 else 1
  }

  /** None fails exactly if every file is there and none is to be removed twice. */
  lemma {:induction false} NoneAbsentIff(dir: ShardDirectory, snapshots: seq<S.Metadata>)
    ensures Absent(dir, snapshots) == 0 <==>
      forall i :: 0 <= i < |snapshots| ==> snapshots[i].id in dir && snapshots[i].id !in S.Ids(snapshots[..i])
  {
    if snapshots != [] {
      var n := |snapshots| - 1;
      NoneAbsentIff(dir, snapshots[..n]);
      assert forall i :: 0 <= i < n ==> snapshots[..n][..i] == snapshots[..i];
    }
  }

  lemma RemovableNoneAbsent(root: RootDirectory, shard: ShardIdentifier, snapshots: seq<S.Metadata>)
    requires Removable(root, shard, snapshots)
    ensures Absent(DirectoryOf(root, shard), snapshots) == 0
  {
    NoneAbsentIff(DirectoryOf(root, shard), snapshots);
    forall i | 0 <= i < |snapshots|
      ensures snapshots[i].id in DirectoryOf(root, shard) && snapshots[i].id !in S.Ids(snapshots[..i])
    {
      assert snapshots[i].id in S.Ids(snapshots);
    }
  }

  /** Any part of a consistent history can be removed, also after another file was written. */
  lemma PartRemovable(s: S.Store, root: RootDirectory, shard: ShardIdentifier, lo: nat, hi: nat)
    requires shard in s.history && lo <= hi <= |s.history[shard]|
    requires shard in s.files ==> s.files[shard].Keys <= DirectoryOf(root, shard).Keys
    ensures S.Consistent(s) ==> Absent(DirectoryOf(root, shard), s.history[shard][lo..hi]) == 0
  {
    if S.Consistent(s) {
      var part := s.history[shard][lo..hi];
      assert forall i :: 0 <= i < |part| ==> part[i] == s.history[shard][lo + i];
      RemovableNoneAbsent(root, shard, part);
    }
  }

  class StateSnapshotRepository {
    const fileIo: InMemoryStateFileIo
    const cacheSize: nat
    var history: S.SnapshotHistory

    constructor (fileIo: InMemoryStateFileIo, cacheSize: nat, history: S.SnapshotHistory)
      requires cacheSize > 0
      ensures this.fileIo == fileIo && this.cacheSize == cacheSize && this.history == history
    {
      this.fileIo := fileIo;
      this.cacheSize := cacheSize;
      this.history := history;
    }

    /** A repository that could keep no snapshot at all is refused. */
    static method New(fileIo: InMemoryStateFileIo, cacheSize: nat, history: S.SnapshotHistory)
        returns (r: Result<StateSnapshotRepository, Error>)
      ensures cacheSize == 0 ==> r == Err(ZeroCacheSize)
      ensures cacheSize > 0 ==> r.Ok? && fresh(r.value) && r.value.cacheSize == cacheSize
      ensures r.Ok? ==> r.value.fileIo == fileIo && r.value.Store() == S.Store(fileIo.root, history)
    {
      if cacheSize == 0 { return Err(ZeroCacheSize); }
      var repository := new StateSnapshotRepository(fileIo, cacheSize, history);
      r := Ok(repository);
    }

    function Store(): S.Store
      reads this, fileIo
    {
      S.Store(fileIo.root, history)
    }

    method LoadLatest(shard: ShardIdentifier) returns (r: Result<SgxExternalities, Error>)
      ensures r == S.LoadLatest(Store(), shard)
    {
      if shard !in history { return Err(InvalidShard(shard)); }
      if history[shard] == [] { return Err(EmptyRepository); }
      r := Load(fileIo.root, shard, history[shard][0].id);
    }

    /** Removes the files of the given snapshots; a missing file is counted, and does not stop the loop. */
    method RemoveSnapshots(shard: ShardIdentifier, snapshots: seq<S.Metadata>) returns (failures: nat)
      modifies fileIo
      ensures fileIo.root == Without(old(fileIo.root), shard, S.Ids(snapshots))
      ensures failures == Absent(DirectoryOf(old(fileIo.root), shard), snapshots)
    {
      failures := 0;
      assert S.Ids(snapshots[..0]) == {};
      WithoutNone(fileIo.root, shard);
      for n := 0 to |snapshots|
        invariant fileIo.root == Without(old(fileIo.root), shard, S.Ids(snapshots[..n]))
        invariant failures == Absent(DirectoryOf(old(fileIo.root), shard), snapshots[..n])
      {
        assert S.Ids(snapshots[..n + 1]) == S.Ids(snapshots[..n]) + {snapshots[n].id};
        assert snapshots[..n + 1][..n] == snapshots[..n];
        var removed := fileIo.Remove(shard, snapshots[n].id);
        if !removed {
          failures := failures + 1;
        }
        assert shard in old(fileIo.root) ==>
            old(fileIo.root)[shard] - S.Ids(snapshots[..n]) - {snapshots[n].id}
            == old(fileIo.root)[shard] - S.Ids(snapshots[..n + 1]);
      }
      assert snapshots[..|snapshots|] == snapshots;
    }

    /** Drains a range from the history of a shard and removes the files behind it. */
    method Prune(shard: ShardIdentifier, lo: nat, hi: nat) returns (r: Result<(), Error>, failures: nat)
      requires shard in history ==> lo <= hi <= |history[shard]|
      modifies this, fileIo
      ensures r.Ok? <==> shard in old(history)
      ensures r.Err? ==> r.error == InvalidShard(shard) && Store() == old(Store())
      ensures r.Ok? ==> history == old(history)[shard := old(history)[shard][..lo] + old(history)[shard][hi..]]
      ensures r.Ok? ==> fileIo.root == Without(old(fileIo.root), shard, S.Ids(old(history)[shard][lo..hi]))
      ensures r.Ok? ==> failures == Absent(DirectoryOf(old(fileIo.root), shard), old(history)[shard][lo..hi])
    {
      if shard !in history { return Err(InvalidShard(shard)), 0; }
      var drained := history[shard][lo..hi];
      history := history[shard := history[shard][..lo] + history[shard][hi..]];
      failures := RemoveSnapshots(shard, drained);
      r := Ok(());
    }

    method InitializeNewShard(shard: ShardIdentifier, state: SgxExternalities, id: StateId) returns (hash: H256)
      modifies this, fileIo
      ensures Store() == S.InitializeNewShard(fileIo.hasher, old(Store()), shard, state, id)
      ensures hash == history[shard][0].hash
    {
      hash := fileIo.InitializeShard(shard, id, state);
      history := history[shard := [S.Metadata(hash, id)]];
    }

    /** `id` is what the clock reads when the snapshot is written. No removal fails, even if that id is taken. */
    method Update(shard: ShardIdentifier, state: SgxExternalities, hash: H256, id: StateId)
        returns (r: Result<(), Error>, failures: nat)
      requires cacheSize > 0
      modifies this, fileIo
      ensures r.Ok?
      ensures Store() == S.Update(fileIo.hasher, cacheSize, old(Store()), shard, state, hash, id)
      ensures S.Consistent(old(Store())) ==> failures == 0
    {
      hide Absent, S.Consistent;
      failures := 0;
      if shard !in history {
        var _ := InitializeNewShard(shard, state, id);
        return Ok(()), 0;
      }
      var _ := fileIo.Write(shard, id, state);
      history := history[shard := [S.Metadata(hash, id)] + history[shard]];
      ghost var pushed := history[shard];
      r := Ok(());
      if |history[shard]| > cacheSize {
        assert pushed[cacheSize..|pushed|] == pushed[cacheSize..];
        assert pushed[..cacheSize] + pushed[|pushed|..] == pushed[..cacheSize];
        ghost var dropped := pushed[cacheSize..];
        PartRemovable(old(Store()), fileIo.root, shard, cacheSize - 1, |old(history)[shard]|);
        assert dropped == old(history)[shard][cacheSize - 1..|old(history)[shard]|];
        r, failures := Prune(shard, cacheSize, |history[shard]|);
        UpdateTwice(old(history), shard, pushed, pushed[..cacheSize]);
      }
    }

    /** Finds the newest snapshot with the hash, loads it, and only then drops everything newer. */
    method RevertTo(shard: ShardIdentifier, hash: H256) returns (r: Result<SgxExternalities, Error>, failures: nat)
      modifies this, fileIo
      ensures (r, Store()) == S.RevertTo(old(Store()), shard, hash)
      ensures S.Consistent(old(Store())) ==> failures == 0
    {
      hide Absent, S.Consistent;
      failures := 0;
      if shard !in history { return Err(InvalidShard(shard)), 0; }
      var position := S.Position(history[shard], hash);
      if position.None? { return Err(StateNotFoundInRepository(hash)), 0; }
      r := Load(fileIo.root, shard, history[shard][position.value].id);
      if r.Ok? {
        ghost var snapshots := history[shard];
        assert snapshots[..0] + snapshots[position.value..] == snapshots[position.value..];
        assert snapshots[0..position.value] == snapshots[..position.value];
        PartRemovable(Store(), fileIo.root, shard, 0, position.value);
        var _, failed := Prune(shard, 0, position.value);
        failures := failed;
      }
    }
  }
}
