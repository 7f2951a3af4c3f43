/** Whole-run properties of the snapshot repository: its files are its history, and a revert undoes updates. */
module SnapshotHistoryTheorems {
  import opened Prelude
  import opened Externalities
  import opened StateFiles
  import opened SnapshotStore

  // ---------- Files and history ----------

  /** The files are exactly the snapshots of the history: nothing is missing, nothing has leaked. */
  ghost predicate Exact(s: Store) {
    && s.files.Keys == s.history.Keys
    && forall shard :: shard in s.history ==> s.files[shard].Keys == Ids(s.history[shard])
  }

  function Known(known: set<ShardIdentifier>, op: Op): set<ShardIdentifier> {
    if op.UpdateOp? || op.InitializeOp? then known + {op.shard} else known
  }

  /** No operation initialises a shard that is already known. */
  predicate NeverReinitializes(known: set<ShardIdentifier>, ops: seq<Op>)
    decreases |ops|
  {
    ops == [] ||
    ((ops[0].InitializeOp? ==> ops[0].shard !in known) && NeverReinitializes(Known(known, ops[0]), ops[1..]))
  }

  lemma UpdateExact(hasher: StateHasher, cacheSize: nat, s: Store, last: int, shard: ShardIdentifier,
      state: SgxExternalities, hash: H256, id: StateId)
    requires cacheSize > 0 && Consistent(s) && Exact(s) && NotNewer(s.files, last) && last < id
    ensures Exact(Update(hasher, cacheSize, s, shard, state, hash, id))
  {
    if shard in s.history {
      var s' := Update(hasher, cacheSize, s, shard, state, hash, id);
      UpdateShard(hasher, cacheSize, s, shard, state, hash, id);
      PushAndPrune(cacheSize, s.files[shard], s'.files[shard], s.history[shard], Metadata(hash, id),
        Entry(hasher(state.state), state.state));
    } else {
      InitializeExact(hasher, s, shard, state, id);
    }
  }

  lemma InitializeExact(hasher: StateHasher, s: Store, shard: ShardIdentifier, state: SgxExternalities, id: StateId)
    requires Exact(s) && shard !in s.history
    ensures Exact(InitializeNewShard(hasher, s, shard, state, id))
  {
    var s' := InitializeNewShard(hasher, s, shard, state, id);
    assert s'.history[shard][0].id == id;
    assert Ids(s'.history[shard]) == {id};
  }

  lemma RevertExact(s: Store, shard: ShardIdentifier, hash: H256)
    requires Consistent(s) && Exact(s)
    ensures Exact(RevertTo(s, shard, hash).1)
  {
    hide Backed, View;
    if shard in s.history && Position(s.history[shard], hash).Some? {
      var s' := RevertTo(s, shard, hash).1;
      var snapshots := s.history[shard];
      RevertShard(s, shard, hash);
      KeepSlice(s.files[shard], s'.files[shard], snapshots, Position(snapshots, hash).value, |snapshots|);
    }
  }

  lemma StepExact(hasher: StateHasher, cacheSize: nat, s: Store, last: int, op: Op)
    requires cacheSize > 0 && Consistent(s) && Exact(s) && NotNewer(s.files, last)
    requires FreshIds(last, [op]) && (op.InitializeOp? ==> op.shard !in s.history)
    ensures var s' := Step(hasher, cacheSize, s, op).1;
      && Exact(s')
      && s'.history.Keys == Known(s.history.Keys, op)
  {
    match op
    case UpdateOp(shard, state, hash, id) => UpdateExact(hasher, cacheSize, s, last, shard, state, hash, id);
    case InitializeOp(shard, state, id) => InitializeExact(hasher, s, shard, state, id);
    case RevertOp(shard, hash) => RevertExact(s, shard, hash);
    case LoadLatestOp(_) =>
  }

  /**
   * In every run with fresh ids that never re-initialises a shard, the files of a shard are exactly the
   * snapshots in its history.
   */
  lemma {:induction false} RunExact(hasher: StateHasher, cacheSize: nat, s: Store, last: int, ops: seq<Op>)
    requires cacheSize > 0 && Consistent(s) && Exact(s) && NotNewer(s.files, last)
    requires FreshIds(last, ops) && NeverReinitializes(s.history.Keys, ops)
    ensures Exact(Run(hasher, cacheSize, s, ops).1)
    decreases |ops|
  {
    if ops != [] {
      var s' := Step(hasher, cacheSize, s, ops[0]).1;
      StepRefines(hasher, cacheSize, s, last, ops[0]);
      StepNotNewer(hasher, cacheSize, s, last, ops[0]);
      StepExact(hasher, cacheSize, s, last, ops[0]);
      RunExact(hasher, cacheSize, s', Clock(last, ops[0]), ops[1..]);
    }
  }

  /** Re-initialising a shard leaves its old files behind, so the correspondence is lost exactly then. */
  lemma ReinitializeLeaks(hasher: StateHasher, s: Store, last: int, shard: ShardIdentifier,
      state: SgxExternalities, id: StateId)
    requires Consistent(s) && Exact(s) && NotNewer(s.files, last) && last < id
    ensures Exact(InitializeNewShard(hasher, s, shard, state, id)) <==> shard !in s.history
  {
    var s' := InitializeNewShard(hasher, s, shard, state, id);
    if shard in s.history {
      assert s.history[shard][0].id in s'.files[shard];
      assert forall i :: 0 <= i < |s'.history[shard]| ==> s'.history[shard][i].id == id;
    } else {
      InitializeExact(hasher, s, shard, state, id);
    }
  }

  // ---------- Revert undoes updates ----------

  /** The versions that updates push, newest first. */
  function Pushed(ops: seq<Op>): (r: seq<Version>)
    requires forall i :: 0 <= i < |ops| ==> ops[i].UpdateOp?
    ensures |r| == |ops|
  {
    if ops == [] then [] else Pushed(ops[1..]) + [Version(ops[0].hash, ops[0].state.state)]
  }

  lemma {:induction false} PushedHashes(ops: seq<Op>, hash: H256)
    requires forall i :: 0 <= i < |ops| ==> ops[i].UpdateOp? && ops[i].hash != hash
    ensures forall i :: 0 <= i < |ops| ==> Pushed(ops)[i].hash != hash
  {
    if ops != [] {
      PushedHashes(ops[1..], hash);
    }
  }

  lemma {:induction false} UpdatesPush(hasher: StateHasher, cacheSize: nat, v: Versions, shard: ShardIdentifier,
      ops: seq<Op>)
    requires 0 < |ops| <= cacheSize && shard in v
    requires forall i :: 0 <= i < |ops| ==> ops[i].UpdateOp? && ops[i].shard == shard
    ensures VersionsRun(hasher, cacheSize, v, ops).1 == v[shard := Pushed(ops) + Take(v[shard], cacheSize - |ops|)]
    decreases |ops|
  {
    var x := Version(ops[0].hash, ops[0].state.state);
    var v' := VersionsStep(hasher, cacheSize, v, ops[0]).1;
    assert v'[shard] == [x] + Take(v[shard], cacheSize - 1);
    if |ops| == 1 {
      assert Pushed(ops) == [x];
    } else {
      UpdatesPush(hasher, cacheSize, v', shard, ops[1..]);
      assert Take(v'[shard], cacheSize - |ops[1..]|) == [x] + Take(v[shard], cacheSize - |ops|);
      assert Pushed(ops) + Take(v[shard], cacheSize - |ops|)
        == Pushed(ops[1..]) + ([x] + Take(v[shard], cacheSize - |ops|));
    }
  }

  lemma {:induction false} DropUntilSkips(newer: seq<Version>, older: seq<Version>, hash: H256)
    requires forall i :: 0 <= i < |newer| ==> newer[i].hash != hash
    requires older != [] && older[0].hash == hash
    ensures DropUntil(newer + older, hash) == older
  {
    if newer != [] {
      assert (newer + older)[1..] == newer[1..] + older;
      DropUntilSkips(newer[1..], older, hash);
    } else {
      assert newer + older == older;
    }
  }

  lemma RevertDropsPushed(hasher: StateHasher, cacheSize: nat, v: Versions, shard: ShardIdentifier, ops: seq<Op>)
    requires 0 < |ops| < cacheSize && shard in v && v[shard] != []
    requires forall i :: 0 <= i < |ops| ==> ops[i].UpdateOp? && ops[i].shard == shard && ops[i].hash != v[shard][0].hash
    ensures var v' := VersionsRun(hasher, cacheSize, v, ops).1;
      var kept := Take(v[shard], cacheSize - |ops|);
      && shard in v' && DropUntil(v'[shard], v[shard][0].hash) == kept
      && v'[shard := kept] == v[shard := kept]
  {
    UpdatesPush(hasher, cacheSize, v, shard, ops);
    PushedHashes(ops, v[shard][0].hash);
    var kept := Take(v[shard], cacheSize - |ops|);
    DropUntilSkips(Pushed(ops), kept, v[shard][0].hash);
    UpdateTwice(v, shard, Pushed(ops) + kept, kept);
  }

  lemma LatestIsHead(s: Store, shard: ShardIdentifier)
    requires Consistent(s) && shard in s.history
    ensures Abstract(s)[shard] != [] && Abstract(s)[shard][0].hash == s.history[shard][0].hash
    ensures LoadLatest(s, shard) == Ok(FromStorage(Abstract(s)[shard][0].inner))
  {
  }

  lemma RevertTwice(s: Store, shard: ShardIdentifier, hash: H256)
    requires Consistent(s)
    ensures var (r, s') := RevertTo(s, shard, hash); RevertTo(s', shard, hash) == (r, s')
  {
    hide View, Decreasing;
    if shard in s.history && Position(s.history[shard], hash).Some? {
      var (r, s') := RevertTo(s, shard, hash);
      RevertShard(s, shard, hash);
      var snapshots, i := s.history[shard], Position(s.history[shard], hash).value;
      KeepSlice(s.files[shard], s'.files[shard], snapshots, i, |snapshots|);
      assert s'.history[shard][0] == snapshots[i];
      assert Position(s'.history[shard], hash) == Some(0);
      assert Ids(s'.history[shard][..0]) == {};
      WithoutNone(s'.files, shard);
      assert s'.history[shard][0..] == s'.history[shard];
      assert s'.history[shard := s'.history[shard]] == s'.history;
    }
  }

  /**
   * After fewer updates than the cache holds, none of them with the hash of the old head, reverting to
   * that hash returns the old state and leaves the part of the old history the cache could keep;
   * repeating it changes nothing.
   */
  lemma RevertUndoesUpdates(hasher: StateHasher, cacheSize: nat, s: Store, last: int, shard: ShardIdentifier,
      ops: seq<Op>)
    requires Consistent(s) && NotNewer(s.files, last) && FreshIds(last, ops) && shard in s.history
    requires 0 < |ops| < cacheSize
    requires forall i ::
      0 <= i < |ops| ==> ops[i].UpdateOp? && ops[i].shard == shard && ops[i].hash != s.history[shard][0].hash
    ensures var head := s.history[shard][0].hash;
      var (r, s') := RevertTo(Run(hasher, cacheSize, s, ops).1, shard, head);
      && r.Ok? && r == LoadLatest(s, shard)
      && Consistent(s') && Abstract(s') == Abstract(s)[shard := Take(Abstract(s)[shard], cacheSize - |ops|)]
      && RevertTo(s', shard, head) == (r, s')
  {
    var head := s.history[shard][0].hash;
    var s1 := Run(hasher, cacheSize, s, ops).1;
    RunRefines(hasher, cacheSize, s, last, ops);
    RevertDropsPushed(hasher, cacheSize, Abstract(s), shard, ops);
    RevertRefines(s1, shard, head);
    RevertTwice(s1, shard, head);
    LatestIsHead(s, shard);
  }

  // ---------- When the clock repeats itself ----------

  /** Every kept snapshot loads what the simple model says it holds. */
  ghost predicate LoadsOwn(dir: ShardDirectory, kept: seq<Metadata>, versions: seq<Version>) {
    |kept| <= |versions| && forall i ::
      0 <= i < |kept| ==> kept[i].id in dir && dir[kept[i].id].inner == versions[i].inner
  }

  /**
   * An update under an id that snapshot `p` of the history already has overwrites that snapshot's file.
   * It still does what the simple model says exactly when that snapshot is kept and held the same state.
   */
  lemma CollidingUpdateIff(hasher: StateHasher, cacheSize: nat, s: Store, shard: ShardIdentifier,
      state: SgxExternalities, hash: H256, p: nat)
    requires cacheSize > 0 && Consistent(s) && shard in s.history && p < |s.history[shard]|
    ensures var id := s.history[shard][p].id;
      var s' := Update(hasher, cacheSize, s, shard, state, hash, id);
      LoadsOwn(s'.files[shard], s'.history[shard], [Version(hash, state.state)] + Abstract(s)[shard])
      <==> p + 1 < cacheSize && s.files[shard][id].inner == state.state
  {
    hide Update, LoadsOwn;
    var id := s.history[shard][p].id;
    var s' := Update(hasher, cacheSize, s, shard, state, hash, id);
    UpdateShard(hasher, cacheSize, s, shard, state, hash, id);
    CollidingPush(cacheSize, s.files[shard], s'.files[shard], s.history[shard], Metadata(hash, id),
      Entry(hasher(state.state), state.state), p);
  }

  lemma CollidingPush(cacheSize: nat, dir: ShardDirectory, dir': ShardDirectory, snapshots: seq<Metadata>,
      m: Metadata, entry: Entry, p: nat)
    requires cacheSize > 0 && Backed(dir, snapshots) && p < |snapshots| && snapshots[p].id == m.id
    requires var pushed := [m] + snapshots;
      dir' == dir[m.id := entry] - (Ids(pushed[..0]) + Ids(pushed[|Take(pushed, cacheSize)|..]))
    ensures LoadsOwn(dir', Take([m] + snapshots, cacheSize), [Version(m.hash, entry.inner)] + View(dir, snapshots))
      <==> p + 1 < cacheSize && dir[m.id].inner == entry.inner
  {
    var pushed := [m] + snapshots;
    var kept := Take(pushed, cacheSize);
    var dropped := pushed[|kept|..];
    assert pushed[..0] == [] && Ids([]) == {};
    assert forall i :: 0 <= i < |dropped| ==> dropped[i] == snapshots[|kept| - 1 + i];
    assert kept[0] == m;
    if p + 1 < cacheSize {
      CollisionKept(dir, dir', snapshots, m, entry, p, |kept|);
    } else {
      assert dropped[p + 1 - |kept|].id in Ids(dropped);
    }
  }

  lemma CollisionKept(dir: ShardDirectory, dir': ShardDirectory, snapshots: seq<Metadata>, m: Metadata,
      entry: Entry, p: nat, n: nat)
    requires Backed(dir, snapshots) && p < |snapshots| && snapshots[p].id == m.id && p + 1 < n <= |snapshots| + 1
    requires var pushed := [m] + snapshots; dir' == dir[m.id := entry] - ({} + Ids(pushed[n..]))
    ensures var kept := ([m] + snapshots)[..n];
      LoadsOwn(dir', kept, [Version(m.hash, entry.inner)] + View(dir, snapshots)) <==> dir[m.id].inner == entry.inner
  {
    var pushed, versions := [m] + snapshots, [Version(m.hash, entry.inner)] + View(dir, snapshots);
    var kept, dropped := pushed[..n], pushed[n..];
    assert forall i :: 0 <= i < |dropped| ==> dropped[i] == snapshots[n - 1 + i];
    assert kept[p + 1] == snapshots[p] && versions[p + 1] == View(dir, snapshots)[p];
    forall i | 0 < i < n
      ensures kept[i].id in dir' && versions[i].inner == dir[snapshots[i - 1].id].inner
        && dir'[kept[i].id] == if i - 1 == p then entry else dir[snapshots[i - 1].id]
    {
      assert kept[i] == snapshots[i - 1];
    }
  }

  /** A store with one shard, 1, and one snapshot of it. */
  function OneSnapshot(hasher: StateHasher, inner: Storage, id: StateId): Store {
    Store(map[1 := map[id := Entry(hasher(inner), inner)]], map[1 := [Metadata(hasher(inner), id)]])
  }

  lemma OneSnapshotIsConsistent(hasher: StateHasher, inner: Storage, id: StateId)
    ensures Consistent(OneSnapshot(hasher, inner, id)) && Exact(OneSnapshot(hasher, inner, id))
  {
    var s := OneSnapshot(hasher, inner, id);
    assert s.history[1][0].id == id && Ids(s.history[1]) == {id};
  }

  /** Two states in one tick of the clock: reverting to the hash of the first loads the second. */
  lemma CollisionExample(hasher: StateHasher, first: Storage, second: Storage)
    requires first != second
    ensures var s := Update(hasher, 2, OneSnapshot(hasher, first, 10), 1, FromStorage(second), hasher(second), 10);
      && RevertTo(s, 1, hasher(first)).0 == Ok(FromStorage(second))
      && !LoadsOwn(s.files[1], s.history[1], [Version(hasher(second), second), Version(hasher(first), first)])
  {
    var s0 := OneSnapshot(hasher, first, 10);
    var s := Update(hasher, 2, s0, 1, FromStorage(second), hasher(second), 10);
    assert s.history[1] == [Metadata(hasher(second), 10), Metadata(hasher(first), 10)];
    assert s.history[1][1].id == 10 && s.files[1][10].inner == second;
  }
}
