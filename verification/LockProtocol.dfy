/**
 * Threads around the write lock of the states map. A writer takes the lock and a copy of one shard's
 * state, works on its copy, and either inserts the result and lets go, or lets go without inserting. The
 * shard it inserts under is an argument of its own and need not be the one it loaded.
 * Readers share the lock and look at states while no writer holds it.
 */
module LockProtocol {
  import opened Prelude
  import opened Externalities
  import opened StateViews

  type Thread = nat
  type Mutation = SgxExternalities -> SgxExternalities

  datatype Event =
    | LoadForMutation(thread: Thread, shard: ShardIdentifier)
    | WriteAfterMutation(thread: Thread, shard: ShardIdentifier, f: Mutation)
    | DropLock(thread: Thread)
    | Reset(thread: Thread, shard: ShardIdentifier, state: SgxExternalities)
    | ReadLock(thread: Thread)
    | Look(thread: Thread, shard: ShardIdentifier)
    | ReadUnlock(thread: Thread)

  /** The copy a writer works on. */
  datatype Writer = Writer(thread: Thread, shard: ShardIdentifier, copy: SgxExternalities)

  datatype Lock = Lock(states: StatesMap, writer: Option<Writer>, readers: multiset<Thread>)

  function Insert(hasher: StateHasher, states: StatesMap, shard: ShardIdentifier, state: SgxExternalities): StatesMap {
    states[shard := (PruneDiff(state), hasher(state.state))]
  }

  /** Whether the lock lets the thread do this now. */
  predicate Enabled(s: Lock, e: Event) {
    match e
    case LoadForMutation(_, _) => s.writer.None? && s.readers == multiset{}
    case Reset(_, _, _) => s.writer.None? && s.readers == multiset{}
    case WriteAfterMutation(t, _, _) => s.writer.Some? && s.writer.value.thread == t
    case DropLock(t) => s.writer.Some? && s.writer.value.thread == t
    case ReadLock(_) => s.writer.None?
    case Look(t, _) => t in s.readers
    case ReadUnlock(t) => t in s.readers
  }

  function Step(hasher: StateHasher, s: Lock, e: Event): Lock
    requires Enabled(s, e)
  {
    match e
    case LoadForMutation(t, shard) =>
      if shard in s.states then s.(writer := Some(Writer(t, shard, s.states[shard].0))) else s
    case WriteAfterMutation(_, shard, f) =>
      s.(states := Insert(hasher, s.states, shard, f(s.writer.value.copy)), writer := None)
    case DropLock(_) => s.(writer := None)
    case Reset(_, shard, state) => s.(states := Insert(hasher, s.states, shard, state))
    case ReadLock(t) => s.(readers := s.readers + multiset{t})
    case Look(_, _) => s
    case ReadUnlock(t) => s.(readers := s.readers - multiset{t})
  }

  predicate Possible(hasher: StateHasher, s: Lock, trace: seq<Event>)
    decreases |trace|
  {
    |trace| == 0 || (Enabled(s, trace[0]) && Possible(hasher, Step(hasher, s, trace[0]), trace[1..]))
  }

  function Run(hasher: StateHasher, s: Lock, trace: seq<Event>): Lock
    requires Possible(hasher, s, trace)
    decreases |trace|
  {
    if |trace| == 0 then s else Run(hasher, Step(hasher, s, trace[0]), trace[1..])
  }

  // ---------- One after the other ----------

  /** Somebody's whole turn: what is written under which shard, and the shard it is computed from, if any. */
  datatype Turn =
    | Mutated(shard: ShardIdentifier, from: ShardIdentifier, f: Mutation)
    | Replaced(shard: ShardIdentifier, state: SgxExternalities)

  /** How the turn that `thread` has begun ends: with what it writes, if it writes anything. */
  function Ending(thread: Thread, trace: seq<Event>): Option<(ShardIdentifier, Mutation)> {
    if |trace| == 0 then None
    else if trace[0].thread != thread then Ending(thread, trace[1..])
    else match trace[0]
      case WriteAfterMutation(_, shard, f) => Some((shard, f))
      case DropLock(_) => None
      case LoadForMutation(_, _) => None
      case _ => Ending(thread, trace[1..])
  }

  function Finished(from: ShardIdentifier, ending: Option<(ShardIdentifier, Mutation)>): seq<Turn> {
    if ending.Some? then [Mutated(ending.value.0, from, ending.value.1)] else []
  }

  /** The turns of a trace that write, in the order in which their threads got the lock. */
  function LockOrder(trace: seq<Event>): seq<Turn> {
    if |trace| == 0 then []
    else match trace[0]
      case LoadForMutation(t, shard) => Finished(shard, Ending(t, trace[1..])) + LockOrder(trace[1..])
      case Reset(_, shard, state) => [Replaced(shard, state)] + LockOrder(trace[1..])
      case _ => LockOrder(trace[1..])
  }

  function Taken(hasher: StateHasher, states: StatesMap, turn: Turn): StatesMap {
    match turn
    case Mutated(shard, from, f) => if from in states then Insert(hasher, states, shard, f(states[from].0)) else states
    case Replaced(shard, state) => Insert(hasher, states, shard, state)
  }

  /** Turns taken one after the other, each on the states the one before it left. */
  function Serial(hasher: StateHasher, states: StatesMap, turns: seq<Turn>): StatesMap
    decreases |turns|
  {
    if |turns| == 0 then states else Serial(hasher, Taken(hasher, states, turns[0]), turns[1..])
  }

  // ---------- No lost updates ----------

  /** A writer is alone and its copy is the current state of its shard. */
  ghost predicate Exclusive(s: Lock) {
    s.writer.Some? ==>
      && s.readers == multiset{}
      && s.writer.value.shard in s.states
      && s.writer.value.copy == s.states[s.writer.value.shard].0
  }

  /** The turn that is under way, if it will write. */
  function UnderWay(s: Lock, trace: seq<Event>): seq<Turn> {
    if s.writer.Some? then Finished(s.writer.value.shard, Ending(s.writer.value.thread, trace)) else []
  }

  lemma {:induction false} NothingToEnd(hasher: StateHasher, s: Lock, trace: seq<Event>, thread: Thread)
    requires Possible(hasher, s, trace)
    requires s.writer.Some? ==> s.writer.value.thread != thread
    ensures Ending(thread, trace).None?
    decreases |trace|
  {
    if |trace| > 0 && !(trace[0].LoadForMutation? && trace[0].thread == thread) {
      NothingToEnd(hasher, Step(hasher, s, trace[0]), trace[1..], thread);
    }
  }

  /** Every interleaving of any number of threads is one turn after the other, in the order of the lock. */
  lemma {:induction false} RunIsSerial(hasher: StateHasher, s: Lock, trace: seq<Event>)
    requires Possible(hasher, s, trace) && Exclusive(s)
    ensures Run(hasher, s, trace).states == Serial(hasher, s.states, UnderWay(s, trace) + LockOrder(trace))
    ensures Exclusive(Run(hasher, s, trace))
    decreases |trace|
  {
    if |trace| > 0 {
      var e, rest, s' := trace[0], trace[1..], Step(hasher, s, trace[0]);
      RunIsSerial(hasher, s', rest);
      if s.writer.Some? {
        assert e.thread == s.writer.value.thread;
        assert [] + LockOrder(rest) == LockOrder(rest);
        if e.WriteAfterMutation? {
          var turn := Mutated(e.shard, s.writer.value.shard, e.f);
          assert ([turn] + LockOrder(rest))[1..] == LockOrder(rest);
        }
      } else {
        assert [] + LockOrder(trace) == LockOrder(trace);
        assert [] + LockOrder(rest) == LockOrder(rest);
        if e.LoadForMutation? && e.shard !in s.states {
          NothingToEnd(hasher, s', rest, e.thread);
        } else if e.Reset? {
          assert LockOrder(trace)[1..] == LockOrder(rest);
        }
      }
    }
  }

  function StateOf(states: StatesMap, shard: ShardIdentifier): Option<SgxExternalities> {
    if shard in states then Some(states[shard].0) else None
  }

  /**
   * What one shard becomes: what the last turn that wrote it made of the shard it started from, as that
   * shard was then; a turn that starts from a shard without a state writes nothing.
   */
  function Composed(states: StatesMap, turns: seq<Turn>, shard: ShardIdentifier): Option<SgxExternalities>
    decreases |turns|
  {
    if |turns| == 0 then StateOf(states, shard)
    else
      var before, turn := turns[..|turns| - 1], turns[|turns| - 1];
      if turn.shard != shard then Composed(states, before, shard)
      else if turn.Replaced? then Some(PruneDiff(turn.state))
      else
        var start := Composed(states, before, turn.from);
        if start.Some? then Some(PruneDiff(turn.f(start.value))) else Composed(states, before, shard)
  }

  ghost predicate Honest(hasher: StateHasher, states: StatesMap) {
    forall shard :: shard in states ==> states[shard].1 == hasher(states[shard].0.state)
  }

  lemma {:induction false} LastTurn(hasher: StateHasher, states: StatesMap, turns: seq<Turn>)
    requires |turns| > 0
    ensures var n := |turns| - 1;
      Serial(hasher, states, turns) == Taken(hasher, Serial(hasher, states, turns[..n]), turns[n])
    decreases |turns|
  {
    var n := |turns| - 1;
    if n > 0 {
      assert turns[1..][..n - 1] == turns[..n][1..];
      LastTurn(hasher, Taken(hasher, states, turns[0]), turns[1..]);
    }
  }

  lemma {:induction false} SerialPerShard(hasher: StateHasher, states: StatesMap, turns: seq<Turn>,
      shard: ShardIdentifier)
    requires Honest(hasher, states)
    ensures StateOf(Serial(hasher, states, turns), shard) == Composed(states, turns, shard)
    ensures Honest(hasher, Serial(hasher, states, turns))
    decreases |turns|
  {
    if |turns| > 0 {
      var n := |turns| - 1;
      LastTurn(hasher, states, turns);
      SerialPerShard(hasher, states, turns[..n], shard);
      if turns[n].Mutated? {
        SerialPerShard(hasher, states, turns[..n], turns[n].from);
      }
    }
  }

  /**
   * No lost updates: from a free lock, whatever the threads do, every shard ends up at the composition
   * of all mutations written to it, in lock order, stored with the hash of that very state.
   */
  lemma NoLostUpdates(hasher: StateHasher, s: Lock, trace: seq<Event>, shard: ShardIdentifier)
    requires Possible(hasher, s, trace) && s.writer.None? && Honest(hasher, s.states)
    ensures var states := Run(hasher, s, trace).states;
      StateOf(states, shard) == Composed(s.states, LockOrder(trace), shard) && Honest(hasher, states)
  {
    RunIsSerial(hasher, s, trace);
    assert [] + LockOrder(trace) == LockOrder(trace);
    SerialPerShard(hasher, s.states, LockOrder(trace), shard);
  }

  lemma {:induction false} PossiblePrefix(hasher: StateHasher, s: Lock, trace: seq<Event>, n: nat)
    requires Possible(hasher, s, trace) && n < |trace|
    ensures Possible(hasher, s, trace[..n]) && Enabled(Run(hasher, s, trace[..n]), trace[n])
    decreases n
  {
    if n > 0 {
      assert trace[..n][1..] == trace[1..][..n - 1];
      PossiblePrefix(hasher, Step(hasher, s, trace[0]), trace[1..], n - 1);
    }
  }

  /**
   * A reader that looks at a shard, at any moment of any run, sees exactly what the turns finished by
   * then have made of it, together with the hash of what it sees.
   */
  lemma ReadersSeeCommitted(hasher: StateHasher, s: Lock, trace: seq<Event>, n: nat)
    requires Possible(hasher, s, trace) && s.writer.None? && Honest(hasher, s.states)
    requires n < |trace| && trace[n].Look?
    ensures Possible(hasher, s, trace[..n])
    ensures var seen := Run(hasher, s, trace[..n]);
      var shard := trace[n].shard;
      && seen.writer.None?
      && StateOf(seen.states, shard) == Composed(s.states, LockOrder(trace[..n]), shard)
      && Honest(hasher, seen.states)
  {
    PossiblePrefix(hasher, s, trace, n);
    RunIsSerial(hasher, s, trace[..n]);
    NoLostUpdates(hasher, s, trace[..n], trace[n].shard);
  }

  // ---------- Getting the lock back ----------

  /** How often a thread takes the lock for reading in a trace, less how often it lets go. */
  function Held(trace: seq<Event>, t: Thread): int {
    if |trace| == 0 then 0
    else Held(trace[1..], t) + match trace[0]
      case ReadLock(u) => if u == t then 1 else 0
      case ReadUnlock(u) => if u == t then -1 else 0
      case _ => 0
  }

  /** The thread of the last load that got the lock, unless the lock was let go of since. */
  function Holder(states: set<ShardIdentifier>, holder: Option<Thread>, trace: seq<Event>): Option<Thread>
    decreases |trace|
  {
    if |trace| == 0 then holder
    else match trace[0]
      case LoadForMutation(t, shard) => Holder(states, if shard in states then Some(t) else holder, trace[1..])
      case WriteAfterMutation(_, shard, _) => Holder(states + {shard}, None, trace[1..])
      case DropLock(_) => Holder(states, None, trace[1..])
      case Reset(_, shard, _) => Holder(states + {shard}, holder, trace[1..])
      case _ => Holder(states, holder, trace[1..])
  }

  lemma {:induction false} ReadersLetGo(hasher: StateHasher, s: Lock, trace: seq<Event>, t: Thread)
    requires Possible(hasher, s, trace)
    ensures Run(hasher, s, trace).readers[t] == s.readers[t] + Held(trace, t)
    decreases |trace|
  {
    if |trace| > 0 {
      ReadersLetGo(hasher, Step(hasher, s, trace[0]), trace[1..], t);
    }
  }

  function WriterOf(s: Lock): Option<Thread> {
    if s.writer.Some? then Some(s.writer.value.thread) else None
  }

  lemma {:induction false} WriterLetsGo(hasher: StateHasher, s: Lock, trace: seq<Event>)
    requires Possible(hasher, s, trace)
    ensures WriterOf(Run(hasher, s, trace)) == Holder(s.states.Keys, WriterOf(s), trace)
    decreases |trace|
  {
    if |trace| > 0 {
      var s1 := Step(hasher, s, trace[0]);
      WriterLetsGo(hasher, s1, trace[1..]);
      assert trace[0].WriteAfterMutation? || trace[0].Reset? ==> s1.states.Keys == s.states.Keys + {trace[0].shard};
    }
  }

  /**
   * Whoever lets go has let go: the lock is held for reading exactly as often as it was taken and not let go
   * of, and for writing exactly by the thread whose load got it and that has neither written nor dropped it.
   */
  lemma LockIsReleased(hasher: StateHasher, s: Lock, trace: seq<Event>, t: Thread)
    requires Possible(hasher, s, trace)
    ensures var s' := Run(hasher, s, trace);
      && s'.readers[t] == s.readers[t] + Held(trace, t)
      && WriterOf(s') == Holder(s.states.Keys, WriterOf(s), trace)
  {
    ReadersLetGo(hasher, s, trace, t);
    WriterLetsGo(hasher, s, trace);
  }
}
