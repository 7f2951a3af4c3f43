/** Turning the calls a block wants executed on the parentchains into numbered extrinsics. */
module OutgoingExtrinsics {
  import opened Prelude
  import opened Ledger
  import opened TrustedCalls

  datatype Extrinsic = Extrinsic(signer: AccountId, call: OpaqueCall, nonce: Index)

  /** One extrinsic per call, with consecutive nonces. */
  function Numbered(signer: AccountId, calls: seq<OpaqueCall>, first: nat): (xts: seq<Extrinsic>)
    ensures |xts| == |calls|
    ensures forall i :: 0 <= i < |calls| ==> xts[i] == Extrinsic(signer, calls[i], (first + i) % U32)
  {
    seq(|calls|, i requires 0 <= i < |calls| => Extrinsic(signer, calls[i], (first + i) % U32))
  }

  /** The calls meant for one chain, in order. */
  function Route(calls: seq<ParentchainCall>, chain: ParentchainId): seq<OpaqueCall> {
    if calls == [] then []
    else (if calls[0].target == chain then [calls[0].call] else []) + Route(calls[1..], chain)
  }

  // ---------- Factory ----------

  class NonceCache {
    var nonce: Index

    constructor ()
      ensures nonce == 0
    {
      nonce := 0;
    }
  }

  class ExtrinsicsFactory {
    const signer: AccountId
    const cache: NonceCache

    constructor (signer: AccountId, cache: NonceCache)
      ensures this.signer == signer && this.cache == cache
    {
      this.signer := signer;
      this.cache := cache;
    }

    /** Holds the nonce while numbering the calls; without metadata it fails before using any. */
    method CreateExtrinsics(calls: seq<OpaqueCall>, metadata: bool) returns (r: Result<seq<Extrinsic>, ()>)
      modifies cache
      ensures r.Ok? <==> metadata
      ensures r.Ok? ==>
        r.value == Numbered(signer, calls, old(cache.nonce)) && cache.nonce == (old(cache.nonce) + |calls|) % U32
      ensures r.Err? ==> cache.nonce == old(cache.nonce)
    {
      if !metadata { return Err(()); }
      var nonce: Index := cache.nonce;
      var xts := [];
      for n := 0 to |calls|
        invariant nonce == (old(cache.nonce) + n) % U32
        invariant xts == Numbered(signer, calls[..n], old(cache.nonce))
      {
        xts := xts + [Extrinsic(signer, calls[n], nonce)];
        SuccessorWraps(old(cache.nonce) + n);
        nonce := (nonce + 1) % U32;
      }
      assert calls[..|calls|] == calls;
      cache.nonce := nonce;
      r := Ok(xts);
    }
  }

  // ---------- Sending ----------

  /** What happens on one chain: whether extrinsics can be created, and whether they can be sent. */
  datatype ChainEnv = ChainEnv(metadata: bool, validator: bool)
  datatype SendEnv = SendEnv(peers: bool, integritee: ChainEnv, targetA: ChainEnv, targetB: ChainEnv)

  /** One chain's signer, its next nonce, and everything sent to it. */
  datatype Lane = Lane(signer: AccountId, nonce: Index, sent: seq<Extrinsic>)

  datatype Lanes = Lanes(integritee: Lane, targetA: Lane, targetB: Lane) {
    function Of(chain: ParentchainId): Lane {
      match chain
      case Integritee => integritee
      case TargetA => targetA
      case TargetB => targetB
    }
  }

  /** Nonces are used up when the extrinsics are created, whether or not they can then be sent. */
  function SendOn(lane: Lane, calls: seq<OpaqueCall>, env: ChainEnv): (bool, Lane) {
    if calls == [] then (true, lane)
    else if !env.metadata then (false, lane)
    else
      var next := lane.(nonce := (lane.nonce + |calls|) % U32);
      if env.validator then (true, next.(sent := lane.sent + Numbered(lane.signer, calls, lane.nonce)))
        else (false, next)
  }

  /** Peers first, then one chain after the other; the first failure ends it and what was sent stays sent. */
  function Send(lanes: Lanes, calls: seq<ParentchainCall>, env: SendEnv): (bool, Lanes) {
    if !env.peers then (false, lanes)
    else
      var (ok, lane) := SendOn(lanes.integritee, Route(calls, Integritee), env.integritee);
      var lanes := lanes.(integritee := lane);
      if !ok then (false, lanes)
      else
        var (ok, lane) := SendOn(lanes.targetA, Route(calls, TargetA), env.targetA);
        var lanes := lanes.(targetA := lane);
        if !ok then (false, lanes)
        else
          var (ok, lane) := SendOn(lanes.targetB, Route(calls, TargetB), env.targetB);
          (ok, lanes.(targetB := lane))
  }

  datatype Sending = Sending(calls: seq<ParentchainCall>, env: SendEnv)

  function EnvOf(env: SendEnv, chain: ParentchainId): ChainEnv {
    match chain
    case Integritee => env.integritee
    case TargetA => env.targetA
    case TargetB => env.targetB
  }

  predicate GoesThrough(s: Sending, chain: ParentchainId) {
    Route(s.calls, chain) == [] || (EnvOf(s.env, chain).metadata && EnvOf(s.env, chain).validator)
  }

  /** Everything gets through: peers and, for every chain that has calls, metadata and validator. */
  predicate Succeeds(s: Sending) {
    s.env.peers && GoesThrough(s, Integritee) && GoesThrough(s, TargetA) && GoesThrough(s, TargetB)
  }

  lemma SendSucceedsIff(lanes: Lanes, s: Sending)
    ensures Send(lanes, s.calls, s.env).0 <==> Succeeds(s)
  {
    hide Route, Numbered;
  }

  class ParentchainSender {
    const integritee: ExtrinsicsFactory
    const targetA: ExtrinsicsFactory
    const targetB: ExtrinsicsFactory
    var sentToIntegritee: seq<Extrinsic>
    var sentToTargetA: seq<Extrinsic>
    var sentToTargetB: seq<Extrinsic>

    constructor (integritee: ExtrinsicsFactory, targetA: ExtrinsicsFactory, targetB: ExtrinsicsFactory)
      ensures this.integritee == integritee && this.targetA == targetA && this.targetB == targetB
      ensures sentToIntegritee == sentToTargetA == sentToTargetB == []
    {
      this.integritee, this.targetA, this.targetB := integritee, targetA, targetB;
      sentToIntegritee, sentToTargetA, sentToTargetB := [], [], [];
    }

    /** Every chain has a nonce cache of its own. */
    ghost predicate Valid() {
      integritee.cache != targetA.cache && targetA.cache != targetB.cache && integritee.cache != targetB.cache
    }

    function State(): Lanes
      reads this, integritee.cache, targetA.cache, targetB.cache
    {
      Lanes(
        Lane(integritee.signer, integritee.cache.nonce, sentToIntegritee),
        Lane(targetA.signer, targetA.cache.nonce, sentToTargetA),
        Lane(targetB.signer, targetB.cache.nonce, sentToTargetB))
    }

    method SendBlocksAndExtrinsics(calls: seq<ParentchainCall>, env: SendEnv) returns (ok: bool)
      requires Valid()
      modifies this, integritee.cache, targetA.cache, targetB.cache
      ensures (ok, State()) == Send(old(State()), calls, env)
      ensures ok <==> Succeeds(Sending(calls, env))
    {
      SendSucceedsIff(State(), Sending(calls, env));
      if !env.peers { return false; }
      var routed := Route(calls, Integritee);
      if routed != [] {
        var xts := integritee.CreateExtrinsics(routed, env.integritee.metadata);
        if xts.Err? || !env.integritee.validator { return false; }
        sentToIntegritee := sentToIntegritee + xts.value;
      }
      routed := Route(calls, TargetA);
      if routed != [] {
        var xts := targetA.CreateExtrinsics(routed, env.targetA.metadata);
        if xts.Err? || !env.targetA.validator { return false; }
        sentToTargetA := sentToTargetA + xts.value;
      }
      routed := Route(calls, TargetB);
      if routed != [] {
        var xts := targetB.CreateExtrinsics(routed, env.targetB.metadata);
        if xts.Err? || !env.targetB.validator { return false; }
        sentToTargetB := sentToTargetB + xts.value;
      }
      ok := true;
    }
  }

  // ---------- Exactly once ----------

  lemma {:induction false} RouteSplit(a: seq<ParentchainCall>, b: seq<ParentchainCall>, chain: ParentchainId)
    ensures Route(a + b, chain) == Route(a, chain) + Route(b, chain)
  {
    if a == [] {
      assert a + b == b;
    } else {
      assert (a + b)[1..] == a[1..] + b;
      RouteSplit(a[1..], b, chain);
      var head := if a[0].target == chain then [a[0].call] else [];
      assert head + Route(a[1..], chain) + Route(b, chain) == head + (Route(a[1..], chain) + Route(b, chain));
    }
  }

  /** Routing sends every call to its own chain and no other, keeping the order:
    * call `i` comes after the calls to the same chain before it. */
  lemma {:induction false} RoutedOnce(calls: seq<ParentchainCall>, i: nat)
    requires i < |calls|
    ensures var chain := calls[i].target;
      var rank := |Route(calls[..i], chain)|;
      rank < |Route(calls, chain)| && Route(calls, chain)[rank] == calls[i].call
    ensures |Route(calls, Integritee)| + |Route(calls, TargetA)| + |Route(calls, TargetB)| == |calls|
  {
    var chain := calls[i].target;
    var before, rest := calls[..i], calls[i..];
    assert calls == before + rest;
    RouteSplit(before, rest, chain);
    assert rest[0] == calls[i];
    RouteCount(calls);
  }

  lemma {:induction false} RouteCount(calls: seq<ParentchainCall>)
    ensures |Route(calls, Integritee)| + |Route(calls, TargetA)| + |Route(calls, TargetB)| == |calls|
  {
    if calls != [] {
      RouteCount(calls[1..]);
    }
  }

  lemma {:induction false} NumberedSplit(signer: AccountId, a: seq<OpaqueCall>, b: seq<OpaqueCall>, first: nat)
    ensures Numbered(signer, a + b, first) == Numbered(signer, a, first) + Numbered(signer, b, (first + |a|) % U32)
  {
    hide Numbered;
    var xts, second := Numbered(signer, a + b, first), Numbered(signer, b, (first + |a|) % U32);
    forall i | 0 <= i < |b|
      ensures second[i] == xts[|a| + i]
    {
      SumWraps(first + |a|, i);
    }
  }

  function SendAll(lanes: Lanes, sendings: seq<Sending>): Lanes
    decreases |sendings|
  {
    if sendings == [] then lanes else SendAll(Send(lanes, sendings[0].calls, sendings[0].env).1, sendings[1..])
  }

  predicate AllSucceed(sendings: seq<Sending>) {
    forall i :: 0 <= i < |sendings| ==> Succeeds(sendings[i])
  }

  function AllCalls(sendings: seq<Sending>): seq<ParentchainCall> {
    if sendings == [] then [] else sendings[0].calls + AllCalls(sendings[1..])
  }

  /** One chain after one sending that went through. */
  lemma LaneAfterSend(lanes: Lanes, s: Sending, chain: ParentchainId)
    requires Succeeds(s)
    ensures var lane, lane' := lanes.Of(chain), Send(lanes, s.calls, s.env).1.Of(chain);
      var calls := Route(s.calls, chain);
      lane' == Lane(lane.signer, (lane.nonce + |calls|) % U32, lane.sent + Numbered(lane.signer, calls, lane.nonce))
  {
    hide Numbered, Route;
    var lane, calls := lanes.Of(chain), Route(s.calls, chain);
    if calls == [] {
      assert lane.sent + Numbered(lane.signer, calls, lane.nonce) == lane.sent;
    }
  }

  lemma NoRoute(chain: ParentchainId)
    ensures Route([], chain) == []
  {
  }

  /** Over any number of sendings, a chain receives the calls meant for it, in order and numbered through. */
  lemma {:induction false} LaneAfterAll(lanes: Lanes, sendings: seq<Sending>, chain: ParentchainId)
    requires AllSucceed(sendings)
    ensures var lane, lane' := lanes.Of(chain), SendAll(lanes, sendings).Of(chain);
      var calls := Route(AllCalls(sendings), chain);
      lane' == Lane(lane.signer, (lane.nonce + |calls|) % U32, lane.sent + Numbered(lane.signer, calls, lane.nonce))
    decreases |sendings|
  {
    hide Numbered, Route, Send, Lanes.Of, Succeeds;
    var lane := lanes.Of(chain);
    if sendings == [] {
      NoRoute(chain);
      assert lane.sent + Numbered(lane.signer, [], lane.nonce) == lane.sent;
    } else {
      var first, rest := Route(sendings[0].calls, chain), Route(AllCalls(sendings[1..]), chain);
      LaneAfterSend(lanes, sendings[0], chain);
      LaneAfterAll(Send(lanes, sendings[0].calls, sendings[0].env).1, sendings[1..], chain);
      RouteSplit(sendings[0].calls, AllCalls(sendings[1..]), chain);
      NumberedSplit(lane.signer, first, rest, lane.nonce);
      SumWraps(lane.nonce + |first|, |rest|);
      var a, b := Numbered(lane.signer, first, lane.nonce), Numbered(lane.signer, rest, (lane.nonce + |first|) % U32);
      assert lane.sent + a + b == lane.sent + (a + b);
    }
  }

  /**
   * Over any sequence of successful sendings, the i-th call becomes exactly one extrinsic, on its own
   * chain, behind the earlier calls to that chain, with the nonce that position asks for.
   */
  lemma SentExactlyOnce(lanes: Lanes, sendings: seq<Sending>, i: nat)
    requires AllSucceed(sendings) && i < |AllCalls(sendings)|
    ensures var call := AllCalls(sendings)[i];
      var lane, lane' := lanes.Of(call.target), SendAll(lanes, sendings).Of(call.target);
      var rank := |Route(AllCalls(sendings)[..i], call.target)|;
      && |lane.sent| + rank < |lane'.sent|
      && lane'.sent[|lane.sent| + rank] == Extrinsic(lane.signer, call.call, (lane.nonce + rank) % U32)
    ensures var all := SendAll(lanes, sendings);
      |all.integritee.sent| + |all.targetA.sent| + |all.targetB.sent|
      == |lanes.integritee.sent| + |lanes.targetA.sent| + |lanes.targetB.sent| + |AllCalls(sendings)|
  {
    hide Numbered, Route, SendAll, AllCalls, AllSucceed;
    RoutedOnce(AllCalls(sendings), i);
    LaneAfterAll(lanes, sendings, Integritee);
    LaneAfterAll(lanes, sendings, TargetA);
    LaneAfterAll(lanes, sendings, TargetB);
  }

  // ---------- No nonce twice ----------

  /** A call that was made into an extrinsic, and whether the extrinsic was then sent. */
  datatype Creation = Creation(call: OpaqueCall, sent: bool)

  /** The sending gets as far as this chain: peers are there and the chains before it went through. */
  predicate Reaches(s: Sending, chain: ParentchainId) {
    && s.env.peers
    && (chain != Integritee ==> GoesThrough(s, Integritee))
    && (chain == TargetB ==> GoesThrough(s, TargetA))
  }

  function Creations(calls: seq<OpaqueCall>, sent: bool): (created: seq<Creation>)
    ensures |created| == |calls| && forall i :: 0 <= i < |calls| ==> created[i] == Creation(calls[i], sent)
  {
    seq(|calls|, i requires 0 <= i < |calls| => Creation(calls[i], sent))
  }

  function CreatedBy(s: Sending, chain: ParentchainId): seq<Creation> {
    if !Reaches(s, chain) || !EnvOf(s.env, chain).metadata then []
    else Creations(Route(s.calls, chain), EnvOf(s.env, chain).validator)
  }

  /** All calls for which extrinsics were created on a chain, sent or not. */
  function Created(sendings: seq<Sending>, chain: ParentchainId): seq<Creation> {
    if sendings == [] then [] else CreatedBy(sendings[0], chain) + Created(sendings[1..], chain)
  }

  /** The extrinsics that were sent, if creation `k` took the `k`-th nonce from `first` on. */
  function Delivered(signer: AccountId, created: seq<Creation>, first: nat): seq<Extrinsic> {
    if created == [] then []
    else
      (if created[0].sent then [Extrinsic(signer, created[0].call, first % U32)] else [])
      + Delivered(signer, created[1..], first + 1)
  }

  lemma {:induction false} DeliveredSplit(signer: AccountId, a: seq<Creation>, b: seq<Creation>, first: nat)
    ensures Delivered(signer, a + b, first) == Delivered(signer, a, first) + Delivered(signer, b, first + |a|)
  {
    if a == [] {
      assert a + b == b;
    } else {
      assert (a + b)[1..] == a[1..] + b;
      DeliveredSplit(signer, a[1..], b, first + 1);
      var head := if a[0].sent then [Extrinsic(signer, a[0].call, first % U32)] else [];
      var x, y := Delivered(signer, a[1..], first + 1), Delivered(signer, b, first + |a|);
      assert head + x + y == head + (x + y);
    }
  }

  lemma {:induction false} DeliveredWraps(signer: AccountId, created: seq<Creation>, first: nat, first': nat)
    requires first % U32 == first' % U32
    ensures Delivered(signer, created, first) == Delivered(signer, created, first')
  {
    if created != [] {
      SuccessorWraps(first);
      SuccessorWraps(first');
      DeliveredWraps(signer, created[1..], first + 1, first' + 1);
    }
  }

  /** Extrinsics that are all sent are the calls numbered through; if none is sent there are none. */
  lemma {:induction false} DeliveredTogether(signer: AccountId, calls: seq<OpaqueCall>, sent: bool, first: nat)
    ensures Delivered(signer, Creations(calls, sent), first) == if sent then Numbered(signer, calls, first) else []
  {
    if calls != [] {
      var rest := calls[1..];
      assert Creations(calls, sent)[1..] == Creations(rest, sent);
      DeliveredTogether(signer, rest, sent, first + 1);
      assert [Extrinsic(signer, calls[0], first % U32)] + Numbered(signer, rest, first + 1)
        == Numbered(signer, calls, first);
    }
  }

  /** A chain that has numbered its creations from its nonce on, and was sent those that could be sent. */
  ghost predicate Advanced(lane: Lane, lane': Lane, created: seq<Creation>) {
    && lane'.signer == lane.signer && lane'.nonce == (lane.nonce + |created|) % U32
    && lane'.sent == lane.sent + Delivered(lane.signer, created, lane.nonce)
  }

  lemma LaneAdvances(lane: Lane, calls: seq<OpaqueCall>, env: ChainEnv)
    ensures Advanced(lane, lane, [])
    ensures Advanced(lane, SendOn(lane, calls, env).1, if env.metadata then Creations(calls, env.validator) else [])
  {
    hide Numbered;
    DeliveredTogether(lane.signer, calls, env.validator, lane.nonce);
  }

  /** One chain after one sending, whatever failed. */
  lemma LaneAfterAny(lanes: Lanes, s: Sending, chain: ParentchainId)
    ensures Advanced(lanes.Of(chain), Send(lanes, s.calls, s.env).1.Of(chain), CreatedBy(s, chain))
  {
    hide Route, Advanced, Numbered, Creations;
    LaneAdvances(lanes.Of(chain), Route(s.calls, chain), EnvOf(s.env, chain));
  }

  /**
   * Over any number of sendings, whatever fails on the way, the creations of a chain take one nonce each,
   * in order, and the chain receives exactly those that were sent.
   */
  lemma {:induction false} LaneAfterSendings(lanes: Lanes, sendings: seq<Sending>, chain: ParentchainId)
    ensures Advanced(lanes.Of(chain), SendAll(lanes, sendings).Of(chain), Created(sendings, chain))
    decreases |sendings|
  {
    hide Send, Lanes.Of, CreatedBy, Delivered;
    var lane := lanes.Of(chain);
    if sendings == [] {
      NothingDelivered(lane.signer, lane.nonce);
    } else {
      var a, b := CreatedBy(sendings[0], chain), Created(sendings[1..], chain);
      LaneAfterAny(lanes, sendings[0], chain);
      LaneAfterSendings(Send(lanes, sendings[0].calls, sendings[0].env).1, sendings[1..], chain);
      SumWraps(lane.nonce + |a|, |b|);
      DeliveredSplit(lane.signer, a, b, lane.nonce);
      DeliveredWraps(lane.signer, b, lane.nonce + |a|, (lane.nonce + |a|) % U32);
      var x, y := Delivered(lane.signer, a, lane.nonce), Delivered(lane.signer, b, lane.nonce + |a|);
      assert lane.sent + x + y == lane.sent + (x + y);
    }
  }

  lemma NothingDelivered(signer: AccountId, first: nat)
    ensures Delivered(signer, [], first) == []
  {
  }

  /** Every delivered extrinsic carries the nonce of one of the creations. */
  lemma {:induction false} DeliveredNonce(signer: AccountId, created: seq<Creation>, first: nat, i: nat)
      returns (k: nat)
    requires i < |Delivered(signer, created, first)|
    ensures k < |created| && created[k].sent
    ensures Delivered(signer, created, first)[i] == Extrinsic(signer, created[k].call, (first + k) % U32)
  {
    if created[0].sent && i == 0 {
      k := 0;
    } else {
      k := DeliveredNonce(signer, created[1..], first + 1, if created[0].sent then i - 1 else i);
      k := k + 1;
    }
  }

  lemma {:induction false} DeliveredDistinct(signer: AccountId, created: seq<Creation>, first: nat, i: nat, j: nat)
    requires |created| <= U32 && i < j < |Delivered(signer, created, first)|
    ensures Delivered(signer, created, first)[i].nonce != Delivered(signer, created, first)[j].nonce
  {
    if !created[0].sent {
      DeliveredDistinct(signer, created[1..], first + 1, i, j);
    } else if i > 0 {
      DeliveredDistinct(signer, created[1..], first + 1, i - 1, j - 1);
    } else {
      var k := DeliveredNonce(signer, created[1..], first + 1, j - 1);
      WrapsDistinct(first, first + 1 + k);
    }
  }

  /**
   * No nonce twice: as long as no more extrinsics are created on a chain than the counter has values, those
   * the chain receives all carry different nonces. What was created and not sent leaves a gap.
   */
  lemma NoNonceTwice(lanes: Lanes, sendings: seq<Sending>, chain: ParentchainId, i: nat, j: nat)
    requires |Created(sendings, chain)| <= U32
    requires |lanes.Of(chain).sent| <= i < j < |SendAll(lanes, sendings).Of(chain).sent|
    ensures var lane' := SendAll(lanes, sendings).Of(chain);
      lane'.sent[i].nonce != lane'.sent[j].nonce
  {
    hide SendAll, Created, Delivered;
    var lane := lanes.Of(chain);
    LaneAfterSendings(lanes, sendings, chain);
    DeliveredDistinct(lane.signer, Created(sendings, chain), lane.nonce, i - |lane.sent|, j - |lane.sent|);
  }
}
