/** Feeding finalized parentchain blocks to the enclave, chunk by chunk. */
module ParentchainSync {
  import opened Prelude
  import opened Externalities

  const BLOCK_SYNC_BATCH_SIZE: nat := 1000

  type BlockNumber = nat
  datatype Block = Block(number: BlockNumber, hash: H256)
  type Events = nat
  type StorageProof = nat

  /** A chain as its node serves it: the block of every number, and the events of every block, with proof. */
  datatype Chain = Chain(hashAt: BlockNumber -> H256, events: H256 -> Events, proof: H256 -> StorageProof)

  /** One delivery to the enclave. */
  datatype Chunk = Chunk(blocks: seq<Block>, events: seq<Events>, proofs: seq<StorageProof>)

  datatype SyncError = ApiError | UnknownBlockHeader

  function BlockAt(chain: Chain, n: BlockNumber): Block {
    Block(n, chain.hashAt(n))
  }

  /** The blocks numbered `from` to `to`, both included; none when `from` is greater. */
  function BlockRange(chain: Chain, from: BlockNumber, to: int): (blocks: seq<Block>)
    ensures |blocks| == if from <= to then to - from + 1 else 0
    ensures forall i :: 0 <= i < |blocks| ==> blocks[i] == BlockAt(chain, from + i)
  {
    seq(if from <= to then to - from + 1 else 0, i requires 0 <= i => BlockAt(chain, from + i))
  }

  function Delivered(chunks: seq<Chunk>): seq<Block> {
    if chunks == [] then [] else Delivered(chunks[..|chunks| - 1]) + chunks[|chunks| - 1].blocks
  }

  // ---------- What a delivery must be ----------

  /** The events of a chunk may be left out only if all of it lies before the creation of the shard. */
  ghost predicate Proper(chain: Chain, creation: Option<BlockNumber>, chunk: Chunk) {
    && 0 < |chunk.blocks| <= BLOCK_SYNC_BATCH_SIZE
    && if (forall i :: 0 <= i < |chunk.blocks| ==> creation.Some? && chunk.blocks[i].number < creation.value) then
         chunk.events == [] && chunk.proofs == []
       else
         && |chunk.events| == |chunk.proofs| == |chunk.blocks|
         && forall i :: 0 <= i < |chunk.blocks| ==>
              chunk.events[i] == chain.events(chunk.blocks[i].hash)
                && chunk.proofs[i] == chain.proof(chunk.blocks[i].hash)
  }

  ghost predicate AllProper(chain: Chain, creation: Option<BlockNumber>, chunks: seq<Chunk>) {
    forall i :: 0 <= i < |chunks| ==> Proper(chain, creation, chunks[i])
  }

  lemma ProperStep(chain: Chain, creation: Option<BlockNumber>, chunks: seq<Chunk>, chunk: Chunk)
    requires AllProper(chain, creation, chunks) && Proper(chain, creation, chunk)
    ensures AllProper(chain, creation, chunks + [chunk])
  {
    hide Proper;
  }

  lemma DeliveredStep(chunks: seq<Chunk>, chunk: Chunk)
    ensures Delivered(chunks + [chunk]) == Delivered(chunks) + chunk.blocks
  {
    assert (chunks + [chunk])[..|chunks|] == chunks;
  }

  lemma RangeSplit(chain: Chain, from: BlockNumber, mid: int, to: int)
    requires from <= mid + 1 <= to + 1
    ensures BlockRange(chain, from, mid) + BlockRange(chain, mid + 1, to) == BlockRange(chain, from, to)
  {
  }

  lemma DeliveredRange(chain: Chain, chunks: seq<Chunk>, chunk: Chunk, from: BlockNumber, mid: int, to: int)
    requires from <= mid + 1 <= to + 1
    requires Delivered(chunks) == BlockRange(chain, from, mid) && chunk.blocks == BlockRange(chain, mid + 1, to)
    ensures Delivered(chunks + [chunk]) == BlockRange(chain, from, to)
  {
    DeliveredStep(chunks, chunk);
    RangeSplit(chain, from, mid, to);
  }

  /** Chunks delivered back to back are one delivery. */
  lemma {:induction false} DeliveredConcat(a: seq<Chunk>, b: seq<Chunk>)
    ensures Delivered(a + b) == Delivered(a) + Delivered(b)
  {
    if b == [] {
      assert a + b == a;
    } else {
      var n := |b| - 1;
      assert (a + b)[..|a| + n] == a + b[..n];
      DeliveredConcat(a, b[..n]);
    }
  }

  lemma NothingSent(chain: Chain, creation: Option<BlockNumber>, n: BlockNumber)
    ensures AllProper(chain, creation, [])
    ensures Delivered([]) == BlockRange(chain, n + 1, n)
  {
  }

  // ---------- Rounds ----------

  /** How many chunks it takes from one block number to another. */
  function Rounds(from: BlockNumber, to: BlockNumber): nat {
    if from < to then (to - from + BLOCK_SYNC_BATCH_SIZE - 1) / BLOCK_SYNC_BATCH_SIZE else 0
  }

  /** How far that many chunks get. */
  function Reached(from: BlockNumber, to: BlockNumber, rounds: nat): BlockNumber {
    if to <= from then from
    else if from + BLOCK_SYNC_BATCH_SIZE * rounds < to then from + BLOCK_SYNC_BATCH_SIZE * rounds
    else to
  }

  lemma NextRound(from: BlockNumber, to: BlockNumber, k: nat)
    ensures Reached(from, to, 0) == from
    ensures Reached(from, to, k) < to <==> k < Rounds(from, to)
    ensures k < Rounds(from, to) ==>
      Reached(from, to, k + 1) == if Reached(from, to, k) + BLOCK_SYNC_BATCH_SIZE < to
        then Reached(from, to, k) + BLOCK_SYNC_BATCH_SIZE else to
  {
  }

  // ---------- The handler ----------

  class ParentchainHandler {
    const chain: Chain
    const creation: Option<BlockNumber>
    /** Everything the enclave was given so far. */
    var delivered: seq<Chunk>

    constructor (chain: Chain, creation: Option<BlockNumber>)
      ensures this.chain == chain && this.creation == creation && delivered == []
    {
      this.chain := chain;
      this.creation := creation;
      this.delivered := [];
    }

    /** The events and proofs of a chunk, fetched block by block. */
    method FetchEvents(blocks: seq<Block>) returns (events: seq<Events>, proofs: seq<StorageProof>)
      ensures |events| == |proofs| == |blocks|
      ensures forall i ::
        0 <= i < |blocks| ==> events[i] == chain.events(blocks[i].hash) && proofs[i] == chain.proof(blocks[i].hash)
    {
      events, proofs := [], [];
      for n := 0 to |blocks|
        invariant |events| == |proofs| == n
        invariant forall i ::
          0 <= i < n ==> events[i] == chain.events(blocks[i].hash) && proofs[i] == chain.proof(blocks[i].hash)
      {
        events, proofs := events + [chain.events(blocks[n].hash)], proofs + [chain.proof(blocks[n].hash)];
      }
    }

    /** Leaves the events out when even the last block of the chunk is older than the shard. */
    method FetchChunk(blocks: seq<Block>) returns (chunk: Chunk)
      requires 0 < |blocks| <= BLOCK_SYNC_BATCH_SIZE
      requires forall i :: 0 <= i < |blocks| ==> blocks[i].number <= blocks[|blocks| - 1].number
      ensures chunk.blocks == blocks && Proper(chain, creation, chunk)
    {
      var skip := creation.Some? && blocks[|blocks| - 1].number < creation.value;
      var events, proofs := [], [];
      if !skip {
        events, proofs := FetchEvents(blocks);
      }
      chunk := Chunk(blocks, events, proofs);
      assert chunk.blocks[|blocks| - 1] == blocks[|blocks| - 1];
    }

    /**
     * Syncs up to the finalized head. `reachable` says, for each round, whether the node and the enclave
     * answer; the first failure ends the call, and what was delivered before stays delivered.
     */
    method SyncUntilLatestFinalized(last: Block, head: BlockNumber, reachable: nat -> bool)
      returns (r: Result<Block, SyncError>, synced: BlockNumber, ghost sent: seq<Chunk>)
      requires last.number + BLOCK_SYNC_BATCH_SIZE < U32 && head + BLOCK_SYNC_BATCH_SIZE < U32
      modifies this`delivered
      ensures delivered == old(delivered) + sent && AllProper(chain, creation, sent)
      ensures Delivered(sent) == BlockRange(chain, last.number + 1, synced)
      ensures last.number <= synced && (synced > last.number ==> synced <= head)
      ensures r.Ok? ==>
        synced == (if last.number < head then head else last.number) && r.value == BlockAt(chain, synced)
      ensures last.hash != chain.hashAt(last.number)
        ==> r == Err(UnknownBlockHeader) && synced == last.number && sent == []
      ensures last.hash == chain.hashAt(last.number) ==>
        && synced == Reached(last.number, head, |sent|) && |sent| <= Rounds(last.number, head)
        && (forall k :: 0 <= k < |sent| ==> reachable(k))
        && (if r.Ok? then |sent| == Rounds(last.number, head) && reachable(|sent|)
            else r.error == ApiError && !reachable(|sent|))
    {
      hide Proper, AllProper, Delivered, BlockRange, Rounds, Reached;
      synced, sent := last.number, [];
      NothingSent(chain, creation, last.number);
      if last.hash != chain.hashAt(last.number) { return Err(UnknownBlockHeader), synced, sent; }
      r := Ok(last);
      var round := 0;
      NextRound(last.number, head, 0);
      while true
        invariant round == |sent| <= Rounds(last.number, head) && synced == Reached(last.number, head, round)
        invariant forall k :: 0 <= k < round ==> reachable(k)
        invariant r == Ok(BlockAt(chain, synced))
        invariant last.number <= synced && (synced > last.number ==> synced <= head)
        invariant delivered == old(delivered) + sent && AllProper(chain, creation, sent)
        invariant Delivered(sent) == BlockRange(chain, last.number + 1, synced)
        decreases head - synced
      {
        NextRound(last.number, head, round);
        var to := if synced + BLOCK_SYNC_BATCH_SIZE < head then synced + BLOCK_SYNC_BATCH_SIZE else head;
        if !reachable(round) { return Err(ApiError), synced, sent; }
        var blocks := BlockRange(chain, synced + 1, to);
        if blocks == [] { return; }
        var chunk := FetchChunk(blocks);
        ProperStep(chain, creation, sent, chunk);
        DeliveredRange(chain, sent, chunk, last.number + 1, synced, to);
        delivered, sent := delivered + [chunk], sent + [chunk];
        r, synced := Ok(blocks[|blocks| - 1]), blocks[|blocks| - 1].number;
        round := round + 1;
      }
    }

    /**
     * Syncs again and again, against whatever head is finalized each time, until the wanted block is in;
     * `heads` are the heads seen, and if they run out the call is still waiting.
     */
    method AwaitSyncUntilAtLeast(last: Block, until: BlockNumber, heads: seq<BlockNumber>,
        reachable: nat -> nat -> bool)
      returns (r: Result<Option<Block>, SyncError>, synced: BlockNumber, ghost sent: seq<Chunk>)
      requires last.number + BLOCK_SYNC_BATCH_SIZE < U32 && forall i ::
        0 <= i < |heads| ==> heads[i] + BLOCK_SYNC_BATCH_SIZE < U32
      modifies this`delivered
      ensures delivered == old(delivered) + sent && AllProper(chain, creation, sent)
      ensures last.number <= synced && Delivered(sent) == BlockRange(chain, last.number + 1, synced)
      ensures r.Ok? && r.value.Some? ==>
        r.value.value.number == synced && until <= synced
        && ((sent == [] && r.value.value == last) || r.value.value == BlockAt(chain, synced))
      ensures last.number < until && heads != [] && last.hash != chain.hashAt(last.number)
        ==> r == Err(UnknownBlockHeader) && sent == []
      ensures r.Ok? && r.value.None? ==> synced < until && forall i :: 0 <= i < |heads| ==> heads[i] < until
      ensures last.number >= until ==> r == Ok(Some(last)) && sent == []
      ensures last.hash == chain.hashAt(last.number) && (forall i, k :: reachable(i)(k)) ==> r.Ok?
      ensures last.hash == chain.hashAt(last.number) && r.Err? ==> r.error == ApiError
    {
      hide Proper, AllProper, Delivered, BlockRange;
      var current, n := last, 0;
      sent := [];
      NothingSent(chain, creation, last.number);
      while current.number < until && n < |heads|
        invariant n <= |heads| && (n == 0 ==> current == last && sent == [])
        invariant n > 0 ==> current == BlockAt(chain, current.number) && last.hash == chain.hashAt(last.number)
        invariant last.number <= current.number && current.number + BLOCK_SYNC_BATCH_SIZE < U32
        invariant last.number >= until ==> current == last && sent == []
        invariant forall i :: 0 <= i < n ==> heads[i] <= current.number
        invariant delivered == old(delivered) + sent && AllProper(chain, creation, sent)
        invariant Delivered(sent) == BlockRange(chain, last.number + 1, current.number)
      {
        var round, reached;
        ghost var more;
        round, reached, more := SyncUntilLatestFinalized(current, heads[n], reachable(n));
        DeliveredMore(chain, creation, sent, more, last.number + 1, current.number, reached);
        assert old(delivered) + sent + more == old(delivered) + (sent + more);
        sent := sent + more;
        if round.Err? { return Err(round.error), reached, sent; }
        current, n := round.value, n + 1;
      }
      synced := current.number;
      r := Ok(if until <= synced then Some(current) else None);
    }
  }

  lemma DeliveredMore(chain: Chain, creation: Option<BlockNumber>, a: seq<Chunk>, b: seq<Chunk>, from: BlockNumber,
      mid: int, to: int)
    requires from <= mid + 1 <= to + 1
    requires AllProper(chain, creation, a) && AllProper(chain, creation, b)
    requires Delivered(a) == BlockRange(chain, from, mid) && Delivered(b) == BlockRange(chain, mid + 1, to)
    ensures AllProper(chain, creation, a + b) && Delivered(a + b) == BlockRange(chain, from, to)
  {
    hide Proper;
    DeliveredConcat(a, b);
    RangeSplit(chain, from, mid, to);
  }

  // ---------- No relevant event is lost ----------

  lemma {:induction false} FindDelivered(chunks: seq<Chunk>, k: nat) returns (c: nat, i: nat)
    requires k < |Delivered(chunks)|
    ensures c < |chunks| && i < |chunks[c].blocks| && chunks[c].blocks[i] == Delivered(chunks)[k]
  {
    var n := |chunks| - 1;
    if k < |Delivered(chunks[..n])| {
      c, i := FindDelivered(chunks[..n], k);
    } else {
      c, i := n, k - |Delivered(chunks[..n])|;
    }
  }

  /**
   * Every block of the synced range is delivered, and if it is not older than the shard its own events and
   * their proof are delivered at the same place.
   */
  lemma RelevantEventsDelivered(chain: Chain, creation: Option<BlockNumber>, sent: seq<Chunk>, from: BlockNumber,
      to: BlockNumber, number: BlockNumber)
    returns (c: nat, i: nat)
    requires AllProper(chain, creation, sent) && Delivered(sent) == BlockRange(chain, from, to)
    requires from <= number <= to
    ensures c < |sent| && i < |sent[c].blocks| && sent[c].blocks[i] == BlockAt(chain, number)
    ensures creation.None? || creation.value <= number ==>
      && i < |sent[c].events| && sent[c].events[i] == chain.events(chain.hashAt(number))
      && i < |sent[c].proofs| && sent[c].proofs[i] == chain.proof(chain.hashAt(number))
  {
    c, i := FindDelivered(sent, number - from);
    assert Proper(chain, creation, sent[c]);
  }
}
