/** What a completed transfer proves about the bytes in its buffer. */
module TransferReassembly {
  import opened Common
  import opened TransferSettings
  import opened TransferEntry
  import opened TransferMachine

  // ceil(size / 4096)
  function ChunkCount(size: nat): nat { (size + CHUNK_SIZE - 1) / CHUNK_SIZE }

  // The bytes of chunk i of a file of this size: [4096 i, ChunkEnd).
  function ChunkEnd(size: nat, i: nat): int { Min((i + 1) * CHUNK_SIZE, size) }

  function ChunkCap(size: nat, i: nat): nat {
    if i * CHUNK_SIZE < size then ChunkEnd(size, i) - i * CHUNK_SIZE else 0
  }

  // ---- 1. a sender that tells the truth about one blob ----

  predicate SameChunk(a: seq<byte>, b: seq<byte>, i: nat)
    requires |a| == |b|
  {
    forall p :: i * CHUNK_SIZE <= p < ChunkEnd(|b|, i) ==> a[p] == b[p]
  }

  // Begins that are accepted announce the blob; chunks inside it carry its bytes.
  predicate Faithful(cfg: Settings, blob: seq<byte>, ev: Event) {
    match ev
    case Begin(_, _, compressed, uncompressed, chunks, _) =>
      SizesAccepted(cfg, compressed, uncompressed, chunks) ==>
        compressed == |blob| && chunks == ChunkCount(|blob|)
    case Chunk(_, _, index, len, stream) =>
      index < ChunkCount(|blob|) && len <= |stream| ==>
        stream[..len] == blob[index * CHUNK_SIZE..ChunkEnd(|blob|, index)]
    case _ => true
  }

  predicate FaithfulRun(cfg: Settings, blob: seq<byte>, k: Key, events: seq<Timed>) {
    forall i | 0 <= i < |events| :: IsFor(events[i].event, k) ==> Faithful(cfg, blob, events[i].event)
  }

  // Every chunk marked as received holds the blob's bytes.
  predicate Reassembling(cfg: Settings, blob: seq<byte>, e: InFlight) {
    e.buffer != [] ==>
      && |e.buffer| == |blob| == e.compressedSize <= cfg.clientMaxCompressedSize
      && |e.bitmap| == e.totalChunks == ChunkCount(|blob|)
      && forall i | 0 <= i < |e.bitmap| :: e.bitmap[i] ==> SameChunk(e.buffer, blob, i)
  }

  lemma WriteReassembles(cfg: Settings, blob: seq<byte>, e: InFlight, index: uint32, len: uint16,
                         stream: seq<byte>, now: int)
    requires Valid(cfg) && Reassembling(cfg, blob, e)
    requires JudgeChunk(e, index, len, stream).Write?
    requires stream[..len] == blob[index * CHUNK_SIZE..ChunkEnd(|blob|, index)]
    ensures Reassembling(cfg, blob, WriteChunk(e, index, len, stream, now))
  {
    var e' := WriteChunk(e, index, len, stream, now);
    var at := index * CHUNK_SIZE;
    assert at < |blob|;
    assert ChunkOffset(index) == at;
    forall i, p | 0 <= i < |e'.bitmap| && e'.bitmap[i] && i * CHUNK_SIZE <= p < ChunkEnd(|blob|, i)
      ensures e'.buffer[p] == blob[p]
    {
      if i == index {
        assert e'.buffer[p] == stream[..len][p - at];
      } else {
        assert SameChunk(e.buffer, blob, i);
        assert p < at || at + len <= p;
      }
    }
  }

  lemma EntryReassembles(cfg: Settings, codec: Codec, blob: seq<byte>, e: InFlight, ev: Event, now: int)
    requires Valid(cfg) && Reassembling(cfg, blob, e) && Faithful(cfg, blob, ev)
    ensures Reassembling(cfg, blob, EntryAfter(cfg, codec, e, ev, now))
  {
    match ev
    case Chunk(_, _, index, len, stream) =>
      if JudgeChunk(e, index, len, stream).Write? {
        WriteReassembles(cfg, blob, e, index, len, stream, now);
      }
    case _ =>
  }

  /** Whatever is lost, repeated, reordered, retried or begun again, in any interleaving with any
      other transfers, each marked chunk of the entry for k equals that chunk of the blob. */
  lemma {:induction false} MarkedChunksEqualBlob(cfg: Settings, codec: Codec, blob: seq<byte>, k: Key,
                                                 s: State, events: seq<Timed>)
    requires Valid(cfg) && FaithfulRun(cfg, blob, k, events)
    requires k in s.active ==> Reassembling(cfg, blob, s.active[k])
    ensures
      var s' := Run(cfg, codec, s, events);
      k in s'.active ==> Reassembling(cfg, blob, s'.active[k])
  {
    if events != [] {
      var front := events[..|events| - 1];
      var last := events[|events| - 1];
      assert FaithfulRun(cfg, blob, k, front) by {
        assert forall i | 0 <= i < |front| :: front[i] == events[i];
      }
      MarkedChunksEqualBlob(cfg, codec, blob, k, s, front);
      var mid := Run(cfg, codec, s, front);
      if k in Step(cfg, codec, mid, last.event, last.now).active {
        StepCases(cfg, codec, mid, last.event, last.now, k);
        if k in mid.active && Touches(mid, last.event, k) {
          EntryReassembles(cfg, codec, blob, mid.active[k], last.event, last.now);
        }
      }
    }
  }

  lemma AllMarkedIsBlob(cfg: Settings, blob: seq<byte>, e: InFlight)
    requires Reassembling(cfg, blob, e) && EndTest(e)
    ensures e.buffer == blob
  {
    forall p | 0 <= p < |blob|
      ensures e.buffer[p] == blob[p]
    {
      assert SameChunk(e.buffer, blob, p / CHUNK_SIZE);
    }
  }

  /** So from an empty client, the buffer OnTransferEnd hands on is the blob, byte for byte. */
  lemma EndHandsOverTheBlob(cfg: Settings, codec: Codec, blob: seq<byte>, k: Key, events: seq<Timed>)
    requires Valid(cfg) && FaithfulRun(cfg, blob, k, events)
    requires
      var s := Run(cfg, codec, EMPTY, events);
      k in s.active && EndTest(s.active[k])
    ensures Run(cfg, codec, EMPTY, events).active[k].buffer == blob
  {
    MarkedChunksEqualBlob(cfg, codec, blob, k, EMPTY, events);
    AllMarkedIsBlob(cfg, blob, Run(cfg, codec, EMPTY, events).active[k]);
  }
}
