/** A file whose server does its part arrives: from every reachable state in which no Begin was accepted
    in the present attempt, a Begin, all chunks and an end packet deliver it. */
module TransferLiveness {
  import opened Common
  import opened TransferSettings
  import opened TransferEntry
  import opened TransferMachine
  import opened TransferReassembly
  import opened TransferCoverage
  import opened TransferTiming
  import opened TransferSchedule

  // The whole of one chunk of the blob.
  predicate FullChunk(blob: seq<byte>, ev: Event) {
    && ev.Chunk? && ev.index < ChunkCount(|blob|)
    && ev.len == ChunkCap(|blob|, ev.index) && ev.len <= |ev.stream|
    && ev.stream[..ev.len] == blob[ev.index * CHUNK_SIZE..ChunkEnd(|blob|, ev.index)]
  }

  // A chunk of the blob, other traffic, or a pass that does not find k due.
  predicate Arriving(cfg: Settings, blob: seq<byte>, s: State, a: Timed, k: Key) {
    if IsFor(a.event, k) then FullChunk(blob, a.event) || a.event.Request?
    else Silent(a.event, k) && (a.event.Worker? && k in s.active ==> !Sends(cfg, s.active[k], a.now))
  }

  predicate ArrivingRun(cfg: Settings, codec: Codec, blob: seq<byte>, s: State, events: seq<Timed>, k: Key)
    requires Valid(cfg)
  {
    forall i | 0 <= i < |events| :: Arriving(cfg, blob, Run(cfg, codec, s, events[..i]), events[i], k)
  }

  predicate Came(events: seq<Timed>, k: Key, index: nat) {
    exists i | 0 <= i < |events| ::
      events[i].event.Chunk? && IsFor(events[i].event, k) && events[i].event.index == index
  }

  // An entry in the midst of an honest download that began with a zero counter.
  predicate Underway(cfg: Settings, blob: seq<byte>, e: InFlight, h: History) {
    Honest(cfg, blob, e, h) && AllFull(blob, h) && h.base == 0 && e.buffer != []
  }

  // What the download leaves as the Begin set it.
  predicate SameHeader(e: InFlight, e': InFlight) {
    e'.uncompressedSize == e.uncompressedSize && e'.expectedSha == e.expectedSha && e'.serial == e.serial
  }

  lemma BeginsUnderway(cfg: Settings, codec: Codec, blob: seq<byte>, e: InFlight, ev: Event, now: int)
    returns (h: History)
    requires Valid(cfg) && ev.Begin? && SizesAccepted(cfg, ev.compressed, ev.uncompressed, ev.chunks)
    requires ev.compressed == |blob| && ev.chunks == ChunkCount(|blob|) && e.receivedBytes == 0
    ensures Underway(cfg, blob, EntryAfter(cfg, codec, e, ev, now), h)
  {
    hide CString;
    h := History(0, CString(ev.sha), ev.uncompressed, []);
  }

  // The bit is set, and no other is.
  lemma ChunkMarks(cfg: Settings, codec: Codec, blob: seq<byte>, e: InFlight, h: History, ev: Event, now: int)
    returns (h': History)
    requires Valid(cfg) && Underway(cfg, blob, e, h) && FullChunk(blob, ev)
    ensures
      var e' := EntryAfter(cfg, codec, e, ev, now);
      && Underway(cfg, blob, e', h') && SameHeader(e, e') && |e'.bitmap| == |e.bitmap| == ChunkCount(|blob|)
      && (forall i | 0 <= i < |e.bitmap| :: e'.bitmap[i] <==> e.bitmap[i] || i == ev.index)
  {
    assert Faithful(cfg, blob, ev);
    EntryHonest(cfg, codec, blob, e, h, ev, now);
    TrackKeepsFull(cfg, blob, e, h, ev);
    h' := TrackEntry(cfg, e, h, ev);
    assert ChunkOffset(ev.index) == ev.index * CHUNK_SIZE < |blob|;
    assert !JudgeChunk(e, ev.index, ev.len, ev.stream).Refuse?;
    hide Honest, AllFull, ChunkCount, Faithful;
  }

  lemma IdleStep(cfg: Settings, codec: Codec, blob: seq<byte>, e: InFlight, h: History, now: int)
    requires Valid(cfg) && Underway(cfg, blob, e, h) && !Sends(cfg, e, now)
    ensures
      var e' := Tick(cfg, e, now);
      Underway(cfg, blob, e', h) && SameHeader(e, e') && e'.bitmap == e.bitmap
  {
  }

  lemma ArrivingStep(cfg: Settings, codec: Codec, blob: seq<byte>, s: State, k: Key, h: History, a: Timed)
    returns (h': History)
    requires Valid(cfg) && k in s.active && Underway(cfg, blob, s.active[k], h)
    requires |s.active[k].bitmap| == ChunkCount(|blob|)
    requires Arriving(cfg, blob, s, a, k)
    ensures
      var s' := Step(cfg, codec, s, a.event, a.now);
      && k in s'.active && Underway(cfg, blob, s'.active[k], h') && SameHeader(s.active[k], s'.active[k])
      && |s'.active[k].bitmap| == ChunkCount(|blob|)
      && (forall i | 0 <= i < ChunkCount(|blob|) ::
            s'.active[k].bitmap[i] <==>
              s.active[k].bitmap[i] || (a.event.Chunk? && IsFor(a.event, k) && i == a.event.index))
  {
    hide Underway, Step, EntryAfter, ChunkCount, Tick, Sends, SameHeader, KeyOf;
    h' := h;
    SameAsItself(s.active[k]);
    if IsFor(a.event, k) && !a.event.Request? {
      h' := ChunkMarks(cfg, codec, blob, s.active[k], h, a.event, a.now);
      PacketStep(cfg, codec, s, a.event, a.now, k);
    } else {
      SilentStep(cfg, codec, s, a.event, a.now, k);
      if a.event.Worker? {
        IdleStep(cfg, codec, blob, s.active[k], h, a.now);
      }
    }
  }

  lemma SameAsItself(e: InFlight)
    ensures SameHeader(e, e)
  {
  }

  lemma {:induction false} RunArrives(cfg: Settings, codec: Codec, blob: seq<byte>, s: State, k: Key, h0: History,
                                      events: seq<Timed>) returns (h: History)
    requires Valid(cfg) && k in s.active && Underway(cfg, blob, s.active[k], h0)
    requires |s.active[k].bitmap| == ChunkCount(|blob|) && ArrivingRun(cfg, codec, blob, s, events, k)
    ensures
      var s' := Run(cfg, codec, s, events);
      && k in s'.active && Underway(cfg, blob, s'.active[k], h) && SameHeader(s.active[k], s'.active[k])
      && |s'.active[k].bitmap| == ChunkCount(|blob|)
      && (forall i | 0 <= i < ChunkCount(|blob|) && Came(events, k, i) :: s'.active[k].bitmap[i])
  {
    hide Underway, Step, ChunkCount, Arriving, IsFor, ArrivingRun, Came, SameHeader;
    h := h0;
    SameAsItself(s.active[k]);
    NothingCame(k);
    if events != [] {
      var front, last := events[..|events| - 1], events[|events| - 1];
      ArrivingFront(cfg, codec, blob, s, events, k);
      h := RunArrives(cfg, codec, blob, s, k, h0, front);
      h := ArrivingStep(cfg, codec, blob, Run(cfg, codec, s, front), k, h, last);
      HeaderChain(s.active[k], Run(cfg, codec, s, front).active[k], Run(cfg, codec, s, events).active[k]);
      forall i | 0 <= i < ChunkCount(|blob|) && Came(events, k, i)
        ensures Came(front, k, i) || (last.event.Chunk? && IsFor(last.event, k) && last.event.index == i)
      {
        CameLast(events, k, i);
      }
    }
  }

  lemma HeaderChain(a: InFlight, b: InFlight, c: InFlight)
    requires SameHeader(a, b) && SameHeader(b, c)
    ensures SameHeader(a, c)
  {
  }

  lemma NothingCame(k: Key)
    ensures forall i :: !Came([], k, i)
  {
  }

  lemma CameLast(events: seq<Timed>, k: Key, i: nat)
    requires events != [] && Came(events, k, i)
    ensures
      var last := events[|events| - 1].event;
      Came(events[..|events| - 1], k, i) || (last.Chunk? && IsFor(last, k) && last.index == i)
  {
    hide IsFor;
    var front := events[..|events| - 1];
    var j :| 0 <= j < |events| && events[j].event.Chunk? && IsFor(events[j].event, k) && events[j].event.index == i;
    assert j < |front| ==> front[j] == events[j];
  }

  lemma ArrivingFront(cfg: Settings, codec: Codec, blob: seq<byte>, s: State, events: seq<Timed>, k: Key)
    requires Valid(cfg) && events != [] && ArrivingRun(cfg, codec, blob, s, events, k)
    ensures ArrivingRun(cfg, codec, blob, s, events[..|events| - 1], k)
    ensures
      var front := events[..|events| - 1];
      Arriving(cfg, blob, Run(cfg, codec, s, front), events[|events| - 1], k)
  {
    hide Run, Arriving;
    var front := events[..|events| - 1];
    assert forall i | 0 <= i < |front| :: front[..i] == events[..i] && front[i] == events[i];
  }

  lemma UnderwayPasses(cfg: Settings, blob: seq<byte>, e: InFlight, h: History)
    requires Valid(cfg) && Underway(cfg, blob, e, h) && forall i | 0 <= i < |e.bitmap| :: e.bitmap[i]
    ensures EndTest(e) && e.buffer == blob
  {
    hide Honest, AllFull, EndTest;
    assert Honest(cfg, blob, e, h) && AllMarked(e);
    CompletePassesIff(cfg, blob, e, h);
    HonestReassembles(cfg, blob, e, h);
    AllMarkedIsBlob(cfg, blob, e);
  }

  lemma HonestReassembles(cfg: Settings, blob: seq<byte>, e: InFlight, h: History)
    requires Honest(cfg, blob, e, h)
    ensures Reassembling(cfg, blob, e)
  {
  }

  // The data passes the checks of the end packet.
  predicate GoodData(codec: Codec, blob: seq<byte>, uncompressed: uint32, sha: string) {
    match codec.inflate(blob)
    case None => false
    case Some(data) => |data| == uncompressed && SameIgnoringCase(codec.hash(data), CString(sha))
  }

  // What the end packet takes from a finished download.
  lemma EndTakes(cfg: Settings, codec: Codec, s: State, modelId: uint32, kind: byte, now: int)
    requires Valid(cfg) && KeyOf(modelId, kind) in s.active && EndTest(s.active[KeyOf(modelId, kind)])
    ensures
      var k, s1 := KeyOf(modelId, kind), Step(cfg, codec, s, Take(modelId, kind), now);
      TakenFrom(k, s.active[k]) in s1.taken
  {
    hide KeyOf, EndTest, ActiveAfter, Pushed;
  }

  lemma GoodDataGoes(cfg: Settings, codec: Codec, s: State, t: Taken, t2: int, t3: int)
    requires Valid(cfg) && t in s.taken && Unpack(cfg, codec, t).Some?
    ensures
      var s1 := Step(cfg, codec, s, Finish(t, true), t2);
      && Deliver(t.key, t.serial) in s1.tasks
      && t.key !in Step(cfg, codec, s1, RunTask(Deliver(t.key, t.serial)), t3).active
  {
    hide Unpack, TakenAfter, EntryAfter;
  }

  lemma GoodDataUnpacks(cfg: Settings, codec: Codec, t: Taken, sha: string)
    requires GoodData(codec, t.compressed, t.uncompressedSize, sha) && t.expectedSha == CString(sha)
    requires 0 < t.uncompressedSize <= cfg.clientMaxUncompressedSize
    ensures Unpack(cfg, codec, t).Some?
  {
    hide SameIgnoringCase, CString;
  }

  /** In every reachable state of a file in flight without an accepted Begin in the present attempt: if the
      server then announces the file, and every chunk comes at least once, in any order, repeated and
      mixed with other traffic, with no pass finding the file due meanwhile, then an end packet takes the
      file byte for byte, its data once stored is delivered to the request, and the entry goes. */
  lemma HonestFileIsDelivered(cfg: Settings, codec: Codec, before: seq<Timed>, modelId: uint32, kind: byte,
                              blob: seq<byte>, uncompressed: uint32, sha: string, t0: int, events: seq<Timed>,
                              t1: int, t2: int, t3: int)
    requires Valid(cfg) && KeyOf(modelId, kind) in Run(cfg, codec, EMPTY, before).active
    requires !RunChronicle(cfg, codec, KeyOf(modelId, kind), before).begun
    requires |blob| <= cfg.clientMaxCompressedSize && SizesAccepted(cfg, |blob|, uncompressed, ChunkCount(|blob|))
    requires
      var begin := Begin(modelId, kind, |blob|, uncompressed, ChunkCount(|blob|), sha);
      var s := Step(cfg, codec, Run(cfg, codec, EMPTY, before), begin, t0);
      && ArrivingRun(cfg, codec, blob, s, events, KeyOf(modelId, kind))
      && forall i | 0 <= i < ChunkCount(|blob|) :: Came(events, KeyOf(modelId, kind), i)
    requires GoodData(codec, blob, uncompressed, sha)
    ensures
      var k, s0 := KeyOf(modelId, kind), Run(cfg, codec, EMPTY, before);
      var begin := Begin(modelId, kind, |blob|, uncompressed, ChunkCount(|blob|), sha);
      var n, t := s0.active[k].serial, Taken(k, s0.active[k].serial, blob, uncompressed, CString(sha));
      var s1 := Run(cfg, codec, Step(cfg, codec, s0, begin, t0), events);
      var s2 := Step(cfg, codec, s1, Take(modelId, kind), t1);
      var s3 := Step(cfg, codec, s2, Finish(t, true), t2);
      && t in s2.taken && Deliver(k, n) in s3.tasks
      && k !in Step(cfg, codec, s3, RunTask(Deliver(k, n)), t3).active
  {
    hide KeyOf, Run, Step, RunChronicle, ArrivingRun, Came, Underway, CString, EntryAfter, GoodData;
    var k, s0 := KeyOf(modelId, kind), Run(cfg, codec, EMPTY, before);
    var begin := Begin(modelId, kind, |blob|, uncompressed, ChunkCount(|blob|), sha);
    var s := Step(cfg, codec, s0, begin, t0);
    RunKeeps(cfg, codec, k, before);
    PacketStep(cfg, codec, s0, begin, t0, k);
    BeginsHeader(cfg, codec, s0.active[k], begin, t0);
    var h := BeginsUnderway(cfg, codec, blob, s0.active[k], begin, t0);
    h := RunArrives(cfg, codec, blob, s, k, h, events);
    var s1 := Run(cfg, codec, s, events);
    UnderwayPasses(cfg, blob, s1.active[k], h);
    EndTakes(cfg, codec, s1, modelId, kind, t1);
    var t := TakenFrom(k, s1.active[k]);
    GoodDataUnpacks(cfg, codec, t, sha);
    GoodDataGoes(cfg, codec, Step(cfg, codec, s1, Take(modelId, kind), t1), t, t2, t3);
  }

  lemma BeginsHeader(cfg: Settings, codec: Codec, e: InFlight, ev: Event, now: int)
    requires Valid(cfg) && ev.Begin? && SizesAccepted(cfg, ev.compressed, ev.uncompressed, ev.chunks)
    ensures
      var e' := EntryAfter(cfg, codec, e, ev, now);
      && e'.uncompressedSize == ev.uncompressed && e'.expectedSha == CString(ev.sha) && e'.serial == e.serial
      && |e'.bitmap| == ev.chunks
  {
    hide CString;
  }
}
