/** What OnTransferEnd's test proves when nothing is assumed of the sender: not its chunk count, not
    its lengths, not its indices. */
module TransferCoverage {
  import opened Common
  import opened TransferSettings
  import opened TransferEntry
  import opened TransferMachine
  import opened TransferReassembly

  // One chunk copied into the buffer.
  datatype Copy = Copy(index: uint32, offset: nat, len: nat)

  // What happened to one entry since its last accepted Begin: the byte counter that Begin found,
  // its digest and unpacked size, and the copies made.
  datatype History = History(base: uint32, sha: string, size: uint32, copies: seq<Copy>)

  // The history of an entry across one event addressed to it.
  function TrackEntry(cfg: Settings, e: InFlight, h: History, ev: Event): History {
    match ev
    case Begin(_, _, compressed, uncompressed, chunks, sha) =>
      if SizesAccepted(cfg, compressed, uncompressed, chunks)
      then History(e.receivedBytes, CString(sha), uncompressed, []) else h
    case Chunk(_, _, index, len, stream) =>
      (match JudgeChunk(e, index, len, stream)
       case Write(at) => h.(copies := h.copies + [Copy(index, at, len)])
       case _ => h)
    case _ => h
  }

  function Track(cfg: Settings, s: State, h: History, k: Key, ev: Event): History {
    if IsFor(ev, k) && k in s.active then TrackEntry(cfg, s.active[k], h, ev) else h
  }

  function RunHistory(cfg: Settings, codec: Codec, s: State, h: History, k: Key, events: seq<Timed>): History
    requires Valid(cfg)
  {
    if events == [] then h
    else
      var front := events[..|events| - 1];
      Track(cfg, Run(cfg, codec, s, front), RunHistory(cfg, codec, s, h, k, front), k, events[|events| - 1].event)
  }

  // ---- sums over copies ----

  function Times(copies: seq<Copy>, index: nat): nat {
    if copies == [] then 0
    else Times(copies[..|copies| - 1], index) + if copies[|copies| - 1].index == index then 1 else 0
  }

  // How many copies wrote byte p.
  function Covers(copies: seq<Copy>, p: nat): nat {
    if copies == [] then 0
    else
      var last := copies[|copies| - 1];
      Covers(copies[..|copies| - 1], p) + if last.offset <= p < last.offset + last.len then 1 else 0
  }

  function TotalLength(copies: seq<Copy>): nat {
    if copies == [] then 0 else TotalLength(copies[..|copies| - 1]) + copies[|copies| - 1].len
  }

  function TotalCap(copies: seq<Copy>, size: nat): nat {
    if copies == [] then 0
    else TotalCap(copies[..|copies| - 1], size) + ChunkCap(size, copies[|copies| - 1].index)
  }

  // The caps of chunks 0..n, each taken as often as it was copied.
  function CapByIndex(copies: seq<Copy>, size: nat, n: nat): nat {
    if n == 0 then 0
    else CapByIndex(copies, size, n - 1) + Times(copies, n - 1) * ChunkCap(size, n - 1)
  }

  // ---- the invariant ----

  predicate GoodCopy(e: InFlight, c: Copy) {
    && c.index < |e.bitmap| && e.bitmap[c.index]
    && c.offset == ChunkOffset(c.index) < |e.buffer|
    && c.offset + c.len <= |e.buffer|
  }

  predicate Accounted(cfg: Settings, e: InFlight, h: History) {
    e.buffer != [] ==>
      && |e.buffer| == e.compressedSize <= cfg.clientMaxCompressedSize
      && |e.bitmap| == e.totalChunks
      && e.expectedSha == h.sha
      && (forall c :: c in h.copies ==> GoodCopy(e, c))
      && (forall i :: 0 <= i < |e.bitmap| ==> Times(h.copies, i) == if e.bitmap[i] then 1 else 0)
      && e.receivedBytes == (h.base + TotalLength(h.copies)) % TWO32
  }

  predicate ShortChunks(k: Key, events: seq<Timed>) {
    forall i | 0 <= i < |events| ::
      events[i].event.Chunk? && IsFor(events[i].event, k) ==> events[i].event.len <= CHUNK_SIZE
  }

  // A counted index was copied.
  lemma {:induction false} CopyOf(copies: seq<Copy>, i: nat) returns (c: Copy)
    requires Times(copies, i) > 0
    ensures c in copies && c.index == i
  {
    c := copies[|copies| - 1];
    if c.index != i {
      c := CopyOf(copies[..|copies| - 1], i);
    }
  }

  lemma CopiesSnoc(copies: seq<Copy>, c: Copy)
    ensures TotalLength(copies + [c]) == TotalLength(copies) + c.len
    ensures forall i: nat :: Times(copies + [c], i) == Times(copies, i) + if c.index == i then 1 else 0
  {
    assert (copies + [c])[..|copies|] == copies;
  }

  lemma AddWraps(a: nat, b: nat)
    ensures (a + b) % TWO32 == (a % TWO32 + b) % TWO32
  {
  }

  lemma WriteAccounted(cfg: Settings, e: InFlight, h: History, index: uint32, len: uint16, stream: seq<byte>, now: int)
    requires Valid(cfg) && Accounted(cfg, e, h)
    requires JudgeChunk(e, index, len, stream).Write?
    ensures
      var h' := h.(copies := h.copies + [Copy(index, ChunkOffset(index), len)]);
      Accounted(cfg, WriteChunk(e, index, len, stream, now), h')
  {
    var c := Copy(index, ChunkOffset(index), len);
    var copies' := h.copies + [c];
    var e' := WriteChunk(e, index, len, stream, now);
    CopiesSnoc(h.copies, c);
    AddWraps(h.base + TotalLength(h.copies), len);
    forall d | d in copies'
      ensures GoodCopy(e', d)
    {
      assert d in h.copies || d == c;
      assert d in h.copies ==> GoodCopy(e, d);
    }
  }

  lemma BeginAccounted(cfg: Settings, e: InFlight, h: History, compressed: uint32, uncompressed: uint32,
                       chunks: uint32, sha: string, now: int)
    requires Valid(cfg) && Accounted(cfg, e, h)
    ensures Accounted(cfg, ReceiveBegin(cfg, e, compressed, uncompressed, chunks, sha, now),
                      if SizesAccepted(cfg, compressed, uncompressed, chunks)
                      then History(e.receivedBytes, CString(sha), uncompressed, []) else h)
  {
  }

  lemma RetryAccounted(cfg: Settings, e: InFlight, h: History, now: int)
    requires Valid(cfg) && Accounted(cfg, e, h)
    ensures Accounted(cfg, ScheduleRetry(cfg, e, now), h)
    ensures Accounted(cfg, ScheduleRetry(cfg, e.(buffer := []), now), h)
  {
  }

  lemma OthersAccounted(cfg: Settings, codec: Codec, e: InFlight, h: History, ev: Event, now: int)
    requires Valid(cfg) && Accounted(cfg, e, h)
    requires !ev.Begin? && !ev.Chunk?
    ensures Accounted(cfg, EntryAfter(cfg, codec, e, ev, now), h)
  {
    hide ScheduleRetry;
    RetryAccounted(cfg, e, h, now);
  }

  lemma EntryAccounted(cfg: Settings, codec: Codec, e: InFlight, h: History, ev: Event, now: int)
    requires Valid(cfg) && Accounted(cfg, e, h)
    ensures Accounted(cfg, EntryAfter(cfg, codec, e, ev, now), TrackEntry(cfg, e, h, ev))
  {
    hide Accounted, ScheduleRetry, Tick, TakeBuffer, ReceiveBegin, WriteChunk;
    match ev
    case Begin(_, _, compressed, uncompressed, chunks, sha) =>
      BeginAccounted(cfg, e, h, compressed, uncompressed, chunks, sha, now);
    case Chunk(_, _, index, len, stream) =>
      if JudgeChunk(e, index, len, stream).Write? {
        WriteAccounted(cfg, e, h, index, len, stream, now);
      } else {
        RetryAccounted(cfg, e, h, now);
      }
    case _ =>
      OthersAccounted(cfg, codec, e, h, ev, now);
  }

  lemma StepAccounted(cfg: Settings, codec: Codec, s: State, h: History, k: Key, ev: Event, now: int)
    requires Valid(cfg)
    requires k in s.active ==> Accounted(cfg, s.active[k], h)
    requires k in Step(cfg, codec, s, ev, now).active
    ensures Accounted(cfg, Step(cfg, codec, s, ev, now).active[k], Track(cfg, s, h, k, ev))
  {
    hide Step, EntryAfter, TrackEntry, Accounted;
    StepCases(cfg, codec, s, ev, now, k);
    if k in s.active {
      FailedAccounted(cfg, s.active[k], h);
      if Touches(s, ev, k) {
        EntryAccounted(cfg, codec, s.active[k], h, ev, now);
        PacketStep(cfg, codec, s, ev, now, k);
        WorkerKeepsHistory(cfg, s.active[k], h);
      } else {
        QuietTrack(cfg, s, h, k, ev);
      }
    } else {
      FreshAccounted(cfg, ev.sha, s.nextSerial, h, now);
    }
  }

  lemma FailedAccounted(cfg: Settings, e: InFlight, h: History)
    requires Accounted(cfg, e, h)
    ensures Accounted(cfg, e.(failed := true, status := Failed), h)
  {
  }

  lemma FreshAccounted(cfg: Settings, sha: string, serial: nat, h: History, now: int)
    requires Valid(cfg)
    ensures Accounted(cfg, NewEntry(cfg, sha, serial, now), h)
  {
  }

  lemma WorkerKeepsHistory(cfg: Settings, e: InFlight, h: History)
    ensures TrackEntry(cfg, e, h, Worker) == h
  {
  }

  // An event that does not touch the entry, or that hands one over, leaves its history alone.
  lemma QuietTrack(cfg: Settings, s: State, h: History, k: Key, ev: Event)
    requires k in s.active
    ensures Track(cfg, s, h, k, ev) == if Touches(s, ev, k) then TrackEntry(cfg, s.active[k], h, ev) else h
  {
    hide JudgeChunk, SizesAccepted;
  }

  lemma {:induction false} RunAccounted(cfg: Settings, codec: Codec, s: State, h: History, k: Key, events: seq<Timed>)
    requires Valid(cfg)
    requires k in s.active ==> Accounted(cfg, s.active[k], h)
    ensures
      var s' := Run(cfg, codec, s, events);
      k in s'.active ==> Accounted(cfg, s'.active[k], RunHistory(cfg, codec, s, h, k, events))
  {
    if events != [] {
      var front := events[..|events| - 1];
      var last := events[|events| - 1];
      RunAccounted(cfg, codec, s, h, k, front);
      var mid := Run(cfg, codec, s, front);
      if k in Step(cfg, codec, mid, last.event, last.now).active {
        StepAccounted(cfg, codec, mid, RunHistory(cfg, codec, s, h, k, front), k, last.event, last.now);
      }
    }
  }

  // Copies within the sender's chunk size.
  predicate ShortCopies(h: History) { forall c :: c in h.copies ==> c.len <= CHUNK_SIZE }

  lemma {:induction false} RunShortCopies(cfg: Settings, codec: Codec, s: State, h: History, k: Key, events: seq<Timed>)
    requires Valid(cfg) && ShortChunks(k, events) && ShortCopies(h)
    ensures ShortCopies(RunHistory(cfg, codec, s, h, k, events))
  {
    hide Run;
    if events != [] {
      var front, last := events[..|events| - 1], events[|events| - 1];
      assert ShortChunks(k, front) by {
        assert forall i | 0 <= i < |front| :: front[i] == events[i];
      }
      RunShortCopies(cfg, codec, s, h, k, front);
    }
  }

  // ---- the counting argument ----

  lemma {:induction false} CapByIndexGrows(copies: seq<Copy>, c: Copy, size: nat, n: nat)
    ensures CapByIndex(copies + [c], size, n)
         == CapByIndex(copies, size, n) + if c.index < n then ChunkCap(size, c.index) else 0
  {
    if n > 0 {
      CapByIndexGrows(copies, c, size, n - 1);
      assert (copies + [c])[..|copies|] == copies;
      var t, cap := Times(copies, n - 1), ChunkCap(size, n - 1);
      assert (t + 1) * cap == t * cap + cap;
    }
  }

  lemma {:induction false} NothingCopied(size: nat, n: nat)
    ensures CapByIndex([], size, n) == 0
  {
    if n > 0 {
      NothingCopied(size, n - 1);
    }
  }

  // Summing caps copy by copy or chunk by chunk is the same.
  lemma {:induction false} CapsByCopyOrChunk(copies: seq<Copy>, size: nat, n: nat)
    requires forall c :: c in copies ==> c.index < n
    ensures TotalCap(copies, size) == CapByIndex(copies, size, n)
  {
    if copies == [] {
      NothingCopied(size, n);
    } else {
      var front, last := copies[..|copies| - 1], copies[|copies| - 1];
      CapsByCopyOrChunk(front, size, n);
      CapByIndexGrows(front, last, size, n);
      assert front + [last] == copies;
      assert last in copies;
    }
  }

  lemma {:induction false} CapsTileTheFile(copies: seq<Copy>, size: nat, n: nat)
    requires forall i :: 0 <= i < n ==> Times(copies, i) == 1
    ensures CapByIndex(copies, size, n) == Min(n * CHUNK_SIZE, size)
  {
    if n > 0 {
      CapsTileTheFile(copies, size, n - 1);
      assert Times(copies, n - 1) * ChunkCap(size, n - 1) == ChunkCap(size, n - 1);
    }
  }

  predicate FitsChunk(c: Copy, size: nat) {
    c.offset == c.index * CHUNK_SIZE && c.len <= ChunkCap(size, c.index)
  }

  predicate FillsChunk(c: Copy, size: nat) {
    c.offset == c.index * CHUNK_SIZE && c.len == ChunkCap(size, c.index)
  }

  lemma {:induction false} LengthsBoundedByCaps(copies: seq<Copy>, size: nat)
    requires forall c :: c in copies ==> FitsChunk(c, size)
    ensures TotalLength(copies) <= TotalCap(copies, size)
    ensures TotalLength(copies) == TotalCap(copies, size) ==> forall c :: c in copies ==> FillsChunk(c, size)
  {
    if copies != [] {
      var front, last := copies[..|copies| - 1], copies[|copies| - 1];
      assert last in copies;
      LengthsBoundedByCaps(front, size);
      assert forall c :: c in copies ==> c in front || c == last;
    }
  }

  lemma {:induction false} FullChunksCoverOnce(copies: seq<Copy>, size: nat, p: nat)
    requires p < size
    requires forall c :: c in copies ==> FillsChunk(c, size)
    ensures Covers(copies, p) == Times(copies, p / CHUNK_SIZE)
  {
    if copies != [] {
      var front, last := copies[..|copies| - 1], copies[|copies| - 1];
      assert last in copies;
      FullChunksCoverOnce(front, size, p);
      assert FillsChunk(last, size);
    }
  }

  /** Once the test passes, no more chunks were announced than the file has: one beyond it would have
      been refused, and below 2^30 the 32-bit product cannot wrap. */
  lemma ChunksInsideFile(cfg: Settings, e: InFlight, h: History)
    requires Valid(cfg) && Accounted(cfg, e, h) && EndTest(e)
    ensures e.totalChunks <= ChunkCount(e.compressedSize)
  {
    var n := ChunkCount(e.compressedSize);
    if n < e.totalChunks {
      var c := CopyOf(h.copies, n);
    }
  }

  /** If the byte counter was zero when the last Begin was accepted, passing OnTransferEnd's test
      means the chunk count was right and every byte of the buffer was copied exactly once. */
  lemma EndMeansCoveredOnce(cfg: Settings, e: InFlight, h: History)
    requires Valid(cfg) && Accounted(cfg, e, h) && ShortCopies(h) && EndTest(e)
    requires h.base == 0
    ensures e.totalChunks == ChunkCount(e.compressedSize)
    ensures forall p :: 0 <= p < |e.buffer| ==> Covers(h.copies, p) == 1
    ensures forall c :: c in h.copies ==> FillsChunk(c, e.compressedSize)
  {
    var size, n := e.compressedSize, e.totalChunks;
    ChunksInsideFile(cfg, e, h);
    forall c | c in h.copies
      ensures FitsChunk(c, size)
    {
      assert GoodCopy(e, c);
    }
    CapsByCopyOrChunk(h.copies, size, n);
    CapsTileTheFile(h.copies, size, n);
    LengthsBoundedByCaps(h.copies, size);
    assert TotalLength(h.copies) == size;
    forall p | 0 <= p < |e.buffer|
      ensures Covers(h.copies, p) == 1
    {
      FullChunksCoverOnce(h.copies, size, p);
    }
  }

  const NO_HISTORY := History(0, "", 0, [])

  // ---- counting bytes ----

  // How often the first n bytes were copied, all together.
  function CoverSum(copies: seq<Copy>, n: nat): nat {
    if n == 0 then 0 else CoverSum(copies, n - 1) + Covers(copies, n - 1)
  }

  lemma {:induction false} CoverSumGrows(copies: seq<Copy>, c: Copy, n: nat)
    ensures CoverSum(copies + [c], n) == CoverSum(copies, n) + Max(0, Min(c.len, n - c.offset))
  {
    if n > 0 {
      CoverSumGrows(copies, c, n - 1);
      assert (copies + [c])[..|copies|] == copies;
    }
  }

  lemma {:induction false} NothingCovered(n: nat)
    ensures CoverSum([], n) == 0
  {
    if n > 0 {
      NothingCovered(n - 1);
    }
  }

  lemma {:induction false} CoverSumIsTotal(copies: seq<Copy>, size: nat)
    requires forall c :: c in copies ==> c.offset + c.len <= size
    ensures CoverSum(copies, size) == TotalLength(copies)
  {
    if copies == [] {
      NothingCovered(size);
    } else {
      var front, last := copies[..|copies| - 1], copies[|copies| - 1];
      assert last in copies && copies == front + [last];
      CoverSumIsTotal(front, size);
      CoverSumGrows(front, last, size);
    }
  }

  // ---- whatever the lengths ----

  predicate CoveredOnce(e: InFlight, h: History) { forall p :: 0 <= p < |e.buffer| ==> Covers(h.copies, p) == 1 }

  // Some byte was copied twice.
  predicate Overlapping(e: InFlight, h: History) { exists p :: 0 <= p < |e.buffer| && Covers(h.copies, p) > 1 }

  lemma {:induction false} CoverSumIsLength(copies: seq<Copy>, n: nat)
    requires forall p :: 0 <= p < n ==> Covers(copies, p) <= 1
    ensures CoverSum(copies, n) <= n
    ensures CoverSum(copies, n) == n <==> forall p :: 0 <= p < n ==> Covers(copies, p) == 1
  {
    hide Covers;
    if n > 0 {
      CoverSumIsLength(copies, n - 1);
      assert CoverSum(copies, n) == CoverSum(copies, n - 1) + Covers(copies, n - 1);
      if CoverSum(copies, n) == n {
        assert CoverSum(copies, n - 1) == n - 1 && Covers(copies, n - 1) == 1;
      }
    }
  }

  lemma ZeroBase(base: uint32, n: nat)
    requires n < TWO32
    ensures (base + n) % TWO32 == n <==> base == 0
  {
  }

  lemma EndCoversOnceIff(cfg: Settings, e: InFlight, h: History)
    requires Valid(cfg) && Accounted(cfg, e, h) && EndTest(e)
    ensures CoveredOnce(e, h) <==> h.base == 0 && !Overlapping(e, h)
  {
    var size := |e.buffer|;
    assert forall c :: c in h.copies ==> GoodCopy(e, c);
    CoverSumIsTotal(h.copies, size);
    if !Overlapping(e, h) {
      CoverSumIsLength(h.copies, size);
      ZeroBase(h.base, TotalLength(h.copies));
      assert e.receivedBytes == size == (h.base + TotalLength(h.copies)) % TWO32;
      assert h.base == 0 <==> TotalLength(h.copies) == size;
      assert (forall p :: 0 <= p < size ==> Covers(h.copies, p) == 1) <==> CoverSum(h.copies, size) == size;
    }
  }

  lemma {:induction false} ShortCoversAtMost(copies: seq<Copy>, size: nat, p: nat)
    requires forall c :: c in copies ==> FitsChunk(c, size)
    ensures Covers(copies, p) <= Times(copies, p / CHUNK_SIZE)
  {
    if copies != [] {
      var front, last := copies[..|copies| - 1], copies[|copies| - 1];
      assert last in copies;
      ShortCoversAtMost(front, size, p);
      assert FitsChunk(last, size);
    }
  }

  lemma ShortDoNotOverlap(cfg: Settings, e: InFlight, h: History)
    requires Valid(cfg) && Accounted(cfg, e, h) && ShortCopies(h) && EndTest(e)
    ensures !Overlapping(e, h)
  {
    hide Covers, Times;
    ChunksInsideFile(cfg, e, h);
    forall c | c in h.copies
      ensures FitsChunk(c, e.compressedSize)
    {
      assert GoodCopy(e, c);
    }
    forall p | 0 <= p < |e.buffer|
      ensures Covers(h.copies, p) <= 1
    {
      ShortCoversAtMost(h.copies, e.compressedSize, p);
      if Times(h.copies, p / CHUNK_SIZE) > 0 {
        var c := CopyOf(h.copies, p / CHUNK_SIZE);
        assert GoodCopy(e, c);
      }
    }
  }

  /** In every run of the client from empty, with any other traffic: when the end test passes, each
      byte was copied exactly once since the Begin in force if and only if that Begin found a zero
      byte counter and no byte was copied twice. With chunks of at most 4096 bytes none ever is, and
      a zero counter then means that the chunk count was right too. */
  lemma PassedTransferIsCovered(cfg: Settings, codec: Codec, k: Key, events: seq<Timed>)
    requires Valid(cfg)
    ensures
      var s, h := Run(cfg, codec, EMPTY, events), RunHistory(cfg, codec, EMPTY, NO_HISTORY, k, events);
      k in s.active && EndTest(s.active[k]) ==>
        var e := s.active[k];
        && (CoveredOnce(e, h) <==> h.base == 0 && !Overlapping(e, h))
        && (ShortChunks(k, events) ==> !Overlapping(e, h))
        && (ShortChunks(k, events) && h.base == 0 ==> e.totalChunks == ChunkCount(|e.buffer|))
  {
    hide Run, RunHistory, Covers, CoveredOnce, Overlapping;
    RunAccounted(cfg, codec, EMPTY, NO_HISTORY, k, events);
    var s, h := Run(cfg, codec, EMPTY, events), RunHistory(cfg, codec, EMPTY, NO_HISTORY, k, events);
    if k in s.active && EndTest(s.active[k]) {
      EndCoversOnceIff(cfg, s.active[k], h);
      if ShortChunks(k, events) {
        RunShortCopies(cfg, codec, EMPTY, NO_HISTORY, k, events);
        ShortDoNotOverlap(cfg, s.active[k], h);
        if h.base == 0 {
          EndMeansCoveredOnce(cfg, s.active[k], h);
        }
      }
    }
  }

  // ---- Begin does not reset the counter ----

  predicate AllMarked(e: InFlight) {
    e.buffer != [] && forall i | 0 <= i < |e.bitmap| :: e.bitmap[i]
  }

  predicate Honest(cfg: Settings, blob: seq<byte>, e: InFlight, h: History) {
    && Reassembling(cfg, blob, e)
    && Accounted(cfg, e, h)
    && AllFull(blob, h)
  }

  predicate AllFull(blob: seq<byte>, h: History) {
    forall c :: c in h.copies ==> FillsChunk(c, |blob|)
  }

  lemma EntryHonest(cfg: Settings, codec: Codec, blob: seq<byte>, e: InFlight, h: History, ev: Event, now: int)
    requires Valid(cfg) && Honest(cfg, blob, e, h) && Faithful(cfg, blob, ev)
    ensures Honest(cfg, blob, EntryAfter(cfg, codec, e, ev, now), TrackEntry(cfg, e, h, ev))
  {
    hide EntryAfter;
    EntryReassembles(cfg, codec, blob, e, ev, now);
    TrackKeepsFull(cfg, blob, e, h, ev);
    if ev.Chunk? && JudgeChunk(e, ev.index, ev.len, ev.stream).Write? {
      assert ev.len == |ev.stream[..ev.len]| == ChunkCap(|blob|, ev.index);
    }
    EntryAccounted(cfg, codec, e, h, ev, now);
  }

  predicate HonestAt(cfg: Settings, blob: seq<byte>, s: State, h: History, k: Key) {
    AllFull(blob, h) && (k in s.active ==> Honest(cfg, blob, s.active[k], h))
  }

  lemma HonestFresh(cfg: Settings, blob: seq<byte>, h: History, sha: string, serial: nat, now: int)
    requires Valid(cfg) && AllFull(blob, h)
    ensures Honest(cfg, blob, NewEntry(cfg, sha, serial, now), h)
  {
  }

  lemma HonestFailed(cfg: Settings, blob: seq<byte>, e: InFlight, h: History)
    requires Honest(cfg, blob, e, h)
    ensures Honest(cfg, blob, e.(failed := true, status := Failed), h)
  {
  }

  lemma TrackKeepsFull(cfg: Settings, blob: seq<byte>, e: InFlight, h: History, ev: Event)
    requires Valid(cfg) && Honest(cfg, blob, e, h) && Faithful(cfg, blob, ev)
    ensures AllFull(blob, TrackEntry(cfg, e, h, ev))
  {
    if ev.Chunk? && JudgeChunk(e, ev.index, ev.len, ev.stream).Write? {
      assert ev.len == |ev.stream[..ev.len]| == ChunkCap(|blob|, ev.index);
      assert FillsChunk(Copy(ev.index, ChunkOffset(ev.index), ev.len), |blob|);
    }
  }

  lemma StepHonest(cfg: Settings, codec: Codec, blob: seq<byte>, s: State, h: History, k: Key, ev: Event, now: int)
    requires Valid(cfg) && HonestAt(cfg, blob, s, h, k)
    requires IsFor(ev, k) ==> Faithful(cfg, blob, ev)
    ensures HonestAt(cfg, blob, Step(cfg, codec, s, ev, now), Track(cfg, s, h, k, ev), k)
  {
    hide Step, EntryAfter, TrackEntry, Honest, AllFull, NewEntry, Faithful, KeyOf, Target, IsFor;
    if k in s.active && IsFor(ev, k) {
      TrackKeepsFull(cfg, blob, s.active[k], h, ev);
    }
    if k in Step(cfg, codec, s, ev, now).active {
      if k in s.active && Touches(s, ev, k) {
        PacketStep(cfg, codec, s, ev, now, k);
        if IsFor(ev, k) {
          EntryHonest(cfg, codec, blob, s.active[k], h, ev, now);
        } else {
          WorkerHonest(cfg, codec, blob, s.active[k], h, now);
        }
      } else {
        StepCases(cfg, codec, s, ev, now, k);
        if k in s.active {
          HonestFailed(cfg, blob, s.active[k], h);
          if IsFor(ev, k) {
            RequestKeepsHistory(cfg, s.active[k], h, ev);
          }
        } else {
          HonestFresh(cfg, blob, h, ev.sha, s.nextSerial, now);
        }
      }
    }
  }

  lemma WorkerHonest(cfg: Settings, codec: Codec, blob: seq<byte>, e: InFlight, h: History, now: int)
    requires Valid(cfg) && Honest(cfg, blob, e, h)
    ensures Honest(cfg, blob, EntryAfter(cfg, codec, e, Worker, now), h)
  {
    EntryHonest(cfg, codec, blob, e, h, Worker, now);
  }

  lemma RequestKeepsHistory(cfg: Settings, e: InFlight, h: History, ev: Event)
    requires ev.Request? || ev.Finish?
    ensures TrackEntry(cfg, e, h, ev) == h
  {
  }

  lemma {:induction false} RunHonest(cfg: Settings, codec: Codec, blob: seq<byte>, k: Key, events: seq<Timed>)
    requires Valid(cfg) && FaithfulRun(cfg, blob, k, events)
    ensures HonestAt(cfg, blob, Run(cfg, codec, EMPTY, events),
                     RunHistory(cfg, codec, EMPTY, NO_HISTORY, k, events), k)
  {
    if events != [] {
      var front, last := events[..|events| - 1], events[|events| - 1];
      assert FaithfulRun(cfg, blob, k, front) by {
        assert forall i | 0 <= i < |front| :: front[i] == events[i];
      }
      RunHonest(cfg, codec, blob, k, front);
      StepHonest(cfg, codec, blob, Run(cfg, codec, EMPTY, front),
                 RunHistory(cfg, codec, EMPTY, NO_HISTORY, k, front), k, last.event, last.now);
    }
  }

  lemma CompletePassesIff(cfg: Settings, blob: seq<byte>, e: InFlight, h: History)
    requires Valid(cfg) && Honest(cfg, blob, e, h) && AllMarked(e)
    ensures EndTest(e) <==> h.base == 0
  {
    CapsByCopyOrChunk(h.copies, |blob|, e.totalChunks);
    CapsTileTheFile(h.copies, |blob|, e.totalChunks);
    FillsSums(h.copies, |blob|);
  }

  /** Begin leaves the byte counter as it finds it. So once every chunk of an honest sender has
      arrived, the end test passes exactly when the Begin in force found a zero counter. */
  lemma HonestDownloadPassesIff(cfg: Settings, codec: Codec, blob: seq<byte>, k: Key, events: seq<Timed>)
    requires Valid(cfg) && FaithfulRun(cfg, blob, k, events)
    requires
      var s := Run(cfg, codec, EMPTY, events);
      k in s.active && AllMarked(s.active[k])
    ensures
      var h := RunHistory(cfg, codec, EMPTY, NO_HISTORY, k, events);
      EndTest(Run(cfg, codec, EMPTY, events).active[k]) <==> h.base == 0
  {
    RunHonest(cfg, codec, blob, k, events);
    CompletePassesIff(cfg, blob, Run(cfg, codec, EMPTY, events).active[k],
                      RunHistory(cfg, codec, EMPTY, NO_HISTORY, k, events));
  }

  lemma {:induction false} FillsSums(copies: seq<Copy>, size: nat)
    requires forall c :: c in copies ==> FillsChunk(c, size)
    ensures TotalLength(copies) == TotalCap(copies, size)
  {
    if copies != [] {
      assert copies[|copies| - 1] in copies;
      FillsSums(copies[..|copies| - 1], size);
    }
  }

  // Every reset that empties the bitmap also zeroes the counter.
  predicate CleanWhenIdle(e: InFlight) { e.bitmap == [] ==> e.receivedBytes == 0 && e.buffer == [] }

  /** So the counter in force can only be stale if Begin finds a bitmap: that of a download it
      interrupts, or of one whose buffer an end packet has taken. A Begin that finds none, as after
      any retry or timeout, finds a zero counter. */
  lemma {:induction false} OnlyInterruptedDownloadsGoStale(cfg: Settings, codec: Codec, k: Key, events: seq<Timed>)
    requires Valid(cfg)
    ensures
      var s := Run(cfg, codec, EMPTY, events);
      k in s.active ==> CleanWhenIdle(s.active[k])
  {
    hide Step;
    if events != [] {
      var front, last := events[..|events| - 1], events[|events| - 1];
      OnlyInterruptedDownloadsGoStale(cfg, codec, k, front);
      var s := Run(cfg, codec, EMPTY, front);
      if k in Step(cfg, codec, s, last.event, last.now).active {
        StepCases(cfg, codec, s, last.event, last.now, k);
      }
    }
  }

  lemma HistorySnoc(cfg: Settings, codec: Codec, s: State, h: History, k: Key, events: seq<Timed>, last: Timed)
    requires Valid(cfg)
    ensures RunHistory(cfg, codec, s, h, k, events + [last])
         == Track(cfg, Run(cfg, codec, s, events), RunHistory(cfg, codec, s, h, k, events), k, last.event)
  {
    assert (events + [last])[..|events|] == events;
  }

  const GAP_BEGIN := Begin(1, 0, 2, 9, 1, "")
  const GAP_CHUNK := Chunk(1, 0, 0, 1, [7])

  // A 2-byte file in one chunk, begun twice; each time only its first byte arrives.
  const GAP_RUN: seq<Timed> := [Timed(Request(1, 0, "", false), 0)]
                               + [Timed(GAP_BEGIN, 1)] + [Timed(GAP_CHUNK, 2)]
                               + [Timed(GAP_BEGIN, 3)] + [Timed(GAP_CHUNK, 4)]

  // One begin and one chunk of that run, from any entry with an empty or 2-byte buffer.
  lemma GapRound(codec: Codec, s: State, h: History, t: int)
    requires KeyOf(1, 0) in s.active
    requires s.active[KeyOf(1, 0)].receivedBytes < 10
    ensures
      var k := KeyOf(1, 0);
      var s1 := Step(DEFAULTS, codec, s, GAP_BEGIN, t);
      var s2 := Step(DEFAULTS, codec, s1, GAP_CHUNK, t + 1);
      var h2 := Track(DEFAULTS, s1, Track(DEFAULTS, s, h, k, GAP_BEGIN), k, GAP_CHUNK);
      && k in s2.active
      && s2.active[k].receivedBytes == s.active[k].receivedBytes + 1
      && |s2.active[k].buffer| == 2 == s2.active[k].compressedSize
      && s2.active[k].bitmap == [true] && s2.active[k].totalChunks == 1
      && h2 == History(s.active[k].receivedBytes, "", 9, [Copy(0, 0, 1)])
  {
    hide Step;
    var k := KeyOf(1, 0);
    var e := s.active[k];
    PacketStep(DEFAULTS, codec, s, GAP_BEGIN, t, k);
    var s1 := Step(DEFAULTS, codec, s, GAP_BEGIN, t);
    var e1 := s1.active[k];
    assert e1 == ReceiveBegin(DEFAULTS, e, 2, 9, 1, "", t);
    assert |e1.buffer| == 2 && e1.bitmap == [false] && e1.totalChunks == 1 && e1.compressedSize == 2;
    PacketStep(DEFAULTS, codec, s1, GAP_CHUNK, t + 1, k);
    assert JudgeChunk(e1, 0, 1, [7]) == Write(0);
  }

  /** With a counter left over from before, the test can pass on a byte that was never copied
      since the Begin in force. */
  lemma StaleCounterLetsAGapPass(codec: Codec)
    ensures
      var k := KeyOf(1, 0);
      var s := Run(DEFAULTS, codec, EMPTY, GAP_RUN);
      var h := RunHistory(DEFAULTS, codec, EMPTY, NO_HISTORY, k, GAP_RUN);
      && k in s.active
      && EndTest(s.active[k])
      && h.base == 1
      && Covers(h.copies, 1) == 0
  {
    hide Run, RunHistory, Step, Track, Covers, EndTest;
    var k := KeyOf(1, 0);
    var p1 := [Timed(Request(1, 0, "", false), 0)];
    var p2 := p1 + [Timed(GAP_BEGIN, 1)];
    var p3 := p2 + [Timed(GAP_CHUNK, 2)];
    var p4 := p3 + [Timed(GAP_BEGIN, 3)];
    GapRequest(codec);
    TwoMore(codec, k, p1, Timed(GAP_BEGIN, 1), Timed(GAP_CHUNK, 2));
    TwoMore(codec, k, p3, Timed(GAP_BEGIN, 3), Timed(GAP_CHUNK, 4));
    GapRound(codec, Run(DEFAULTS, codec, EMPTY, p1), RunHistory(DEFAULTS, codec, EMPTY, NO_HISTORY, k, p1), 1);
    GapRound(codec, Run(DEFAULTS, codec, EMPTY, p3), RunHistory(DEFAULTS, codec, EMPTY, NO_HISTORY, k, p3), 3);
    GapPasses(Run(DEFAULTS, codec, EMPTY, GAP_RUN).active[k]);
  }

  lemma GapRequest(codec: Codec)
    ensures
      var s := Run(DEFAULTS, codec, EMPTY, [Timed(Request(1, 0, "", false), 0)]);
      KeyOf(1, 0) in s.active && s.active[KeyOf(1, 0)].receivedBytes == 0
  {
    RunSnoc(DEFAULTS, codec, EMPTY, [], Timed(Request(1, 0, "", false), 0));
    assert [] + [Timed(Request(1, 0, "", false), 0)] == [Timed(Request(1, 0, "", false), 0)];
    assert Run(DEFAULTS, codec, EMPTY, []) == EMPTY;
    hide Run;
  }

  // A run and its history, two events on.
  lemma TwoMore(codec: Codec, k: Key, events: seq<Timed>, a: Timed, b: Timed)
    ensures
      var s, h := Run(DEFAULTS, codec, EMPTY, events), RunHistory(DEFAULTS, codec, EMPTY, NO_HISTORY, k, events);
      var s1, h1 := Step(DEFAULTS, codec, s, a.event, a.now), Track(DEFAULTS, s, h, k, a.event);
      && Run(DEFAULTS, codec, EMPTY, events + [a] + [b]) == Step(DEFAULTS, codec, s1, b.event, b.now)
      && RunHistory(DEFAULTS, codec, EMPTY, NO_HISTORY, k, events + [a] + [b]) == Track(DEFAULTS, s1, h1, k, b.event)
  {
    hide Step, Track;
    RunSnoc(DEFAULTS, codec, EMPTY, events, a);
    RunSnoc(DEFAULTS, codec, EMPTY, events + [a], b);
    HistorySnoc(DEFAULTS, codec, EMPTY, NO_HISTORY, k, events, a);
    HistorySnoc(DEFAULTS, codec, EMPTY, NO_HISTORY, k, events + [a], b);
  }

  lemma GapPasses(e: InFlight)
    requires |e.buffer| == 2 == e.compressedSize && e.bitmap == [true] && e.totalChunks == 1 && e.receivedBytes == 2
    ensures EndTest(e) && Covers([Copy(0, 0, 1)], 1) == 0
  {
    assert [Copy(0, 0, 1)][..0] == [];
  }

  const LONG_BEGIN := Begin(1, 0, 8192, 9, 2, "")
  const LONG_CHUNK := Chunk(1, 0, 0, 5000, seq(5000, _ => 0))
  const NEXT_CHUNK := Chunk(1, 0, 1, 3192, seq(3192, _ => 0))

  // A file of two chunks, of which the first runs into the second.
  const LONG_RUN: seq<Timed> :=
    [Timed(Request(1, 0, "", false), 0)] + [Timed(LONG_BEGIN, 1)] + [Timed(LONG_CHUNK, 2)] + [Timed(NEXT_CHUNK, 3)]

  lemma LongRound(codec: Codec, s: State, h: History)
    requires KeyOf(1, 0) in s.active && s.active[KeyOf(1, 0)].receivedBytes == 0
    ensures
      var k := KeyOf(1, 0);
      var s1 := Step(DEFAULTS, codec, s, LONG_BEGIN, 1);
      var s2 := Step(DEFAULTS, codec, s1, LONG_CHUNK, 2);
      var s3 := Step(DEFAULTS, codec, s2, NEXT_CHUNK, 3);
      var h2 := Track(DEFAULTS, s1, Track(DEFAULTS, s, h, k, LONG_BEGIN), k, LONG_CHUNK);
      && k in s3.active && EndTest(s3.active[k]) && |s3.active[k].buffer| == 8192
      && Track(DEFAULTS, s2, h2, k, NEXT_CHUNK) == History(0, "", 9, [Copy(0, 0, 5000), Copy(1, 4096, 3192)])
  {
    hide Step, Resize;
    var k := KeyOf(1, 0);
    PacketStep(DEFAULTS, codec, s, LONG_BEGIN, 1, k);
    var s1 := Step(DEFAULTS, codec, s, LONG_BEGIN, 1);
    var e1 := s1.active[k];
    assert |e1.buffer| == 8192 && e1.bitmap == [false, false] && e1.totalChunks == 2 && e1.compressedSize == 8192;
    PacketStep(DEFAULTS, codec, s1, LONG_CHUNK, 2, k);
    assert JudgeChunk(e1, 0, 5000, LONG_CHUNK.stream) == Write(0);
    var s2 := Step(DEFAULTS, codec, s1, LONG_CHUNK, 2);
    var e2 := s2.active[k];
    assert |e2.buffer| == 8192 && e2.bitmap == [true, false] && e2.receivedBytes == 5000;
    PacketStep(DEFAULTS, codec, s2, NEXT_CHUNK, 3, k);
    assert JudgeChunk(e2, 1, 3192, NEXT_CHUNK.stream) == Write(4096);
  }

  /** A chunk longer than 4096 bytes is taken as it comes. So even with a zero counter the test can pass
      on a byte that was never copied, others having been copied twice. */
  lemma LongChunkLetsAGapPass(codec: Codec)
    ensures
      var k := KeyOf(1, 0);
      var s := Run(DEFAULTS, codec, EMPTY, LONG_RUN);
      var h := RunHistory(DEFAULTS, codec, EMPTY, NO_HISTORY, k, LONG_RUN);
      && k in s.active
      && EndTest(s.active[k])
      && h.base == 0
      && Covers(h.copies, 8000) == 0 && Covers(h.copies, 4500) == 2
  {
    hide Run, RunHistory, Step, Track, EndTest;
    var k := KeyOf(1, 0);
    var p1 := [Timed(Request(1, 0, "", false), 0)];
    var p3 := p1 + [Timed(LONG_BEGIN, 1)] + [Timed(LONG_CHUNK, 2)];
    GapRequest(codec);
    TwoMore(codec, k, p1, Timed(LONG_BEGIN, 1), Timed(LONG_CHUNK, 2));
    RunSnoc(DEFAULTS, codec, EMPTY, p3, Timed(NEXT_CHUNK, 3));
    HistorySnoc(DEFAULTS, codec, EMPTY, NO_HISTORY, k, p3, Timed(NEXT_CHUNK, 3));
    LongRound(codec, Run(DEFAULTS, codec, EMPTY, p1), RunHistory(DEFAULTS, codec, EMPTY, NO_HISTORY, k, p1));
    var copies := [Copy(0, 0, 5000), Copy(1, 4096, 3192)];
    assert copies[..1] == [Copy(0, 0, 5000)] && copies[..1][..0] == [];
  }
}
