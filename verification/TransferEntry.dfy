/** One in-flight file of ModelTransferClient: what each packet, and each pass of the worker,
    does to it. Times are milliseconds; a nextRetry of None is time_point::min(). */
module TransferEntry {
  import opened Common
  import opened TransferSettings

  const CHUNK_SIZE: nat := 4096

  datatype Status =
    | Requesting | Downloading | Retrying | RetryingAfterTimeout | RejectedSize | RetryingByHand | Failed

  datatype InFlight = InFlight(
    compressedSize: uint32,
    uncompressedSize: uint32,
    totalChunks: uint32,
    receivedChunks: uint32,
    receivedBytes: uint32,
    startTime: int,
    failed: bool,
    status: Status,
    attempts: int,
    nextRetry: Option<int>,
    backoffMs: uint32,
    buffer: seq<byte>,
    bitmap: seq<bool>,
    expectedSha: string,
    serial: nat)              // names the request, and so the onReady it brought

  // SHA-256 as hex text, and zlib's uncompress: None when it reports an error.
  datatype Codec = Codec(hash: seq<byte> -> string, inflate: seq<byte> -> Option<seq<byte>>)

  function NewEntry(cfg: Settings, sha: string, serial: nat, now: int): InFlight
    requires Valid(cfg)
  {
    InFlight(0, 0, 0, 0, 0, now, false, Requesting, 1, None, cfg.retryInitialBackoffMs, [], [], sha, serial)
  }

  // ---- retry bookkeeping ----

  function ScheduleRetry(cfg: Settings, e: InFlight, now: int): InFlight
    requires Valid(cfg)
  {
    var attempts := e.attempts + 1;
    if attempts > cfg.retryMaxAttempts then
      e.(attempts := attempts, failed := true, status := Failed)
    else
      var initial := cfg.retryInitialBackoffMs;
      var wait := if e.backoffMs > 0 then e.backoffMs else initial;
      var doubled := if e.backoffMs > 0 then e.backoffMs * 2 % TWO32 else initial * 2;
      e.(attempts := attempts, status := Retrying,
         nextRetry := Some(now + wait), backoffMs := Min(doubled, cfg.retryMaxBackoffMs),
         buffer := [], bitmap := [], receivedBytes := 0, receivedChunks := 0, startTime := now)
  }

  function ManualRetry(cfg: Settings, e: InFlight, now: int): InFlight
    requires Valid(cfg)
  {
    e.(attempts := 1, backoffMs := cfg.retryInitialBackoffMs, nextRetry := None, failed := false,
       status := RetryingByHand, buffer := [], bitmap := [], receivedBytes := 0, receivedChunks := 0,
       startTime := now)
  }

  // ---- begin ----

  predicate SizesAccepted(cfg: Settings, compressed: uint32, uncompressed: uint32, chunks: uint32) {
    && 0 < compressed <= cfg.clientMaxCompressedSize
    && 0 < uncompressed <= cfg.clientMaxUncompressedSize
    && chunks != 0
  }

  // std::vector::resize: keep the front, fill with zeros.
  function Resize(buffer: seq<byte>, n: nat): (r: seq<byte>)
    ensures |r| == n
  {
    if n <= |buffer| then buffer[..n] else buffer + seq(n - |buffer|, _ => 0)
  }

  function ReceiveBegin(cfg: Settings, e: InFlight, compressed: uint32, uncompressed: uint32, chunks: uint32,
                        sha: string, now: int): InFlight
    requires Valid(cfg)
  {
    if SizesAccepted(cfg, compressed, uncompressed, chunks) then
      e.(compressedSize := compressed, uncompressedSize := uncompressed, totalChunks := chunks,
         status := Downloading, buffer := Resize(e.buffer, compressed), bitmap := seq(chunks, _ => false),
         expectedSha := CString(sha), startTime := now, nextRetry := None, backoffMs := cfg.retryInitialBackoffMs)
    else
      e.(status := RejectedSize, nextRetry := Some(now + if e.backoffMs > 0 then e.backoffMs else 500),
         attempts := e.attempts + 1)
  }

  // ---- chunk ----

  // chunkIndex * 4096u, in 32 bits
  function ChunkOffset(index: uint32): uint32 { index * CHUNK_SIZE % TWO32 }

  datatype ChunkVerdict = Drop | Refuse | Write(offset: nat)

  function JudgeChunk(e: InFlight, index: uint32, len: uint16, stream: seq<byte>): ChunkVerdict {
    if e.buffer == [] then Drop
    else if index >= e.totalChunks then Refuse
    else if index < |e.bitmap| && e.bitmap[index] then Drop
    else if ChunkOffset(index) >= |e.buffer| then Refuse
    else if len > |e.buffer| - ChunkOffset(index) then Refuse
    else if |stream| < len then Refuse
    else Write(ChunkOffset(index))
  }

  function WriteChunk(e: InFlight, index: uint32, len: uint16, stream: seq<byte>, now: int): InFlight
    requires JudgeChunk(e, index, len, stream).Write?
  {
    var at := ChunkOffset(index);
    e.(buffer := e.buffer[..at] + stream[..len] + e.buffer[at + len..],
       bitmap := if index < |e.bitmap| then e.bitmap[index := true] else e.bitmap,
       receivedChunks := (e.receivedChunks + 1) % TWO32,
       receivedBytes := (e.receivedBytes + len) % TWO32,
       startTime := now, nextRetry := None)
  }

  function ReceiveChunk(cfg: Settings, e: InFlight, index: uint32, len: uint16, stream: seq<byte>, now: int): InFlight
    requires Valid(cfg)
  {
    match JudgeChunk(e, index, len, stream)
    case Drop => e
    case Refuse => ScheduleRetry(cfg, e, now)
    case Write(_) => WriteChunk(e, index, len, stream, now)
  }

  // ---- end ----

  predicate EndTest(e: InFlight) {
    && e.buffer != []
    && |e.bitmap| == e.totalChunks
    && (forall i | 0 <= i < |e.bitmap| :: e.bitmap[i])
    && e.receivedBytes == e.compressedSize
  }

  // What OnTransferEnd moves and copies out of the entry while it holds the lock.
  datatype Taken = Taken(
    key: Key,
    serial: nat,
    compressed: seq<byte>,
    uncompressedSize: uint32,
    expectedSha: string)

  function TakenFrom(k: Key, e: InFlight): Taken {
    Taken(k, e.serial, e.buffer, e.uncompressedSize, e.expectedSha)
  }

  // What it decompresses and checks without the lock.
  function Unpack(cfg: Settings, codec: Codec, t: Taken): Option<seq<byte>> {
    if t.uncompressedSize == 0 || t.uncompressedSize > cfg.clientMaxUncompressedSize then None
    else match codec.inflate(t.compressed)
      case None => None
      case Some(data) =>
        if |data| == t.uncompressedSize && SameIgnoringCase(codec.hash(data), t.expectedSha) then Some(data) else None
  }

  // OnTransferEnd holds the lock twice. First it moves the buffer out, if the chunk test passes;
  function TakeBuffer(cfg: Settings, e: InFlight, now: int): InFlight
    requires Valid(cfg)
  {
    if e.buffer == [] then e else if !EndTest(e) then ScheduleRetry(cfg, e, now) else e.(buffer := [])
  }

  // and then, `ok` saying whether the data was good and stored, it lets the entry be or retries.
  function FinishEnd(cfg: Settings, e: InFlight, ok: bool, now: int): InFlight
    requires Valid(cfg)
  {
    if ok then e else ScheduleRetry(cfg, e, now)
  }

  // ---- one worker pass ----

  // The cast of a signed 64-bit difference to 32 unsigned bits.
  function Elapsed(e: InFlight, now: int): uint32 { (now - e.startTime) % TWO32 }

  predicate RetryDue(e: InFlight, now: int) {
    e.nextRetry.Some? && e.nextRetry.value <= now
  }

  predicate TimedOut(cfg: Settings, e: InFlight, now: int) {
    (e.status == Requesting || e.status == Downloading) && Elapsed(e, now) > cfg.retryResponseTimeoutMs
  }

  // The pass sends one AssetRequest for this entry.
  predicate Sends(cfg: Settings, e: InFlight, now: int) {
    !e.failed && e.attempts <= cfg.retryMaxAttempts && (RetryDue(e, now) || TimedOut(cfg, e, now))
  }

  function Tick(cfg: Settings, e: InFlight, now: int): InFlight
    requires Valid(cfg)
  {
    if e.failed then e
    else if e.attempts > cfg.retryMaxAttempts then e.(failed := true, status := Failed)
    else if RetryDue(e, now) then e.(status := Requesting, startTime := now, nextRetry := None)
    else if TimedOut(cfg, e, now) then
      var backoff := Min(if e.backoffMs > 0 then e.backoffMs * 2 % TWO32 else cfg.retryInitialBackoffMs,
                         cfg.retryMaxBackoffMs);
      e.(attempts := e.attempts + 1, status := RetryingAfterTimeout, backoffMs := backoff,
         nextRetry := Some(now + backoff), buffer := [], bitmap := [], receivedBytes := 0, receivedChunks := 0,
         startTime := now)
    else e
  }
}
