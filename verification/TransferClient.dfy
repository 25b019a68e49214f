/** ModelTransferClient: the handlers and the worker's pass, updating the map of in-flight entries
    and pushing tasks for the main thread. Each is the step of TransferMachine it is named after. */
module TransferClient {
  import opened Common
  import opened TransferSettings
  import opened TransferEntry
  import opened TransferMachine
  import CacheState
  import CacheIntegrity
  import AssetCache

  // ---- the steps of TransferMachine, one event at a time ----

  // ScheduleRetry on the entry for k.
  function Retried(cfg: Settings, s: State, k: Key, now: int): State
    requires TransferSettings.Valid(cfg) && k in s.active
  {
    s.(active := s.active[k := TransferEntry.ScheduleRetry(cfg, s.active[k], now)],
       tasks := s.tasks + FinalCall(cfg, k, s.active[k]))
  }

  function FinalCall(cfg: Settings, k: Key, e: InFlight): multiset<Task> {
    if LastAttempt(cfg, e) then multiset{FinalFailure(k, e.serial)} else multiset{}
  }

  lemma ChunkStep(cfg: Settings, codec: Codec, s: State, modelId: uint32, kind: byte, index: uint32, len: uint16,
                  stream: seq<byte>, now: int)
    requires TransferSettings.Valid(cfg)
    ensures
      var k := KeyOf(modelId, kind);
      Step(cfg, codec, s, Chunk(modelId, kind, index, len, stream), now) ==
        if k !in s.active then s
        else match JudgeChunk(s.active[k], index, len, stream)
          case Drop => s
          case Refuse => Retried(cfg, s, k, now)
          case Write(_) => s.(active := s.active[k := WriteChunk(s.active[k], index, len, stream, now)])
  {
    hide KeyOf, JudgeChunk, TransferEntry.ScheduleRetry, WriteChunk, LastAttempt;
  }

  lemma PlainStep(cfg: Settings, codec: Codec, s: State, ev: Event, now: int)
    requires TransferSettings.Valid(cfg) && (ev.Begin? || ev.Cancel? || ev.Retry?)
    ensures
      var k := Target(ev);
      Step(cfg, codec, s, ev, now) ==
        if k !in s.active then s
        else
          var e := s.active[k];
          s.(active := s.active[k := EntryAfter(cfg, codec, e, ev, now)],
             tasks := s.tasks + match ev
               case Cancel(_, _) => multiset{EraseAndFail(k, e.serial), CallbackFalse(k, e.serial)}
               case Retry(_, _) => multiset{SendRequest(k)}
               case _ => multiset{})
  {
    hide KeyOf, EntryAfter;
  }

  lemma TaskStep(cfg: Settings, codec: Codec, s: State, task: Task, now: int)
    requires TransferSettings.Valid(cfg) && task in s.tasks
    ensures Step(cfg, codec, s, RunTask(task), now) ==
      s.(active := match task
           case FinalFailure(k, _) =>
             if k in s.active then s.active[k := s.active[k].(failed := true, status := Failed)] else s.active
           case EraseAndFail(k, _) => s.active - {k}
           case Deliver(k, _) => s.active - {k}
           case _ => s.active,
         tasks := s.tasks - multiset{task})
  {
  }

  lemma RequestStep(cfg: Settings, codec: Codec, s: State, modelId: uint32, kind: byte, sha: string, cached: bool,
                    now: int)
    requires TransferSettings.Valid(cfg)
    ensures
      var k := KeyOf(modelId, kind);
      Step(cfg, codec, s, Request(modelId, kind, sha, cached), now) ==
        if cached || k in s.active then s.(nextSerial := s.nextSerial + 1)
        else s.(active := s.active[k := NewEntry(cfg, sha, s.nextSerial, now)],
                tasks := s.tasks + multiset{SendRequest(k)}, nextSerial := s.nextSerial + 1)
  {
    hide KeyOf, NewEntry;
  }

  // The first section of OnTransferEnd moves the buffer out.
  predicate TakesFrom(active: map<Key, InFlight>, k: Key) { k in active && EndTest(active[k]) }

  lemma TakeStep(cfg: Settings, codec: Codec, s: State, modelId: uint32, kind: byte, now: int)
    requires TransferSettings.Valid(cfg)
    ensures
      var k := KeyOf(modelId, kind);
      && (TakesFrom(s.active, k) ==> s.active[k].buffer != [])
      && Step(cfg, codec, s, Take(modelId, kind), now) ==
           if k !in s.active || s.active[k].buffer == [] then s
           else if TakesFrom(s.active, k) then
             s.(active := s.active[k := s.active[k].(buffer := [])],
                taken := s.taken + multiset{TakenFrom(k, s.active[k])})
           else Retried(cfg, s, k, now)
  {
    hide KeyOf, TransferEntry.ScheduleRetry, LastAttempt;
  }

  lemma StoredStep(cfg: Settings, codec: Codec, s: State, t: Taken, now: int)
    requires TransferSettings.Valid(cfg) && t in s.taken && Unpack(cfg, codec, t).Some?
    ensures Step(cfg, codec, s, Finish(t, true), now)
         == s.(taken := s.taken - multiset{t}, tasks := s.tasks + multiset{Deliver(t.key, t.serial)})
  {
    hide Unpack, TransferEntry.ScheduleRetry, LastAttempt;
  }

  lemma SpoiltStep(cfg: Settings, codec: Codec, s: State, t: Taken, stored: bool, now: int)
    requires TransferSettings.Valid(cfg) && t in s.taken && !(Unpack(cfg, codec, t).Some? && stored)
    ensures
      var s1 := s.(taken := s.taken - multiset{t});
      Step(cfg, codec, s, Finish(t, stored), now) == if t.key in s.active then Retried(cfg, s1, t.key, now) else s1
  {
    hide Unpack, TransferEntry.ScheduleRetry, LastAttempt;
  }

  lemma UnpackedIsHandover(cfg: Settings, codec: Codec, k: Key, e: InFlight)
    ensures
      var data := Unpack(cfg, codec, TakenFrom(k, e));
      EndTest(e) && data.Some? ==> Handover(codec, e, data.value)
  {
    hide EndTest, SameIgnoringCase;
  }

  lemma WorkerStep(cfg: Settings, codec: Codec, s: State, now: int)
    requires TransferSettings.Valid(cfg)
    ensures Step(cfg, codec, s, Worker, now) ==
              s.(active := TickAll(cfg, s.active, now),
                 tasks := s.tasks + multiset(SendsOf(cfg, s.active, s.active.Keys, now)))
  {
    hide Tick, Sends;
    assert SendSet(cfg, s.active, now) == SendsOf(cfg, s.active, s.active.Keys, now);
  }

  function TickAll(cfg: Settings, active: map<Key, InFlight>, now: int): map<Key, InFlight>
    requires TransferSettings.Valid(cfg)
  {
    map k | k in active :: Tick(cfg, active[k], now)
  }

  lemma TickedAll(cfg: Settings, was: map<Key, InFlight>, active: map<Key, InFlight>, now: int)
    requires TransferSettings.Valid(cfg) && active.Keys == was.Keys
    requires forall k :: k in was ==> active[k] == Tick(cfg, was[k], now)
    ensures active == TickAll(cfg, was, now)
  {
    hide Tick;
  }

  // SendSet, for some of the keys.
  function SendsOf(cfg: Settings, active: map<Key, InFlight>, keys: set<Key>, now: int): set<Task>
    requires keys <= active.Keys
  {
    set k | k in keys && Sends(cfg, active[k], now) :: SendRequest(k)
  }

  lemma SendsGrow(cfg: Settings, active: map<Key, InFlight>, keys: set<Key>, now: int, k: Key)
    requires keys <= active.Keys && k in active && k !in keys
    ensures multiset(SendsOf(cfg, active, keys + {k}, now))
         == multiset(SendsOf(cfg, active, keys, now))
            + (if Sends(cfg, active[k], now) then multiset{SendRequest(k)} else multiset{})
  {
    hide Sends;
    var sends := SendsOf(cfg, active, keys, now);
    if Sends(cfg, active[k], now) {
      assert SendsOf(cfg, active, keys + {k}, now) == sends + {SendRequest(k)};
      assert SendRequest(k) !in sends;
    } else {
      assert SendsOf(cfg, active, keys + {k}, now) == sends;
    }
  }

  lemma NobodySends(cfg: Settings, active: map<Key, InFlight>, now: int)
    ensures SendsOf(cfg, active, {}, now) == {}
  {
  }

  lemma NobodyCalled()
    ensures CallbackSet(map[]) == {}
  {
  }

  lemma CallbacksGrow(some: map<Key, InFlight>, k: Key, e: InFlight)
    requires k !in some
    ensures multiset(CallbackSet(some[k := e])) == multiset(CallbackSet(some)) + multiset{CallbackFalse(k, e.serial)}
  {
    var more, one := some[k := e], CallbackFalse(k, e.serial);
    forall task
      ensures task in CallbackSet(more) <==> task in CallbackSet(some) || task == one
    {
      assert k in more && more[k] == e;
      assert forall j :: j in some ==> j in more && more[j] == some[j];
    }
    assert CallbackSet(more) == CallbackSet(some) + {one};
    assert one !in CallbackSet(some);
  }

  lemma CancelSteps(cfg: Settings, codec: Codec, s: State, modelId: uint32, now: int)
    requires TransferSettings.Valid(cfg)
    ensures Step(cfg, codec, s, CancelAll, now)
         == s.(active := map[], tasks := s.tasks + multiset(CallbackSet(s.active)))
    ensures Step(cfg, codec, s, CancelModel(modelId), now)
         == s.(active := s.active - OfModel(s.active, modelId).Keys,
               tasks := s.tasks + multiset(CallbackSet(OfModel(s.active, modelId))))
  {
    hide CallbackSet, OfModel;
  }

  // What a successful transfer hands over: the whole, unpacked, with the hash the entry expected.
  predicate Handover(codec: Codec, e: InFlight, bytes: seq<byte>) {
    EndTest(e) && codec.inflate(e.buffer) == Some(bytes) && SameIgnoringCase(codec.hash(bytes), e.expectedSha)
  }

  // The cache before and after an end packet is worked off, and whether the file was stored.
  ghost predicate StoredFrom(cfg: Settings, codec: Codec, t: Taken, c: CacheState.Cache,
                             result: CacheState.WriteResult, now: int, c': CacheState.Cache, stored: bool)
  {
    match Unpack(cfg, codec, t)
    case None => c' == c && !stored
    case Some(data) =>
      CacheState.Stored(c', stored) == CacheState.Store(codec.hash, cfg, c, t.key, data, t.expectedSha, result, now)
  }

  ghost predicate CacheAfterEnd(cfg: Settings, codec: Codec, active: map<Key, InFlight>, c: CacheState.Cache, k: Key,
                                result: CacheState.WriteResult, now: int, c': CacheState.Cache, stored: bool)
  {
    if TakesFrom(active, k) then StoredFrom(cfg, codec, TakenFrom(k, active[k]), c, result, now, c', stored)
    else c' == c && !stored
  }

  lemma UnpackChecks(cfg: Settings, codec: Codec, t: Taken)
    ensures
      var data := Unpack(cfg, codec, t);
      data.Some? ==> SameIgnoringCase(codec.hash(data.value), t.expectedSha)
  {
    hide SameIgnoringCase;
  }

  // Both sections of OnTransferEnd, with nothing in between.
  function TakeAndFinish(cfg: Settings, codec: Codec, s: State, modelId: uint32, kind: byte, stored: bool, now: int)
    : State
    requires TransferSettings.Valid(cfg)
  {
    var k, s1 := KeyOf(modelId, kind), Step(cfg, codec, s, Take(modelId, kind), now);
    if TakesFrom(s.active, k) then Step(cfg, codec, s1, Finish(TakenFrom(k, s.active[k]), stored), now) else s1
  }

  class ModelTransferClient {
    const cfg: Settings
    const codec: Codec
    const cache: AssetCache.ModelCache
    var active: map<Key, InFlight>
    var tasks: multiset<Task>
    var nextSerial: nat
    // The end packets that other threads have between their two sections; their data is local there.
    ghost var taken: multiset<Taken>

    ghost predicate Valid()
      reads this, cache
    {
      && TransferSettings.Valid(cfg)
      && cache.cfg == cfg && cache.hash == codec.hash
    }

    constructor (cfg: Settings, codec: Codec, cache: AssetCache.ModelCache)
      requires TransferSettings.Valid(cfg) && cache.cfg == cfg && cache.hash == codec.hash
      ensures this.cfg == cfg && this.codec == codec && this.cache == cache
      ensures Valid() && View() == EMPTY
    {
      this.cfg, this.codec, this.cache := cfg, codec, cache;
      active, tasks, nextSerial, taken := map[], multiset{}, 0, multiset{};
    }

    ghost function View(): State
      reads this
    {
      State(active, tasks, taken, nextSerial)
    }

    ghost predicate CacheSound()
      reads this, cache
    {
      CacheIntegrity.Sound(codec.hash, cache.View())
    }

    method Push(task: Task)
      modifies this`tasks
      ensures tasks == old(tasks) + multiset{task}
    {
      tasks := tasks + multiset{task};
    }

    method RequestFile(modelId: uint32, kind: byte, sha: string, now: int,
                       locked: set<CacheState.Path>, readable: bool) returns (path: Option<CacheState.Path>)
      requires Valid()
      modifies this, cache
      ensures Valid()
      ensures View() == Step(cfg, codec, old(View()), Request(modelId, kind, sha, path.Some?), now)
      ensures CacheState.Lookup(cache.View(), path)
           == CacheState.TryGet(codec.hash, cfg, old(cache.View()), KeyOf(modelId, kind), sha, now, locked, readable)
    {
      hide KeyOf, CacheState.TryGet, NewEntry, Step;
      RequestStep(cfg, codec, View(), modelId, kind, sha, false, now);
      RequestStep(cfg, codec, View(), modelId, kind, sha, true, now);
      var k, n := KeyOf(modelId, kind), nextSerial;
      nextSerial := nextSerial + 1;
      path := cache.TryGet(k, sha, now, locked, readable);
      if path.Some? {
        return;
      }
      if k in active {
        return;
      }
      active := active[k := NewEntry(cfg, sha, n, now)];
      Push(SendRequest(k));
    }

    // Called with the lock held and k in the map.
    method ScheduleRetry(k: Key, now: int)
      requires TransferSettings.Valid(cfg) && k in active
      modifies this`active, this`tasks
      ensures View() == Retried(cfg, old(View()), k, now)
    {
      var e := active[k];
      e := e.(attempts := e.attempts + 1,
              status := if e.attempts + 1 <= cfg.retryMaxAttempts then Retrying else Failed);
      if e.attempts > cfg.retryMaxAttempts {
        active := active[k := e.(failed := true)];
        Push(FinalFailure(k, e.serial));
        return;
      }
      var wait := if e.backoffMs > 0 then e.backoffMs else cfg.retryInitialBackoffMs;
      e := e.(nextRetry := Some(now + wait));
      var doubled := if e.backoffMs > 0 then e.backoffMs * 2 % TWO32 else cfg.retryInitialBackoffMs * 2;
      e := e.(backoffMs := Min(doubled, cfg.retryMaxBackoffMs));
      e := e.(buffer := [], bitmap := [], receivedBytes := 0, receivedChunks := 0, startTime := now);
      active := active[k := e];
    }

    method ManualRetry(modelId: uint32, kind: byte, now: int)
      requires TransferSettings.Valid(cfg)
      modifies this
      ensures View() == Step(cfg, codec, old(View()), Retry(modelId, kind), now)
    {
      hide KeyOf, Step;
      PlainStep(cfg, codec, View(), Retry(modelId, kind), now);
      var k := KeyOf(modelId, kind);
      if k !in active {
        return;
      }
      active := active[k := active[k].(attempts := 1, backoffMs := cfg.retryInitialBackoffMs, nextRetry := None)];
      active := active[k := active[k].(failed := false, status := RetryingByHand, buffer := [], bitmap := [])];
      active := active[k := active[k].(receivedBytes := 0, receivedChunks := 0, startTime := now)];
      Push(SendRequest(k));
    }

    method OnTransferBegin(modelId: uint32, kind: byte, compressed: uint32, uncompressed: uint32,
                           chunks: uint32, sha: string, now: int)
      requires TransferSettings.Valid(cfg)
      modifies this
      ensures View() == Step(cfg, codec, old(View()), Begin(modelId, kind, compressed, uncompressed, chunks, sha), now)
    {
      hide KeyOf, CString, Resize, Step;
      PlainStep(cfg, codec, View(), Begin(modelId, kind, compressed, uncompressed, chunks, sha), now);
      var k := KeyOf(modelId, kind);
      if compressed == 0 || compressed > cfg.clientMaxCompressedSize || uncompressed == 0
         || uncompressed > cfg.clientMaxUncompressedSize || chunks == 0 {
        if k in active {
          var wait := if active[k].backoffMs > 0 then active[k].backoffMs else 500;
          active := active[k := active[k].(status := RejectedSize, nextRetry := Some(now + wait),
                                           attempts := active[k].attempts + 1)];
        }
        return;
      }
      if k !in active {
        return;
      }
      var e := active[k].(compressedSize := compressed, uncompressedSize := uncompressed, totalChunks := chunks);
      e := e.(status := Downloading, buffer := Resize(e.buffer, compressed), bitmap := seq(chunks, _ => false));
      e := e.(expectedSha := CString(sha), startTime := now, nextRetry := None, backoffMs := cfg.retryInitialBackoffMs);
      active := active[k := e];
    }

    method OnTransferChunk(modelId: uint32, kind: byte, index: uint32, len: uint16, stream: seq<byte>, now: int)
      requires TransferSettings.Valid(cfg)
      modifies this
      ensures View() == Step(cfg, codec, old(View()), Chunk(modelId, kind, index, len, stream), now)
    {
      hide KeyOf, Step, FinalCall, TransferEntry.ScheduleRetry;
      ChunkStep(cfg, codec, View(), modelId, kind, index, len, stream, now);
      var k := KeyOf(modelId, kind);
      if k !in active {
        return;
      }
      var e := active[k];
      if e.buffer == [] {
        return;
      }
      if index >= e.totalChunks {
        ScheduleRetry(k, now);
        return;
      }
      if index < |e.bitmap| && e.bitmap[index] {
        return;
      }
      var offset := index * CHUNK_SIZE % TWO32;
      if offset >= |e.buffer| {
        ScheduleRetry(k, now);
        return;
      }
      var remaining := |e.buffer| - offset;
      if len > remaining {
        ScheduleRetry(k, now);
        return;
      }
      if |stream| < len {
        ScheduleRetry(k, now);
        return;
      }
      e := e.(buffer := e.buffer[..offset] + stream[..len] + e.buffer[offset + len..]);
      if index < |e.bitmap| {
        e := e.(bitmap := e.bitmap[index := true]);
      }
      e := e.(receivedChunks := (e.receivedChunks + 1) % TWO32, receivedBytes := (e.receivedBytes + len) % TWO32);
      active := active[k := e.(startTime := now, nextRetry := None)];
    }

    // OnTransferEnd's test that every chunk has come.
    method AllReceived(e: InFlight) returns (all: bool)
      ensures e.buffer != [] ==> (EndTest(e) <==> all && e.receivedBytes == e.compressedSize)
    {
      all := |e.bitmap| == e.totalChunks;
      var i := 0;
      while i < |e.bitmap|
        invariant 0 <= i <= |e.bitmap|
        invariant forall j | 0 <= j < i :: e.bitmap[j]
      {
        if !e.bitmap[i] {
          return false;
        }
        i := i + 1;
      }
    }

    /** OnTransferEnd up to the release of the lock: what it moves out of the entry, if the test passes. */
    method TakeBuffer(modelId: uint32, kind: byte, now: int) returns (t: Option<Taken>)
      requires TransferSettings.Valid(cfg)
      modifies this
      ensures View() == Step(cfg, codec, old(View()), Take(modelId, kind), now)
      ensures
        var k := KeyOf(modelId, kind);
        t == if TakesFrom(old(active), k) then Some(TakenFrom(k, old(active)[k])) else None
      ensures t.Some? ==> taken == old(taken) + multiset{t.value} && active.Keys == old(active.Keys)
    {
      hide KeyOf, TransferEntry.ScheduleRetry, Step, EndTest, FinalCall;
      TakeStep(cfg, codec, View(), modelId, kind, now);
      var k := KeyOf(modelId, kind);
      if k !in active || active[k].buffer == [] {
        return None;
      }
      var e := active[k];
      var all := AllReceived(e);
      if !all || e.receivedBytes != e.compressedSize {
        ScheduleRetry(k, now);
        return None;
      }
      active := active[k := e.(buffer := [])];
      taken := taken + multiset{TakenFrom(k, e)};
      return Some(TakenFrom(k, e));
    }

    /** The rest: unpack, check and store without the lock, then the last locked section. By then the
        entry may be another one, or gone. `result` is what the file system does with the file. */
    method FinishEnd(t: Taken, result: CacheState.WriteResult, now: int) returns (stored: bool, path: CacheState.Path)
      requires Valid() && t in taken
      modifies this, cache
      ensures Valid()
      ensures View() == Step(cfg, codec, old(View()), Finish(t, stored), now)
      ensures StoredFrom(cfg, codec, t, old(cache.View()), result, now, cache.View(), stored)
      ensures old(CacheSound()) ==> CacheSound()
      ensures stored ==>
        path in cache.disk && Unpack(cfg, codec, t) == Some(cache.disk[path].bytes)
    {
      hide TransferEntry.ScheduleRetry, CacheIntegrity.Sound, CacheState.Store, Step, Unpack, FinalCall;
      stored, path := false, CacheState.Path("", "");
      ghost var s := View();
      taken := taken - multiset{t};
      var data := CheckAndUnpack(t);
      if data.None? {
        SpoiltStep(cfg, codec, s, t, false, now);
        if t.key in active {
          ScheduleRetry(t.key, now);
        }
        return;
      }
      UnpackChecks(cfg, codec, t);
      stored, path := StoreFile(t.key, data.value, t.expectedSha, result, now);
      if !stored {
        SpoiltStep(cfg, codec, s, t, false, now);
        if t.key in active {
          ScheduleRetry(t.key, now);
        }
        return;
      }
      StoredStep(cfg, codec, s, t, now);
      Push(Deliver(t.key, t.serial));
    }

    /** Both, with nothing between. A delivered path holds a file whose hash is the one the entry
        expected; and the cache stays sound. */
    method OnTransferEnd(modelId: uint32, kind: byte, result: CacheState.WriteResult, now: int)
      returns (stored: bool, path: CacheState.Path)
      requires Valid()
      modifies this, cache
      ensures Valid()
      ensures View() == TakeAndFinish(cfg, codec, old(View()), modelId, kind, stored, now)
      ensures CacheAfterEnd(cfg, codec, old(active), old(cache.View()), KeyOf(modelId, kind), result, now,
                            cache.View(), stored)
      ensures old(CacheSound()) ==> CacheSound()
      ensures stored ==>
        && KeyOf(modelId, kind) in old(active)
        && path in cache.disk
        && Handover(codec, old(active)[KeyOf(modelId, kind)], cache.disk[path].bytes)
    {
      hide KeyOf, CacheIntegrity.Sound, CacheState.Store, Step, EndTest, Unpack;
      stored, path := false, CacheState.Path("", "");
      var t := TakeBuffer(modelId, kind, now);
      if t.Some? {
        stored, path := FinishEnd(t.value, result, now);
        if stored {
          UnpackedIsHandover(cfg, codec, KeyOf(modelId, kind), old(active)[KeyOf(modelId, kind)]);
        }
      }
    }

    // Size checks, uncompress, and the hash of what came out.
    method CheckAndUnpack(t: Taken) returns (data: Option<seq<byte>>)
      ensures data == Unpack(cfg, codec, t)
    {
      if t.uncompressedSize == 0 || t.uncompressedSize > cfg.clientMaxUncompressedSize {
        return None;
      }
      data := codec.inflate(t.compressed);
      if data.Some? {
        if |data.value| != t.uncompressedSize || !SameIgnoringCase(codec.hash(data.value), t.expectedSha) {
          data := None;
        }
      }
    }

    // ModelCache::Store, then PathFor.
    method StoreFile(k: Key, bytes: seq<byte>, sha: string, result: CacheState.WriteResult, now: int)
      returns (stored: bool, path: CacheState.Path)
      requires Valid() && SameIgnoringCase(codec.hash(bytes), sha)
      modifies cache
      ensures Valid()
      ensures CacheState.Stored(cache.View(), stored)
           == CacheState.Store(codec.hash, cfg, old(cache.View()), k, bytes, sha, result, now)
      ensures old(CacheSound()) ==> CacheSound()
      ensures stored ==> path in cache.disk && cache.disk[path].bytes == bytes
    {
      hide CacheIntegrity.Sound, CacheState.AssetPath, CacheState.Nest, CacheState.Flatten, SameIgnoringCase,
           CacheState.IsRiff;
      ghost var c0 := cache.View();
      stored := cache.Store(k, bytes, sha, result, now);
      if CacheIntegrity.Sound(codec.hash, c0) {
        CacheIntegrity.StoreSound(codec.hash, cfg, c0, k, bytes, sha, result, now);
      }
      if stored {
        path := cache.PathFor(k);
      } else {
        path := CacheState.Path("", "");
      }
    }

    method OnTransferCancel(modelId: uint32, kind: byte, ghost now: int)
      requires TransferSettings.Valid(cfg)
      modifies this
      ensures View() == Step(cfg, codec, old(View()), Cancel(modelId, kind), now)
    {
      hide KeyOf, Step;
      PlainStep(cfg, codec, View(), Cancel(modelId, kind), now);
      var k := KeyOf(modelId, kind);
      if k !in active {
        return;
      }
      var n := active[k].serial;
      active := active[k := active[k].(failed := true, status := Failed)];
      Push(EraseAndFail(k, n));
      Push(CallbackFalse(k, n));
    }

    method CancelEverything(ghost now: int)
      requires TransferSettings.Valid(cfg)
      modifies this
      ensures View() == Step(cfg, codec, old(View()), CancelAll, now)
    {
      hide Step, CallbackSet;
      ghost var was := active;
      var todo := active.Keys;
      ghost var seen: map<Key, InFlight> := map[];
      var callbacks: multiset<Task> := multiset{};
      NobodyCalled();
      while todo != {}
        invariant todo <= was.Keys
        invariant forall k :: k in was ==> (k in seen <==> k !in todo)
        invariant forall k :: k in seen ==> k in was && seen[k] == was[k]
        invariant callbacks == multiset(CallbackSet(seen))
        invariant active == was && tasks == old(tasks) && nextSerial == old(nextSerial) && taken == old(taken)
      {
        var k :| k in todo;
        CallbacksGrow(seen, k, active[k]);
        callbacks := callbacks + multiset{CallbackFalse(k, active[k].serial)};
        todo, seen := todo - {k}, seen[k := active[k]];
      }
      assert seen == was;
      CancelSteps(cfg, codec, old(View()), 0, now);
      active := map[];
      tasks := tasks + callbacks;
    }

    method CancelModelTransfers(modelId: uint32, ghost now: int)
      requires TransferSettings.Valid(cfg)
      modifies this
      ensures View() == Step(cfg, codec, old(View()), CancelModel(modelId), now)
    {
      hide Step, CallbackSet, ModelOf;
      ghost var was := active;
      var todo := active.Keys;
      ghost var gone: map<Key, InFlight> := map[];
      var callbacks: multiset<Task> := multiset{};
      NobodyCalled();
      while todo != {}
        invariant todo <= was.Keys && gone.Keys <= was.Keys - todo
        invariant forall k :: k in gone ==> gone[k] == was[k]
        invariant forall k :: k in was && k !in todo ==> (k in gone <==> ModelOf(k) == modelId)
        invariant active == was - gone.Keys
        invariant callbacks == multiset(CallbackSet(gone))
        invariant tasks == old(tasks) && nextSerial == old(nextSerial) && taken == old(taken)
      {
        var k :| k in todo;
        if ModelOf(k) == modelId {
          CallbacksGrow(gone, k, active[k]);
          callbacks := callbacks + multiset{CallbackFalse(k, active[k].serial)};
          gone := gone[k := active[k]];
          active := active - {k};
        }
        todo := todo - {k};
      }
      assert gone == OfModel(was, modelId);
      CancelSteps(cfg, codec, old(View()), modelId, now);
      tasks := tasks + callbacks;
    }

    // One round of the worker thread's loop.
    method WorkerPass(now: int)
      requires TransferSettings.Valid(cfg)
      modifies this
      ensures View() == Step(cfg, codec, old(View()), Worker, now)
    {
      hide Tick, TickAll, Sends, Step, SendsOf;
      ghost var was := active;
      var todo := active.Keys;
      ghost var seen: set<Key> := {};
      var sends: multiset<Task> := multiset{};
      assert sends == multiset(SendsOf(cfg, was, {}, now)) by { NobodySends(cfg, was, now); }
      while todo != {}
        invariant todo <= was.Keys && seen == was.Keys - todo
        invariant active.Keys == was.Keys
        invariant forall k :: k in was ==> active[k] == if k in seen then Tick(cfg, was[k], now) else was[k]
        invariant sends == multiset(SendsOf(cfg, was, seen, now))
        invariant View() == old(View()).(active := active)
      {
        var k :| k in todo;
        var e, send := TickEntry(active[k], now);
        active := active[k := e];
        if send {
          sends := sends + multiset{SendRequest(k)};
        }
        SendsGrow(cfg, was, seen, now, k);
        todo, seen := todo - {k}, seen + {k};
      }
      assert seen == was.Keys;
      TickedAll(cfg, was, active, now);
      WorkerStep(cfg, codec, old(View()), now);
      tasks := tasks + sends;
    }

    method TickEntry(e0: InFlight, now: int) returns (e: InFlight, send: bool)
      requires TransferSettings.Valid(cfg)
      ensures e == Tick(cfg, e0, now) && send == Sends(cfg, e0, now)
    {
      e, send := e0, false;
      if e.failed {
        return;
      }
      if e.attempts > cfg.retryMaxAttempts {
        e := e.(failed := true, status := Failed);
        return;
      }
      if e.nextRetry.Some? && e.nextRetry.value <= now {
        send := true;
        e := e.(status := Requesting, startTime := now, nextRetry := None);
        return;
      }
      if e.status == Requesting || e.status == Downloading {
        if (now - e.startTime) % TWO32 > cfg.retryResponseTimeoutMs {
          send := true;
          e := e.(attempts := e.attempts + 1, status := RetryingAfterTimeout);
          e := e.(backoffMs := Min(if e.backoffMs > 0 then e.backoffMs * 2 % TWO32 else cfg.retryInitialBackoffMs,
                                   cfg.retryMaxBackoffMs));
          e := e.(nextRetry := Some(now + e.backoffMs), buffer := [], bitmap := []);
          e := e.(receivedBytes := 0, receivedChunks := 0, startTime := now);
        }
      }
    }

    // The main thread runs one of the pushed tasks.
    method RunOne(task: Task, ghost now: int)
      requires TransferSettings.Valid(cfg) && task in tasks
      modifies this
      ensures View() == Step(cfg, codec, old(View()), RunTask(task), now)
    {
      hide Step;
      TaskStep(cfg, codec, View(), task, now);
      tasks := tasks - multiset{task};
      match task {
        case FinalFailure(k, _) =>
          if k in active {
            active := active[k := active[k].(failed := true, status := Failed)];
          }
        case EraseAndFail(k, _) => active := active - {k};
        case Deliver(k, _) => active := active - {k};
        case _ =>
      }
    }
  }
}
