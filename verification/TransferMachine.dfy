/** ModelTransferClient as a state machine: the map of in-flight entries, the end packets being
    worked on, and the functions queued for the main thread. The pushes of one worker pass follow
    the order of a hash map, so the queue is kept as a multiset. */
module TransferMachine {
  import opened Common
  import opened TransferSettings
  import opened TransferEntry

  // A queued function, with the key it looks up when it runs and, where it calls onReady, the
  // serial of the request whose onReady it captured.
  datatype Task =
    | SendRequest(key: Key)                  // AssetRequest packet
    | FinalFailure(key: Key, serial: nat)    // mark failed again, then onReady(false)
    | EraseAndFail(key: Key, serial: nat)    // onReady(false), then erase: FailImmediately
    | CallbackFalse(key: Key, serial: nat)   // onReady(false)
    | Deliver(key: Key, serial: nat)         // erase, AssetReady, onReady(true)

  datatype State = State(
    active: map<Key, InFlight>,
    tasks: multiset<Task>,
    taken: multiset<Taken>,                  // OnTransferEnd between its two locked sections
    nextSerial: nat)                         // of the next call of RequestFile

  const EMPTY := State(map[], multiset{}, multiset{}, 0)

  datatype Event =
    | Request(modelId: uint32, kind: byte, sha: string, cached: bool)
    | Begin(modelId: uint32, kind: byte, compressed: uint32, uncompressed: uint32, chunks: uint32, sha: string)
    | Chunk(modelId: uint32, kind: byte, index: uint32, len: uint16, stream: seq<byte>)
    | Take(modelId: uint32, kind: byte)      // OnTransferEnd, first locked section
    | Finish(taken: Taken, stored: bool)     // and last; anything may come between
    | Cancel(modelId: uint32, kind: byte)
    | Retry(modelId: uint32, kind: byte)
    | CancelModel(modelId: uint32)
    | CancelAll
    | Worker
    | RunTask(task: Task)

  // An event and the clock reading its handler takes.
  datatype Timed = Timed(event: Event, now: int)

  predicate Addressed(ev: Event) {
    ev.Request? || ev.Begin? || ev.Chunk? || ev.Take? || ev.Finish? || ev.Cancel? || ev.Retry?
  }

  function Target(ev: Event): Key
    requires Addressed(ev)
  {
    if ev.Finish? then ev.taken.key else KeyOf(ev.modelId, ev.kind)
  }

  predicate IsFor(ev: Event, k: Key) { Addressed(ev) && Target(ev) == k }

  // The last section of OnTransferEnd got good data and stored it.
  predicate HandsOver(cfg: Settings, codec: Codec, ev: Event) {
    ev.Finish? && ev.stored && Unpack(cfg, codec, ev.taken).Some?
  }

  // What a packet does to the entry it finds.
  function EntryAfter(cfg: Settings, codec: Codec, e: InFlight, ev: Event, now: int): InFlight
    requires Valid(cfg)
  {
    match ev
    case Begin(_, _, compressed, uncompressed, chunks, sha) =>
      ReceiveBegin(cfg, e, compressed, uncompressed, chunks, sha, now)
    case Chunk(_, _, index, len, stream) => ReceiveChunk(cfg, e, index, len, stream, now)
    case Take(_, _) => TakeBuffer(cfg, e, now)
    case Finish(_, _) => FinishEnd(cfg, e, HandsOver(cfg, codec, ev), now)
    case Cancel(_, _) => e.(failed := true, status := Failed)
    case Retry(_, _) => ManualRetry(cfg, e, now)
    case Worker => Tick(cfg, e, now)
    case _ => e
  }

  // ---- what an event queues ----

  // The packet makes ScheduleRetry run on the entry.
  predicate Refuses(cfg: Settings, codec: Codec, e: InFlight, ev: Event) {
    || (ev.Chunk? && JudgeChunk(e, ev.index, ev.len, ev.stream).Refuse?)
    || (ev.Take? && e.buffer != [] && !EndTest(e))
    || (ev.Finish? && !HandsOver(cfg, codec, ev))
  }

  predicate LastAttempt(cfg: Settings, e: InFlight) { e.attempts + 1 > cfg.retryMaxAttempts }

  function PacketTasks(cfg: Settings, codec: Codec, k: Key, e: InFlight, ev: Event): multiset<Task> {
    if Refuses(cfg, codec, e, ev) then
      if LastAttempt(cfg, e) then multiset{FinalFailure(k, e.serial)} else multiset{}
    else if ev.Cancel? then multiset{EraseAndFail(k, e.serial), CallbackFalse(k, e.serial)}
    else if ev.Retry? then multiset{SendRequest(k)}
    else multiset{}
  }

  function SendSet(cfg: Settings, active: map<Key, InFlight>, now: int): set<Task> {
    set k | k in active && Sends(cfg, active[k], now) :: SendRequest(k)
  }

  function CallbackSet(active: map<Key, InFlight>): set<Task> {
    set k | k in active :: CallbackFalse(k, active[k].serial)
  }

  function OfModel(active: map<Key, InFlight>, modelId: uint32): map<Key, InFlight> {
    map k | k in active && ModelOf(k) == modelId :: active[k]
  }

  // An end packet that is being worked on.
  predicate Live(s: State, ev: Event) { ev.Finish? ==> ev.taken in s.taken }

  function Pushed(cfg: Settings, codec: Codec, s: State, ev: Event, now: int): multiset<Task> {
    match ev
    case Request(_, _, _, cached) =>
      if cached || Target(ev) in s.active then multiset{} else multiset{SendRequest(Target(ev))}
    case CancelModel(modelId) => multiset(CallbackSet(OfModel(s.active, modelId)))
    case CancelAll => multiset(CallbackSet(s.active))
    case Worker => multiset(SendSet(cfg, s.active, now))
    case RunTask(_) => multiset{}
    case _ =>
      if !Live(s, ev) then multiset{}
      else if HandsOver(cfg, codec, ev) then multiset{Deliver(ev.taken.key, ev.taken.serial)}
      else if Target(ev) in s.active then PacketTasks(cfg, codec, Target(ev), s.active[Target(ev)], ev)
      else multiset{}
  }

  // ---- steps ----

  function ActiveAfter(cfg: Settings, codec: Codec, s: State, ev: Event, now: int): map<Key, InFlight>
    requires Valid(cfg)
  {
    match ev
    case Request(_, _, sha, cached) =>
      if cached || Target(ev) in s.active then s.active
      else s.active[Target(ev) := NewEntry(cfg, sha, s.nextSerial, now)]
    case CancelModel(modelId) => s.active - OfModel(s.active, modelId).Keys
    case CancelAll => map[]
    case Worker => map k | k in s.active :: Tick(cfg, s.active[k], now)
    case RunTask(task) =>
      if task !in s.tasks then s.active
      else
        (match task
         case FinalFailure(k, _) =>
           if k in s.active then s.active[k := s.active[k].(failed := true, status := Failed)] else s.active
         case EraseAndFail(k, _) => s.active - {k}
         case Deliver(k, _) => s.active - {k}
         case _ => s.active)
    case _ =>
      if !Live(s, ev) || Target(ev) !in s.active then s.active
      else s.active[Target(ev) := EntryAfter(cfg, codec, s.active[Target(ev)], ev, now)]
  }

  function TakenAfter(s: State, ev: Event): multiset<Taken> {
    if ev.Take? && Target(ev) in s.active && EndTest(s.active[Target(ev)])
    then s.taken + multiset{TakenFrom(Target(ev), s.active[Target(ev)])}
    else if ev.Finish? then s.taken - multiset{ev.taken}
    else s.taken
  }

  function Step(cfg: Settings, codec: Codec, s: State, ev: Event, now: int): State
    requires Valid(cfg)
  {
    State(ActiveAfter(cfg, codec, s, ev, now),
          (if ev.RunTask? then s.tasks - multiset{ev.task} else s.tasks) + Pushed(cfg, codec, s, ev, now),
          TakenAfter(s, ev),
          if ev.Request? then s.nextSerial + 1 else s.nextSerial)
  }

  function Run(cfg: Settings, codec: Codec, s: State, events: seq<Timed>): State
    requires Valid(cfg)
  {
    if events == [] then s
    else
      var last := events[|events| - 1];
      Step(cfg, codec, Run(cfg, codec, s, events[..|events| - 1]), last.event, last.now)
  }

  // Everything a run queued, whether it has run since or not.
  function RunPushed(cfg: Settings, codec: Codec, s: State, events: seq<Timed>): multiset<Task>
    requires Valid(cfg)
  {
    if events == [] then multiset{}
    else
      var front, last := events[..|events| - 1], events[|events| - 1];
      RunPushed(cfg, codec, s, front) + Pushed(cfg, codec, Run(cfg, codec, s, front), last.event, last.now)
  }

  // The event is a worker pass, or a packet other than a request that concerns k.
  predicate Touches(s: State, ev: Event, k: Key) {
    ev.Worker? || (IsFor(ev, k) && !ev.Request? && Live(s, ev))
  }

  /** The only ways an entry for k comes to be after a step: it was there and one packet, tick or
      task changed it, or this step created it. */
  lemma StepCases(cfg: Settings, codec: Codec, s: State, ev: Event, now: int, k: Key)
    requires Valid(cfg)
    requires k in Step(cfg, codec, s, ev, now).active
    ensures
      var e' := Step(cfg, codec, s, ev, now).active[k];
      if k in s.active then
        || e' == s.active[k]
        || (Touches(s, ev, k) && e' == EntryAfter(cfg, codec, s.active[k], ev, now))
        || (ev.RunTask? && e' == s.active[k].(failed := true, status := Failed))
      else
        ev.Request? && IsFor(ev, k) && e' == NewEntry(cfg, ev.sha, s.nextSerial, now)
  {
    hide Tick, EntryAfter, NewEntry, KeyOf, ModelOf, Pushed, TakenAfter;
    if ev.Worker? && k in s.active {
      assert EntryAfter(cfg, codec, s.active[k], ev, now) == Tick(cfg, s.active[k], now) by {
        WorkerTicks(cfg, codec, s.active[k], now);
      }
    }
  }

  lemma WorkerTicks(cfg: Settings, codec: Codec, e: InFlight, now: int)
    requires Valid(cfg)
    ensures EntryAfter(cfg, codec, e, Worker, now) == Tick(cfg, e, now)
  {
  }

  lemma PacketStep(cfg: Settings, codec: Codec, s: State, ev: Event, now: int, k: Key)
    requires Valid(cfg) && k in s.active && Touches(s, ev, k)
    ensures k in Step(cfg, codec, s, ev, now).active
    ensures Step(cfg, codec, s, ev, now).active[k] == EntryAfter(cfg, codec, s.active[k], ev, now)
  {
    hide Tick, EntryAfter, KeyOf, Pushed, TakenAfter;
    WorkerTicks(cfg, codec, s.active[k], now);
  }

  lemma RunSnoc(cfg: Settings, codec: Codec, s: State, events: seq<Timed>, last: Timed)
    requires Valid(cfg)
    ensures Run(cfg, codec, s, events + [last]) == Step(cfg, codec, Run(cfg, codec, s, events), last.event, last.now)
    ensures RunPushed(cfg, codec, s, events + [last])
         == RunPushed(cfg, codec, s, events) + Pushed(cfg, codec, Run(cfg, codec, s, events), last.event, last.now)
  {
    hide Step, Pushed;
    assert (events + [last])[..|events|] == events;
  }
}
