/** Whose onReady is called, and how often. Every request that starts a transfer has a serial; its
    entry, and each queued function that captured its onReady, carry it. */
module TransferCallbacks {
  import opened Common
  import opened TransferSettings
  import opened TransferEntry
  import opened TransferMachine
  import opened TransferTiming

  // Calls of the onReady of request n, for k, among queued functions.
  function Calls(tasks: multiset<Task>, k: Key, n: nat): nat {
    tasks[FinalFailure(k, n)] + tasks[EraseAndFail(k, n)] + tasks[CallbackFalse(k, n)] + tasks[Deliver(k, n)]
  }

  lemma CallsAdd(a: multiset<Task>, b: multiset<Task>, k: Key, n: nat)
    ensures Calls(a + b, k, n) == Calls(a, k, n) + Calls(b, k, n)
  {
  }

  // The entry of request n is in flight.
  predicate Owns(s: State, k: Key, n: nat) { k in s.active && s.active[k].serial == n }

  // ---- one event ----

  // A further attempt was counted, and it is one too many.
  predicate RaisedPast(cfg: Settings, e: InFlight, e': InFlight) {
    e.attempts < e'.attempts && cfg.retryMaxAttempts < e'.attempts
  }

  // How an event ends a request's transfer.
  datatype Ending = Delivered | GaveUp | Cancelled | Withdrawn

  // What happens to request n, seen from outside: its data is handed over; a cancel packet finds its
  // entry; the entry goes without a queued function; or a packet takes it past its last attempt.
  function EndingAt(cfg: Settings, codec: Codec, s: State, ev: Event, now: int, k: Key, n: nat): Option<Ending>
    requires Valid(cfg)
  {
    var s' := Step(cfg, codec, s, ev, now);
    if HandsOver(cfg, codec, ev) && ev.taken in s.taken then
      if ev.taken.key == k && ev.taken.serial == n then Some(Delivered) else None
    else if !Owns(s, k, n) || ev.RunTask? then None
    else if k !in s'.active then Some(Withdrawn)
    else if ev.Cancel? && IsFor(ev, k) then Some(Cancelled)
    else if RaisedPast(cfg, s.active[k], s'.active[k]) && !ev.Worker? && !ev.Begin? then Some(GaveUp)
    else None
  }

  function Weight(e: Option<Ending>): nat {
    match e
    case None => 0
    case Some(Cancelled) => 2
    case Some(_) => 1
  }

  lemma WorkerCallsNobody(cfg: Settings, active: map<Key, InFlight>, now: int, k: Key, n: nat)
    ensures Calls(multiset(SendSet(cfg, active, now)), k, n) == 0
  {
    hide Sends;
    assert forall task :: task in SendSet(cfg, active, now) ==> task.SendRequest?;
  }

  lemma CallbackSetCalls(active: map<Key, InFlight>, k: Key, n: nat)
    ensures Calls(multiset(CallbackSet(active)), k, n) == if k in active && active[k].serial == n then 1 else 0
  {
    assert CallbackFalse(k, n) in CallbackSet(active) <==> k in active && active[k].serial == n;
  }

  lemma PacketCalls(cfg: Settings, codec: Codec, j: Key, e: InFlight, ev: Event, k: Key, n: nat)
    requires !HandsOver(cfg, codec, ev)
    ensures Calls(PacketTasks(cfg, codec, j, e, ev), k, n)
         == if j != k || e.serial != n then 0
            else if Refuses(cfg, codec, e, ev) then if LastAttempt(cfg, e) then 1 else 0
            else if ev.Cancel? then 2 else 0
  {
    hide JudgeChunk, EndTest, Unpack;
  }

  // Refusal is what takes an entry past its last attempt, other than passes and Begins.
  lemma RefusalRaises(cfg: Settings, codec: Codec, e: InFlight, ev: Event, now: int)
    requires Valid(cfg) && !ev.Worker? && !ev.Begin?
    ensures
      var e' := EntryAfter(cfg, codec, e, ev, now);
      && (Refuses(cfg, codec, e, ev) && LastAttempt(cfg, e) <==> RaisedPast(cfg, e, e'))
      && e'.serial == e.serial
  {
    hide JudgeChunk, EndTest, Unpack;
  }

  // An event that reaches the entry of its target, and hands nothing over.
  predicate Reaches(cfg: Settings, codec: Codec, s: State, ev: Event) {
    Addressed(ev) && !ev.Request? && Live(s, ev) && !HandsOver(cfg, codec, ev) && Target(ev) in s.active
  }

  lemma PacketEventCalls(cfg: Settings, codec: Codec, s: State, ev: Event, now: int, k: Key, n: nat)
    requires Valid(cfg) && Reaches(cfg, codec, s, ev)
    ensures Calls(Pushed(cfg, codec, s, ev, now), k, n) == Weight(EndingAt(cfg, codec, s, ev, now, k, n))
  {
    hide JudgeChunk, Unpack, KeyOf, Step, PacketTasks, EntryAfter, Refuses, LastAttempt, HandsOver, Calls;
    var j := Target(ev);
    PacketCalls(cfg, codec, j, s.active[j], ev, k, n);
    PacketStep(cfg, codec, s, ev, now, j);
    OthersStay(cfg, codec, s, ev, now, k);
    OnlyPacketsRefuse(cfg, codec, s.active[j], ev);
    if !ev.Begin? {
      RefusalRaises(cfg, codec, s.active[j], ev, now);
    }
  }

  lemma OthersStay(cfg: Settings, codec: Codec, s: State, ev: Event, now: int, k: Key)
    requires Valid(cfg) && Reaches(cfg, codec, s, ev)
    ensures
      var s' := Step(cfg, codec, s, ev, now);
      k in s.active && k != Target(ev) ==> k in s'.active && s'.active[k] == s.active[k]
  {
    hide KeyOf, EntryAfter, Pushed, TakenAfter;
  }

  lemma EventCalls(cfg: Settings, codec: Codec, s: State, ev: Event, now: int, k: Key, n: nat)
    requires Valid(cfg)
    ensures Calls(Pushed(cfg, codec, s, ev, now), k, n) == Weight(EndingAt(cfg, codec, s, ev, now, k, n))
  {
    if Reaches(cfg, codec, s, ev) {
      hide *;
      PacketEventCalls(cfg, codec, s, ev, now, k, n);
    } else {
      hide JudgeChunk, EndTest, Unpack, KeyOf, ModelOf, SendSet, CallbackSet, Tick, NewEntry, Refuses, PacketTasks,
           EntryAfter, LastAttempt, TakenAfter;
      if ev.Worker? {
        WorkerCallsNobody(cfg, s.active, now, k, n);
      } else if ev.CancelAll? {
        CallbackSetCalls(s.active, k, n);
      } else if ev.CancelModel? {
        CallbackSetCalls(OfModel(s.active, ev.modelId), k, n);
      }
    }
  }

  lemma OnlyPacketsRefuse(cfg: Settings, codec: Codec, e: InFlight, ev: Event)
    ensures Refuses(cfg, codec, e, ev) ==> ev.Chunk? || ev.Take? || ev.Finish?
  {
  }

  // ---- over the life of a request ----

  function Endings(cfg: Settings, codec: Codec, s: State, events: seq<Timed>, k: Key, n: nat): seq<Ending>
    requires Valid(cfg)
  {
    if events == [] then []
    else
      var front, last := events[..|events| - 1], events[|events| - 1];
      match EndingAt(cfg, codec, Run(cfg, codec, s, front), last.event, last.now, k, n)
      case None => Endings(cfg, codec, s, front, k, n)
      case Some(e) => Endings(cfg, codec, s, front, k, n) + [e]
  }

  function Weights(endings: seq<Ending>): nat {
    if endings == [] then 0 else Weights(endings[..|endings| - 1]) + Weight(Some(endings[|endings| - 1]))
  }

  lemma {:induction false} CallsAreEndings(cfg: Settings, codec: Codec, s: State, events: seq<Timed>, k: Key, n: nat)
    requires Valid(cfg)
    ensures Calls(RunPushed(cfg, codec, s, events), k, n) == Weights(Endings(cfg, codec, s, events, k, n))
  {
    hide Run, Pushed, EndingAt, Calls;
    if events == [] {
      NoCalls(k, n);
    } else {
      var front, last := events[..|events| - 1], events[|events| - 1];
      var m := Run(cfg, codec, s, front);
      CallsAreEndings(cfg, codec, s, front, k, n);
      EventCalls(cfg, codec, m, last.event, last.now, k, n);
      CallsAdd(RunPushed(cfg, codec, s, front), Pushed(cfg, codec, m, last.event, last.now), k, n);
      var endings := Endings(cfg, codec, s, events, k, n);
      assert endings != [] ==> endings[..|endings| - 1] + [endings[|endings| - 1]] == endings;
      match EndingAt(cfg, codec, m, last.event, last.now, k, n)
      case None =>
      case Some(e) => assert endings[..|endings| - 1] == Endings(cfg, codec, s, front, k, n);
    }
  }

  lemma NoCalls(k: Key, n: nat)
    ensures Calls(multiset{}, k, n) == 0
  {
  }

  lemma {:induction false} WeightsCount(endings: seq<Ending>)
    ensures Weights(endings) >= |endings|
    ensures Weights(endings) == |endings| <==> Cancelled !in endings
  {
    if endings != [] {
      var front, last := endings[..|endings| - 1], endings[|endings| - 1];
      WeightsCount(front);
      assert endings == front + [last];
    }
  }

  /** Over any run, the calls of a request's onReady that are queued are two for each cancel packet
      that finds its entry and one for each other ending. So it is called exactly once if and only if
      there is exactly one ending and that is no cancel, and never if and only if there is none. */
  lemma CalledExactlyOnceIff(cfg: Settings, codec: Codec, s: State, events: seq<Timed>, k: Key, n: nat)
    requires Valid(cfg)
    ensures
      var calls, endings := Calls(RunPushed(cfg, codec, s, events), k, n), Endings(cfg, codec, s, events, k, n);
      && calls == Weights(endings) >= |endings|
      && (calls == 1 <==> |endings| == 1 && endings[0] != Cancelled)
      && (calls == 0 <==> endings == [])
  {
    hide RunPushed, Endings, Calls;
    CallsAreEndings(cfg, codec, s, events, k, n);
    var endings := Endings(cfg, codec, s, events, k, n);
    WeightsCount(endings);
    if |endings| == 1 {
      assert endings == [endings[0]] && endings[..0] == [];
    }
  }

  // ---- ways to miss one call ----

  /** A cancel packet for an entry in flight: two calls. */
  lemma CancelCallsTwice(cfg: Settings, codec: Codec, s: State, modelId: uint32, kind: byte, now: int, n: nat)
    requires Valid(cfg) && Owns(s, KeyOf(modelId, kind), n)
    ensures Calls(RunPushed(cfg, codec, s, [Timed(Cancel(modelId, kind), now)]), KeyOf(modelId, kind), n) == 2
  {
    hide KeyOf, Pushed, Run, Calls, RunPushed;
    var k, ev := KeyOf(modelId, kind), Cancel(modelId, kind);
    OneEvent(cfg, codec, s, Timed(ev, now));
    EventCalls(cfg, codec, s, ev, now, k, n);
    PacketStep(cfg, codec, s, ev, now, k);
  }

  lemma OneEvent(cfg: Settings, codec: Codec, s: State, a: Timed)
    requires Valid(cfg)
    ensures Run(cfg, codec, s, [a]) == Step(cfg, codec, s, a.event, a.now)
    ensures RunPushed(cfg, codec, s, [a]) == Pushed(cfg, codec, s, a.event, a.now)
  {
    hide Step, Pushed;
    RunSnoc(cfg, codec, s, [], a);
    assert [] + [a] == [a];
  }

  /** Two end packets for an entry at its last attempt with chunks missing: two calls, with no cancel,
      since giving up keeps the buffer. */
  lemma TwoEndPacketsCallTwice(cfg: Settings, codec: Codec, s: State, modelId: uint32, kind: byte, t: int, u: int,
                               n: nat)
    requires Valid(cfg) && Owns(s, KeyOf(modelId, kind), n)
    requires
      var e := s.active[KeyOf(modelId, kind)];
      LastAttempt(cfg, e) && e.buffer != [] && !EndTest(e)
    ensures
      var run := [Timed(Take(modelId, kind), t), Timed(Take(modelId, kind), u)];
      && Endings(cfg, codec, s, run, KeyOf(modelId, kind), n) == [GaveUp, GaveUp]
      && Calls(RunPushed(cfg, codec, s, run), KeyOf(modelId, kind), n) == 2
  {
    hide KeyOf, Calls, RunPushed, EndTest;
    var k, ev := KeyOf(modelId, kind), Take(modelId, kind);
    var run := [Timed(ev, t), Timed(ev, u)];
    var s1 := Step(cfg, codec, s, ev, t);
    OneEvent(cfg, codec, s, Timed(ev, t));
    assert run[..1] == [Timed(ev, t)] && run[..1][..0] == [];
    PacketStep(cfg, codec, s, ev, t, k);
    StillMissing(cfg, s.active[k], t);
    PacketStep(cfg, codec, s1, ev, u, k);
    TwoEndings(cfg, codec, s, run, k, n);
    CallsAreEndings(cfg, codec, s, run, k, n);
    assert [GaveUp, GaveUp][..1] == [GaveUp] && [GaveUp][..0] == [];
  }

  lemma StillMissing(cfg: Settings, e: InFlight, now: int)
    requires Valid(cfg) && LastAttempt(cfg, e) && e.buffer != [] && !EndTest(e)
    ensures
      var e' := TakeBuffer(cfg, e, now);
      LastAttempt(cfg, e') && e'.buffer != [] && !EndTest(e') && e'.serial == e.serial && e.attempts < e'.attempts
  {
  }

  lemma TwoEndings(cfg: Settings, codec: Codec, s: State, run: seq<Timed>, k: Key, n: nat)
    requires Valid(cfg) && |run| == 2
    requires EndingAt(cfg, codec, s, run[0].event, run[0].now, k, n) == Some(GaveUp)
    requires
      var s1 := Step(cfg, codec, s, run[0].event, run[0].now);
      EndingAt(cfg, codec, s1, run[1].event, run[1].now, k, n) == Some(GaveUp)
    ensures Endings(cfg, codec, s, run, k, n) == [GaveUp, GaveUp]
  {
    hide EndingAt, Step;
    OneEvent(cfg, codec, s, run[0]);
    assert run[..1] == [run[0]] && run[..1][..0] == [];
    assert Endings(cfg, codec, s, run[..1], k, n) == [GaveUp];
  }

  /** A silent server: no call, though the entry may fail meanwhile. */
  lemma {:induction false} SilenceCallsNobody(cfg: Settings, codec: Codec, s: State, events: seq<Timed>, k: Key, n: nat)
    requires Valid(cfg) && k in s.active && Silence(events, k)
    ensures k in Run(cfg, codec, s, events).active && Calls(RunPushed(cfg, codec, s, events), k, n) == 0
  {
    hide Step, Pushed, Silence, Calls, Tick, Silent;
    if events == [] {
      NoCalls(k, n);
    } else {
      var front, last := events[..|events| - 1], events[|events| - 1];
      SilenceOfFront(events, k);
      SilenceCallsNobody(cfg, codec, s, front, k, n);
      var m := Run(cfg, codec, s, front);
      SilentSnoc(cfg, codec, s, front, last, k);
      CallsAdd(RunPushed(cfg, codec, s, front), Pushed(cfg, codec, m, last.event, last.now), k, n);
      LastIsSilent(events, k);
      SilentEventCalls(cfg, codec, m, last.event, last.now, k, n);
    }
  }

  lemma LastIsSilent(events: seq<Timed>, k: Key)
    requires events != [] && Silence(events, k)
    ensures Silent(events[|events| - 1].event, k)
  {
  }

  lemma SilentEventCalls(cfg: Settings, codec: Codec, s: State, ev: Event, now: int, k: Key, n: nat)
    requires Valid(cfg) && k in s.active && Silent(ev, k)
    ensures Calls(Pushed(cfg, codec, s, ev, now), k, n) == 0
  {
    hide Pushed, Step, Tick, KeyOf, ModelOf, Sends, Unpack;
    EventCalls(cfg, codec, s, ev, now, k, n);
    SilentStep(cfg, codec, s, ev, now, k);
    TickIsNoEnding(cfg, s.active[k], now);
  }

  lemma TickIsNoEnding(cfg: Settings, e: InFlight, now: int)
    requires Valid(cfg)
    ensures Tick(cfg, e, now).serial == e.serial
  {
  }

  /** So a request that nobody answers is failed without any call of its onReady. */
  lemma GivenUpWithoutACall(cfg: Settings, codec: Codec, before: seq<Timed>, k: Key, events: seq<Timed>, gap: nat,
                            n: nat)
    requires Valid(cfg) && Ordered(before) && LongestWait(cfg) + 2 * gap < TWO32
    requires k in Run(cfg, codec, EMPTY, before).active && Silence(events, k)
    ensures
      var s := Run(cfg, codec, EMPTY, before);
      var e, s' := s.active[k], Run(cfg, codec, s, events);
      && !e.failed && !Stuck(e) && LongEnough(cfg, e, ClockOf(before), events, gap) ==>
        k in s'.active && s'.active[k].failed && Calls(RunPushed(cfg, codec, s, events), k, n) == 0
  {
    hide Run, RunPushed, Silence, LongEnough, Calls;
    SilentServerIsGivenUp(cfg, codec, before, k, events, gap);
    SilenceCallsNobody(cfg, codec, Run(cfg, codec, EMPTY, before), events, k, n);
  }

  // ---- entries erased by another request's function ----

  predicate Erases(task: Task, k: Key) { (task.EraseAndFail? || task.Deliver?) && task.key == k }

  predicate Stale(task: Task, k: Key, n: nat) { Erases(task, k) && task.serial != n }

  // The entry of request n goes, and n's onReady is neither called by what erases it nor queued.
  predicate LostAt(cfg: Settings, codec: Codec, s: State, ev: Event, now: int, k: Key, n: nat)
    requires Valid(cfg)
  {
    && Owns(s, k, n) && !Owns(Step(cfg, codec, s, ev, now), k, n)
    && !(ev.RunTask? && Erases(ev.task, k) && ev.task.serial == n)
    && Calls(Pushed(cfg, codec, s, ev, now), k, n) == 0
  }

  lemma EntryKeepsSerial(cfg: Settings, codec: Codec, e: InFlight, ev: Event, now: int)
    requires Valid(cfg)
    ensures EntryAfter(cfg, codec, e, ev, now).serial == e.serial
  {
    hide JudgeChunk, EndTest, Unpack, SizesAccepted, CString, Resize;
  }

  lemma StepKeepsSerial(cfg: Settings, codec: Codec, s: State, ev: Event, now: int, k: Key, n: nat)
    requires Valid(cfg) && Owns(s, k, n)
    ensures
      var s' := Step(cfg, codec, s, ev, now);
      k in s'.active ==> Owns(s', k, n)
  {
    hide Step, EntryAfter;
    if k in Step(cfg, codec, s, ev, now).active {
      StepCases(cfg, codec, s, ev, now, k);
      EntryKeepsSerial(cfg, codec, s.active[k], ev, now);
    }
  }

  /** That happens exactly when a queued function of another request erases the entry. */
  lemma LostAtIff(cfg: Settings, codec: Codec, s: State, ev: Event, now: int, k: Key, n: nat)
    requires Valid(cfg)
    ensures LostAt(cfg, codec, s, ev, now, k, n)
       <==> Owns(s, k, n) && ev.RunTask? && ev.task in s.tasks && Stale(ev.task, k, n)
  {
    hide Pushed, JudgeChunk, EndTest, Unpack, KeyOf, ModelOf, Tick, EntryAfter, NewEntry, TakenAfter, Calls;
    EventCalls(cfg, codec, s, ev, now, k, n);
    if Owns(s, k, n) {
      StepKeepsSerial(cfg, codec, s, ev, now, k, n);
    }
  }

  predicate LostIn(cfg: Settings, codec: Codec, s: State, events: seq<Timed>, k: Key, n: nat)
    requires Valid(cfg)
  {
    exists i | 0 <= i < |events| ::
      LostAt(cfg, codec, Run(cfg, codec, s, events[..i]), events[i].event, events[i].now, k, n)
  }

  // A function of another request that erases k is queued, or an end packet of another request is
  // being worked on that will queue one.
  ghost predicate Hazard(cfg: Settings, codec: Codec, s: State, k: Key, n: nat) {
    || (exists task :: task in s.tasks && Stale(task, k, n))
    || (exists t :: t in s.taken && t.key == k && t.serial != n && Unpack(cfg, codec, t).Some?)
  }

  lemma PushedIsOwn(cfg: Settings, codec: Codec, s: State, ev: Event, now: int, k: Key, n: nat, task: Task)
    requires Owns(s, k, n) && !Hazard(cfg, codec, s, k, n) && task in Pushed(cfg, codec, s, ev, now)
    ensures !Stale(task, k, n)
  {
    hide JudgeChunk, EndTest, Unpack, KeyOf, ModelOf, Sends, Refuses;
    assert ev.CancelModel? && task in CallbackSet(OfModel(s.active, ev.modelId)) ==> task.CallbackFalse?;
    assert task in CallbackSet(s.active) ==> task.CallbackFalse?;
    assert task in SendSet(cfg, s.active, now) ==> task.SendRequest?;
  }

  lemma SafeStep(cfg: Settings, codec: Codec, s: State, ev: Event, now: int, k: Key, n: nat)
    requires Valid(cfg) && Owns(s, k, n) && !Hazard(cfg, codec, s, k, n)
    ensures !Hazard(cfg, codec, Step(cfg, codec, s, ev, now), k, n)
  {
    hide Pushed, ActiveAfter, EndTest, Unpack, KeyOf;
    var s' := Step(cfg, codec, s, ev, now);
    forall task | task in s'.tasks
      ensures !Stale(task, k, n)
    {
      if task in Pushed(cfg, codec, s, ev, now) {
        PushedIsOwn(cfg, codec, s, ev, now, k, n, task);
      } else {
        assert task in s.tasks;
      }
    }
    forall t | t in s'.taken
      ensures !(t.key == k && t.serial != n && Unpack(cfg, codec, t).Some?)
    {
      assert t in s.taken || (ev.Take? && Target(ev) in s.active && t == TakenFrom(Target(ev), s.active[Target(ev)]));
    }
  }

  // Serials in use are below the next one.
  predicate Spent(s: State, n: nat) { n < s.nextSerial }

  lemma SpentStays(cfg: Settings, codec: Codec, s: State, ev: Event, now: int, k: Key, n: nat)
    requires Valid(cfg) && Spent(s, n) && !Owns(s, k, n)
    ensures
      var s' := Step(cfg, codec, s, ev, now);
      Spent(s', n) && !Owns(s', k, n)
  {
    var s' := Step(cfg, codec, s, ev, now);
    assert s'.nextSerial >= s.nextSerial;
    hide Step, EntryAfter, NewEntry;
    if k in s'.active {
      StepCases(cfg, codec, s, ev, now, k);
      if k in s.active {
        EntryKeepsSerial(cfg, codec, s.active[k], ev, now);
      } else {
        FreshSerial(cfg, ev.sha, s.nextSerial, now);
      }
    }
  }

  lemma FreshSerial(cfg: Settings, sha: string, n: nat, now: int)
    requires Valid(cfg)
    ensures NewEntry(cfg, sha, n, now).serial == n
  {
  }

  lemma SerialsGrow(cfg: Settings, codec: Codec, s: State, ev: Event, now: int)
    requires Valid(cfg)
    ensures Step(cfg, codec, s, ev, now).nextSerial >= s.nextSerial
  {
    hide ActiveAfter, Pushed, TakenAfter;
  }

  // Safe until the entry goes; and it never comes back.
  lemma {:induction false} SafeRun(cfg: Settings, codec: Codec, s: State, events: seq<Timed>, k: Key, n: nat)
    requires Valid(cfg) && Owns(s, k, n) && Spent(s, n) && !Hazard(cfg, codec, s, k, n)
    ensures
      var s' := Run(cfg, codec, s, events);
      Spent(s', n) && (Owns(s', k, n) ==> !Hazard(cfg, codec, s', k, n))
  {
    hide Step, Hazard, Owns;
    if events != [] {
      var front, last := events[..|events| - 1], events[|events| - 1];
      SafeRun(cfg, codec, s, front, k, n);
      var m := Run(cfg, codec, s, front);
      SerialsGrow(cfg, codec, m, last.event, last.now);
      if Owns(m, k, n) {
        SafeStep(cfg, codec, m, last.event, last.now, k, n);
      } else {
        SpentStays(cfg, codec, m, last.event, last.now, k, n);
      }
    }
  }

  lemma SafeIsNotLost(cfg: Settings, codec: Codec, s: State, events: seq<Timed>, k: Key, n: nat)
    requires Valid(cfg) && Owns(s, k, n) && Spent(s, n) && !Hazard(cfg, codec, s, k, n)
    ensures !LostIn(cfg, codec, s, events, k, n)
  {
    hide Run, Step, LostAt;
    forall i | 0 <= i < |events|
      ensures !LostAt(cfg, codec, Run(cfg, codec, s, events[..i]), events[i].event, events[i].now, k, n)
    {
      SafeRun(cfg, codec, s, events[..i], k, n);
      LostAtIff(cfg, codec, Run(cfg, codec, s, events[..i]), events[i].event, events[i].now, k, n);
    }
  }

  lemma HazardCanLose(cfg: Settings, codec: Codec, s: State, k: Key, n: nat) returns (events: seq<Timed>)
    requires Valid(cfg) && Owns(s, k, n) && Hazard(cfg, codec, s, k, n)
    ensures LostIn(cfg, codec, s, events, k, n)
  {
    hide Run, Step, LostAt, EndTest, JudgeChunk;
    if task :| task in s.tasks && Stale(task, k, n) {
      events := [Timed(RunTask(task), 0)];
      LostAtIff(cfg, codec, s, RunTask(task), 0, k, n);
      assert events[..0] == [] && Run(cfg, codec, s, []) == s by { RunNothing(cfg, codec, s); }
      assert LostAt(cfg, codec, Run(cfg, codec, s, events[..0]), events[0].event, events[0].now, k, n);
    } else {
      var t :| t in s.taken && t.key == k && t.serial != n && Unpack(cfg, codec, t).Some?;
      var a, b := Timed(Finish(t, true), 0), Timed(RunTask(Deliver(k, t.serial)), 0);
      events := [a, b];
      var s1 := Step(cfg, codec, s, a.event, 0);
      FinishQueues(cfg, codec, s, t, k, n);
      LostAtIff(cfg, codec, s1, b.event, 0, k, n);
      assert events[..1] == [a];
      OneEvent(cfg, codec, s, a);
      assert LostAt(cfg, codec, Run(cfg, codec, s, events[..1]), events[1].event, events[1].now, k, n);
    }
  }

  lemma RunNothing(cfg: Settings, codec: Codec, s: State)
    requires Valid(cfg)
    ensures Run(cfg, codec, s, []) == s
  {
  }

  lemma FinishQueues(cfg: Settings, codec: Codec, s: State, t: Taken, k: Key, n: nat)
    requires Valid(cfg) && Owns(s, k, n) && t in s.taken && t.key == k && Unpack(cfg, codec, t).Some?
    ensures
      var s' := Step(cfg, codec, s, Finish(t, true), 0);
      Owns(s', k, n) && Deliver(k, t.serial) in s'.tasks
  {
    hide Unpack, ScheduleRetry;
  }

  /** The entry of a request in flight can go without a call of its own onReady if and only if there
      is a hazard: a queued function of another request that erases k, or an end packet of another
      request, with good data, between its two sections. */
  lemma CanBeLostIff(cfg: Settings, codec: Codec, s: State, k: Key, n: nat)
    requires Valid(cfg) && Owns(s, k, n) && Spent(s, n)
    ensures (exists events :: LostIn(cfg, codec, s, events, k, n)) <==> Hazard(cfg, codec, s, k, n)
  {
    hide LostIn, Hazard, Owns;
    if Hazard(cfg, codec, s, k, n) {
      var events := HazardCanLose(cfg, codec, s, k, n);
    } else {
      forall events: seq<Timed>
        ensures !LostIn(cfg, codec, s, events, k, n)
      {
        SafeIsNotLost(cfg, codec, s, events, k, n);
      }
    }
  }

  // ---- at the time of the request ----

  // Every serial in use is below the next one.
  predicate Numbered(s: State) {
    && (forall k :: k in s.active ==> s.active[k].serial < s.nextSerial)
    && (forall t :: t in s.taken ==> t.serial < s.nextSerial)
    && (forall task :: task in s.tasks && !task.SendRequest? ==> task.serial < s.nextSerial)
  }

  lemma PushedNumbered(cfg: Settings, codec: Codec, s: State, ev: Event, now: int, task: Task)
    requires Numbered(s) && task in Pushed(cfg, codec, s, ev, now) && !task.SendRequest?
    ensures task.serial < s.nextSerial
  {
    hide JudgeChunk, EndTest, Unpack, KeyOf, ModelOf, Sends, Refuses;
    assert task in SendSet(cfg, s.active, now) ==> task.SendRequest?;
    assert task in CallbackSet(s.active) ==> task.CallbackFalse? && task.serial < s.nextSerial;
    assert ev.CancelModel? && task in CallbackSet(OfModel(s.active, ev.modelId)) ==>
        task.CallbackFalse? && task.serial < s.nextSerial;
  }

  lemma StepNumbered(cfg: Settings, codec: Codec, s: State, ev: Event, now: int)
    requires Valid(cfg) && Numbered(s)
    ensures Numbered(Step(cfg, codec, s, ev, now))
  {
    hide Pushed, EndTest, Unpack, KeyOf, ActiveAfter;
    var s' := Step(cfg, codec, s, ev, now);
    forall task | task in s'.tasks && !task.SendRequest?
      ensures task.serial < s'.nextSerial
    {
      if task in Pushed(cfg, codec, s, ev, now) {
        PushedNumbered(cfg, codec, s, ev, now, task);
      } else {
        assert task in s.tasks;
      }
    }
    forall k | k in s'.active
      ensures s'.active[k].serial < s'.nextSerial
    {
      EntryNumbered(cfg, codec, s, ev, now, k);
    }
    forall t | t in s'.taken
      ensures t.serial < s'.nextSerial
    {
      assert t in s.taken || (ev.Take? && Target(ev) in s.active && t == TakenFrom(Target(ev), s.active[Target(ev)]));
    }
  }

  lemma EntryNumbered(cfg: Settings, codec: Codec, s: State, ev: Event, now: int, k: Key)
    requires Valid(cfg) && Numbered(s) && k in Step(cfg, codec, s, ev, now).active
    ensures
      var s' := Step(cfg, codec, s, ev, now);
      s'.active[k].serial < s'.nextSerial
  {
    SerialsGrow(cfg, codec, s, ev, now);
    StepCases(cfg, codec, s, ev, now, k);
    hide EntryAfter, Pushed, TakenAfter, KeyOf;
    if k in s.active {
      EntryKeepsSerial(cfg, codec, s.active[k], ev, now);
    }
  }

  lemma {:induction false} RunNumbered(cfg: Settings, codec: Codec, events: seq<Timed>)
    requires Valid(cfg)
    ensures Numbered(Run(cfg, codec, EMPTY, events))
  {
    hide Step, Numbered;
    if events != [] {
      var front, last := events[..|events| - 1], events[|events| - 1];
      RunNumbered(cfg, codec, front);
      StepNumbered(cfg, codec, Run(cfg, codec, EMPTY, front), last.event, last.now);
    } else {
      EmptyNumbered();
    }
  }

  lemma EmptyNumbered()
    ensures Numbered(EMPTY)
  {
  }

  // Left over from requests that are no longer in flight.
  ghost predicate Leftovers(cfg: Settings, codec: Codec, s: State, k: Key) {
    || (exists task :: task in s.tasks && Erases(task, k))
    || (exists t :: t in s.taken && t.key == k && Unpack(cfg, codec, t).Some?)
  }

  /** In every reachable state: an entry that a request creates can go without a call of its own
      onReady if and only if, at that moment, a function that erases k is still queued, or an end
      packet for k with good data is still between its two sections. */
  lemma NewEntryCanBeLostIff(cfg: Settings, codec: Codec, before: seq<Timed>, modelId: uint32, kind: byte, sha: string,
                             now: int)
    requires Valid(cfg) && KeyOf(modelId, kind) !in Run(cfg, codec, EMPTY, before).active
    ensures
      var s, k := Run(cfg, codec, EMPTY, before), KeyOf(modelId, kind);
      var s' := Step(cfg, codec, s, Request(modelId, kind, sha, false), now);
      && Owns(s', k, s.nextSerial)
      && ((exists events :: LostIn(cfg, codec, s', events, k, s.nextSerial)) <==> Leftovers(cfg, codec, s, k))
  {
    hide KeyOf, Run, LostIn;
    var s, k := Run(cfg, codec, EMPTY, before), KeyOf(modelId, kind);
    RunNumbered(cfg, codec, before);
    RequestStep(cfg, codec, s, modelId, kind, sha, now);
    var s' := Step(cfg, codec, s, Request(modelId, kind, sha, false), now);
    hide Step;
    assert Hazard(cfg, codec, s', k, s.nextSerial) <==> Leftovers(cfg, codec, s, k) by {
      SameHazard(cfg, codec, s, s', k);
    }
    CanBeLostIff(cfg, codec, s', k, s.nextSerial);
  }

  lemma RequestStep(cfg: Settings, codec: Codec, s: State, modelId: uint32, kind: byte, sha: string, now: int)
    requires Valid(cfg) && KeyOf(modelId, kind) !in s.active
    ensures
      var k, s' := KeyOf(modelId, kind), Step(cfg, codec, s, Request(modelId, kind, sha, false), now);
      && Owns(s', k, s.nextSerial) && s'.nextSerial == s.nextSerial + 1
      && s'.tasks == s.tasks + multiset{SendRequest(k)} && s'.taken == s.taken
      && s'.active == s.active[k := NewEntry(cfg, sha, s.nextSerial, now)]
  {
    hide KeyOf;
  }

  lemma SameHazard(cfg: Settings, codec: Codec, s: State, s': State, k: Key)
    requires Numbered(s) && s'.tasks == s.tasks + multiset{SendRequest(k)} && s'.taken == s.taken
    ensures Hazard(cfg, codec, s', k, s.nextSerial) <==> Leftovers(cfg, codec, s, k)
  {
    hide Unpack;
    if Hazard(cfg, codec, s', k, s.nextSerial) {
      if task :| task in s'.tasks && Stale(task, k, s.nextSerial) {
        assert task in s.tasks;
      }
    }
    if Leftovers(cfg, codec, s, k) {
      if task :| task in s.tasks && Erases(task, k) {
        assert task in s'.tasks && Stale(task, k, s.nextSerial);
      }
    }
  }

  // The server cancels a transfer; its model is destroyed and asked for again before the main thread
  // gets to the function that the cancel queued.
  const RACE: seq<Timed> :=
    [Timed(Request(1, 0, "", false), 0)] + [Timed(Cancel(1, 0), 1)] + [Timed(CancelModel(1), 2)]
    + [Timed(Request(1, 0, "", false), 3)]

  /** In that run the second request's entry is erased by the first one's function, and its own
      onReady is never called. */
  lemma AStaleFunctionTakesTheNewEntry(codec: Codec)
    ensures LostIn(DEFAULTS, codec, EMPTY, RACE + [Timed(RunTask(EraseAndFail(KeyOf(1, 0), 0)), 4)], KeyOf(1, 0), 1)
  {
    hide KeyOf, Run, Step, LostAt;
    var k := KeyOf(1, 0);
    assert ModelOf(k) == 1 by { KeyUnpacks(1, 0); }
    var p1 := [Timed(Request(1, 0, "", false), 0)];
    var p2 := p1 + [Timed(Cancel(1, 0), 1)];
    var p3 := p2 + [Timed(CancelModel(1), 2)];
    RunNothing(DEFAULTS, codec, EMPTY);
    assert [] + p1 == p1;
    RunSnoc(DEFAULTS, codec, EMPTY, [], Timed(Request(1, 0, "", false), 0));
    RunSnoc(DEFAULTS, codec, EMPTY, p1, Timed(Cancel(1, 0), 1));
    RunSnoc(DEFAULTS, codec, EMPTY, p2, Timed(CancelModel(1), 2));
    RunSnoc(DEFAULTS, codec, EMPTY, p3, Timed(Request(1, 0, "", false), 3));
    RequestStep(DEFAULTS, codec, EMPTY, 1, 0, "", 0);
    CancelQueues(DEFAULTS, codec, Run(DEFAULTS, codec, EMPTY, p1), 1, 0, 1, 0);
    ModelCancelled(DEFAULTS, codec, Run(DEFAULTS, codec, EMPTY, p2), 1, 0, 2);
    RequestStep(DEFAULTS, codec, Run(DEFAULTS, codec, EMPTY, p3), 1, 0, "", 3);
    var task := EraseAndFail(k, 0);
    var s := Run(DEFAULTS, codec, EMPTY, RACE);
    LostAtIff(DEFAULTS, codec, s, RunTask(task), 4, k, 1);
    var race := RACE + [Timed(RunTask(task), 4)];
    assert race[..|RACE|] == RACE && race[|RACE|] == Timed(RunTask(task), 4);
  }

  lemma CancelQueues(cfg: Settings, codec: Codec, s: State, modelId: uint32, kind: byte, now: int, n: nat)
    requires Valid(cfg) && Owns(s, KeyOf(modelId, kind), n)
    ensures
      var s' := Step(cfg, codec, s, Cancel(modelId, kind), now);
      EraseAndFail(KeyOf(modelId, kind), n) in s'.tasks && s'.nextSerial == s.nextSerial
  {
    hide KeyOf;
  }

  lemma ModelCancelled(cfg: Settings, codec: Codec, s: State, modelId: uint32, kind: byte, now: int)
    requires Valid(cfg) && ModelOf(KeyOf(modelId, kind)) == modelId
    ensures
      var s' := Step(cfg, codec, s, CancelModel(modelId), now);
      KeyOf(modelId, kind) !in s'.active && s.tasks <= s'.tasks && s'.nextSerial == s.nextSerial
  {
    hide KeyOf, ModelOf;
  }
}
