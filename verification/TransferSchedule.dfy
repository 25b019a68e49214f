/** What the retry bookkeeping of a file comes to: its number of attempts, whether it is given up, and
    when it is asked for again, told from the events alone; and that the client keeps to it. */
module TransferSchedule {
  import opened Common
  import opened TransferSettings
  import opened TransferEntry
  import opened TransferMachine
  import opened TransferBackoff
  import opened TransferTiming

  // For what the client waits: the time of a retry; an answer, since its last activity; or nothing.
  datatype Wait = RetryAt(time: int) | Since(time: int) | Nothing

  // attempts: this one included; r: doublings of the back-off; wait: while the file is not given up;
  // begun: a Begin was accepted in this attempt; open: and its data not yet taken by an end packet.
  datatype Chronicle = Chronicle(attempts: int, failed: bool, r: nat, wait: Wait, begun: bool, open: bool)

  function Fresh(now: int): Chronicle { Chronicle(1, false, 0, Since(now), false, false) }

  // A pass at this time finds something to do.
  predicate Due(cfg: Settings, wait: Wait, now: int) {
    match wait
    case RetryAt(time) => time <= now
    case Since(time) => (now - time) % TWO32 > cfg.retryResponseTimeoutMs
    case Nothing => false
  }

  predicate Asks(cfg: Settings, c: Chronicle, now: int) {
    !c.failed && c.attempts <= cfg.retryMaxAttempts && Due(cfg, c.wait, now)
  }

  // A packet that spoils the attempt.
  function Spoilt(cfg: Settings, c: Chronicle, now: int): Chronicle {
    if c.attempts >= cfg.retryMaxAttempts then c.(attempts := c.attempts + 1, failed := true)
    else Chronicle(c.attempts + 1, c.failed, c.r + 1, RetryAt(now + Backoff(cfg, c.r)), false, false)
  }

  function Passed(cfg: Settings, c: Chronicle, now: int): Chronicle {
    if c.failed then c
    else if c.attempts > cfg.retryMaxAttempts then c.(failed := true)
    else if !Due(cfg, c.wait, now) then c
    else if c.wait.RetryAt? then c.(wait := Since(now))
    else Chronicle(c.attempts + 1, false, c.r + 1, RetryAt(now + Backoff(cfg, c.r + 1)), false, false)
  }

  // `e` is asked only what it makes of the packet's data, not for any time or count.
  function After(cfg: Settings, codec: Codec, e: InFlight, c: Chronicle, ev: Event, now: int): Chronicle
    requires Valid(cfg)
  {
    if Refuses(cfg, codec, e, ev) then Spoilt(cfg, c, now)
    else match ev
      case Begin(_, _, compressed, uncompressed, chunks, _) =>
        if SizesAccepted(cfg, compressed, uncompressed, chunks)
        then Chronicle(c.attempts, c.failed, 0, Since(now), true, true)
        else c.(attempts := c.attempts + 1, wait := RetryAt(now + Backoff(cfg, c.r)))
      case Chunk(_, _, index, len, stream) =>
        if JudgeChunk(e, index, len, stream).Write?
        then c.(wait := if c.wait.Since? then Since(now) else Nothing) else c
      case Take(_, _) => c.(open := false)
      case Cancel(_, _) => c.(failed := true)
      case Retry(_, _) => Chronicle(1, false, 0, Nothing, false, false)
      case Worker => Passed(cfg, c, now)
      case _ => c
  }

  function RunChronicle(cfg: Settings, codec: Codec, k: Key, events: seq<Timed>): Chronicle
    requires Valid(cfg)
  {
    if events == [] then Fresh(0)
    else
      var front, ev, now := events[..|events| - 1], events[|events| - 1].event, events[|events| - 1].now;
      var s, c := Run(cfg, codec, EMPTY, front), RunChronicle(cfg, codec, k, front);
      if k !in s.active then Fresh(now)
      else if Touches(s, ev, k) then After(cfg, codec, s.active[k], c, ev, now)
      else if ev.RunTask? && ev.task.FinalFailure? && ev.task.key == k && ev.task in s.tasks then c.(failed := true)
      else c
  }

  // ---- the entry keeps to it ----

  predicate WaitsFor(e: InFlight, wait: Wait) {
    match wait
    case RetryAt(time) => e.nextRetry == Some(time) && e.status != Requesting && e.status != Downloading
    case Since(time) =>
      e.nextRetry == None && (e.status == Requesting || e.status == Downloading) && e.startTime == time
    case Nothing => Stuck(e)
  }

  predicate Keeps(cfg: Settings, e: InFlight, c: Chronicle) {
    && e.attempts == c.attempts && e.failed == c.failed && e.backoffMs == Backoff(cfg, c.r)
    && (!c.failed ==> WaitsFor(e, c.wait))
    && (e.buffer != [] <==> c.open) && (e.bitmap != [] <==> c.begun) && (!c.begun ==> e.receivedBytes == 0)
    && (c.open ==> c.begun)
  }

  lemma RefusalKeeps(cfg: Settings, e: InFlight, c: Chronicle, now: int)
    requires Valid(cfg) && Keeps(cfg, e, c)
    ensures Keeps(cfg, ScheduleRetry(cfg, e, now), Spoilt(cfg, c, now))
  {
    hide Backoff;
    BackoffDoubles(cfg, c.r);
  }

  lemma TickKeeps(cfg: Settings, e: InFlight, c: Chronicle, now: int)
    requires Valid(cfg) && Keeps(cfg, e, c)
    ensures Keeps(cfg, Tick(cfg, e, now), Passed(cfg, c, now))
    ensures Sends(cfg, e, now) <==> Asks(cfg, c, now)
  {
    hide Backoff;
    BackoffDoubles(cfg, c.r);
  }

  lemma BeginKeeps(cfg: Settings, codec: Codec, e: InFlight, c: Chronicle, ev: Event, now: int)
    requires Valid(cfg) && Keeps(cfg, e, c) && ev.Begin?
    ensures Keeps(cfg, EntryAfter(cfg, codec, e, ev, now), After(cfg, codec, e, c, ev, now))
  {
    hide Backoff, CString;
    BackoffDoubles(cfg, c.r);
    FirstBackoff(cfg);
  }

  lemma PacketKeeps(cfg: Settings, codec: Codec, e: InFlight, c: Chronicle, ev: Event, now: int)
    requires Valid(cfg) && Keeps(cfg, e, c)
    requires ev.Chunk? || ev.Take? || ev.Finish? || ev.Cancel? || ev.Retry?
    ensures Keeps(cfg, EntryAfter(cfg, codec, e, ev, now), After(cfg, codec, e, c, ev, now))
  {
    hide Backoff, EndTest, Unpack, ScheduleRetry, Spoilt;
    RefusalKeeps(cfg, e, c, now);
    FirstBackoff(cfg);
  }

  lemma EntryKeeps(cfg: Settings, codec: Codec, e: InFlight, c: Chronicle, ev: Event, now: int)
    requires Valid(cfg) && Keeps(cfg, e, c)
    ensures Keeps(cfg, EntryAfter(cfg, codec, e, ev, now), After(cfg, codec, e, c, ev, now))
  {
    hide Keeps, Tick, Passed;
    if ev.Worker? {
      TickKeeps(cfg, e, c, now);
    } else if ev.Begin? {
      hide EntryAfter, After;
      BeginKeeps(cfg, codec, e, c, ev, now);
    } else if ev.Chunk? || ev.Take? || ev.Finish? || ev.Cancel? || ev.Retry? {
      hide EntryAfter, After;
      PacketKeeps(cfg, codec, e, c, ev, now);
    }
  }

  lemma FreshKeeps(cfg: Settings, sha: string, serial: nat, now: int)
    requires Valid(cfg)
    ensures Keeps(cfg, NewEntry(cfg, sha, serial, now), Fresh(now))
  {
    FirstBackoff(cfg);
  }

  /** Over every run, with any other traffic, the client's record of a file is what its events tell:
      how many attempts were made, whether it is given up, the back-off, and what it waits for and until
      when; and its buffer is there from an accepted Begin to the end packet or the retry that ends it. */
  lemma {:induction false} RunKeeps(cfg: Settings, codec: Codec, k: Key, events: seq<Timed>)
    requires Valid(cfg)
    ensures
      var s := Run(cfg, codec, EMPTY, events);
      k in s.active ==> Keeps(cfg, s.active[k], RunChronicle(cfg, codec, k, events))
  {
    hide Step, EntryAfter, After, Keeps, NewEntry;
    if events != [] {
      var front, last := events[..|events| - 1], events[|events| - 1];
      RunKeeps(cfg, codec, k, front);
      StepKeeps(cfg, codec, Run(cfg, codec, EMPTY, front), k, RunChronicle(cfg, codec, k, front), last.event, last.now);
    }
  }

  lemma StepKeeps(cfg: Settings, codec: Codec, s: State, k: Key, c: Chronicle, ev: Event, now: int)
    requires Valid(cfg) && (k in s.active ==> Keeps(cfg, s.active[k], c))
    ensures
      var s' := Step(cfg, codec, s, ev, now);
      k in s'.active ==>
        Keeps(cfg, s'.active[k],
          if k !in s.active then Fresh(now)
          else if Touches(s, ev, k) then After(cfg, codec, s.active[k], c, ev, now)
          else if ev.RunTask? && ev.task.FinalFailure? && ev.task.key == k && ev.task in s.tasks then c.(failed := true)
          else c)
  {
    hide Step, EntryAfter, After, Keeps, NewEntry, Touches;
    if k in Step(cfg, codec, s, ev, now).active {
      if k !in s.active {
        StepCases(cfg, codec, s, ev, now, k);
        FreshKeeps(cfg, ev.sha, s.nextSerial, now);
      } else if Touches(s, ev, k) {
        PacketStep(cfg, codec, s, ev, now, k);
        EntryKeeps(cfg, codec, s.active[k], c, ev, now);
      } else {
        UntouchedStep(cfg, codec, s, ev, now, k);
        FailedKeeps(cfg, s.active[k], c);
      }
    }
  }

  lemma UntouchedStep(cfg: Settings, codec: Codec, s: State, ev: Event, now: int, k: Key)
    requires Valid(cfg) && k in s.active && !Touches(s, ev, k) && k in Step(cfg, codec, s, ev, now).active
    ensures Step(cfg, codec, s, ev, now).active[k] ==
      if ev.RunTask? && ev.task.FinalFailure? && ev.task.key == k && ev.task in s.tasks
      then s.active[k].(failed := true, status := Failed) else s.active[k]
  {
    hide EntryAfter, KeyOf, ModelOf, Pushed, TakenAfter, NewEntry;
  }

  lemma FailedKeeps(cfg: Settings, e: InFlight, c: Chronicle)
    requires Keeps(cfg, e, c)
    ensures Keeps(cfg, e.(failed := true, status := Failed), c.(failed := true))
  {
  }

  // ---- how many requests are sent ----

  // The event asks for the file: a new request, a retry by hand, or a pass that finds it due.
  predicate Requests(cfg: Settings, s: State, c: Chronicle, ev: Event, now: int, k: Key) {
    || (ev.Request? && !ev.cached && IsFor(ev, k) && k !in s.active)
    || (k in s.active && ev.Retry? && IsFor(ev, k))
    || (k in s.active && ev.Worker? && Asks(cfg, c, now))
  }

  function RunRequests(cfg: Settings, codec: Codec, k: Key, events: seq<Timed>): nat
    requires Valid(cfg)
  {
    if events == [] then 0
    else
      var front, last := events[..|events| - 1], events[|events| - 1];
      RunRequests(cfg, codec, k, front) +
      if Requests(cfg, Run(cfg, codec, EMPTY, front), RunChronicle(cfg, codec, k, front), last.event, last.now, k)
      then 1 else 0
  }

  lemma StepRequests(cfg: Settings, codec: Codec, s: State, c: Chronicle, ev: Event, now: int, k: Key)
    requires Valid(cfg) && (k in s.active ==> Keeps(cfg, s.active[k], c))
    ensures Pushed(cfg, codec, s, ev, now)[SendRequest(k)] == if Requests(cfg, s, c, ev, now, k) then 1 else 0
  {
    hide Sends, Asks, Keeps, JudgeChunk, EndTest, KeyOf, ModelOf, Unpack;
    if k in s.active {
      TickKeeps(cfg, s.active[k], c, now);
    }
    assert SendRequest(k) in SendSet(cfg, s.active, now) <==> k in s.active && Sends(cfg, s.active[k], now);
    assert SendRequest(k) !in CallbackSet(s.active);
    assert ev.CancelModel? ==> SendRequest(k) !in CallbackSet(OfModel(s.active, ev.modelId));
  }

  /** Over every run the requests queued for a file are exactly one for each request that starts a
      transfer, one for each retry by hand, and one for each pass that finds it due. */
  lemma {:induction false} RequestsAreCounted(cfg: Settings, codec: Codec, k: Key, events: seq<Timed>)
    requires Valid(cfg)
    ensures Asked(cfg, codec, EMPTY, events, k) == RunRequests(cfg, codec, k, events)
  {
    hide Run, Pushed, RunChronicle, Requests;
    if events != [] {
      var front, last := events[..|events| - 1], events[|events| - 1];
      RequestsAreCounted(cfg, codec, k, front);
      RunKeeps(cfg, codec, k, front);
      var s, c := Run(cfg, codec, EMPTY, front), RunChronicle(cfg, codec, k, front);
      StepRequests(cfg, codec, s, c, last.event, last.now, k);
    }
  }

  // ---- no request goes out too soon ----

  // No pass of this run finds the file due.
  predicate TooSoon(cfg: Settings, events: seq<Timed>, wait: Wait) {
    forall i | 0 <= i < |events| :: events[i].event.Worker? ==> !Due(cfg, wait, events[i].now)
  }

  lemma TooSoonOfFront(cfg: Settings, events: seq<Timed>, wait: Wait)
    requires events != [] && TooSoon(cfg, events, wait)
    ensures TooSoon(cfg, events[..|events| - 1], wait)
    ensures events[|events| - 1].event.Worker? ==> !Due(cfg, wait, events[|events| - 1].now)
  {
    hide Due;
    assert forall i | 0 <= i < |events| - 1 :: events[..|events| - 1][i] == events[i];
  }

  lemma NotDueTicksIdly(cfg: Settings, e: InFlight, c: Chronicle, now: int)
    requires Valid(cfg) && Keeps(cfg, e, c) && !c.failed && c.attempts <= cfg.retryMaxAttempts && !Due(cfg, c.wait, now)
    ensures Tick(cfg, e, now) == e
  {
    TickKeeps(cfg, e, c, now);
  }

  lemma {:induction false} WaitsPatiently(cfg: Settings, codec: Codec, s: State, k: Key, c: Chronicle,
                                          events: seq<Timed>)
    requires Valid(cfg) && k in s.active && Keeps(cfg, s.active[k], c)
    requires !c.failed && c.attempts <= cfg.retryMaxAttempts
    requires Silence(events, k) && TooSoon(cfg, events, c.wait)
    ensures
      var s' := Run(cfg, codec, s, events);
      k in s'.active && s'.active[k] == s.active[k] && Asked(cfg, codec, s, events, k) == 0
  {
    hide Step, Pushed, Silence, TooSoon, Keeps, Tick, Sends, Due;
    if events != [] {
      var front, last := events[..|events| - 1], events[|events| - 1];
      SilenceOfFront(events, k);
      TooSoonOfFront(cfg, events, c.wait);
      WaitsPatiently(cfg, codec, s, k, c, front);
      SilentSnoc(cfg, codec, s, front, last, k);
      if last.event.Worker? {
        NotDueTicksIdly(cfg, s.active[k], c, last.now);
        TickKeeps(cfg, s.active[k], c, last.now);
      }
    }
  }

  // The first pass that comes in time.
  lemma ThenAsks(cfg: Settings, codec: Codec, s: State, k: Key, c: Chronicle, events: seq<Timed>, now: int)
    requires Valid(cfg) && k in s.active && Keeps(cfg, s.active[k], c)
    requires !c.failed && c.attempts <= cfg.retryMaxAttempts
    requires Silence(events, k) && TooSoon(cfg, events, c.wait)
    ensures Asked(cfg, codec, s, events, k) == 0
    ensures Asked(cfg, codec, s, events + [Timed(Worker, now)], k) == if Due(cfg, c.wait, now) then 1 else 0
  {
    hide Run, RunPushed, Keeps, TooSoon, Due, Tick, Sends;
    WaitsPatiently(cfg, codec, s, k, c, events);
    SilentThenPass(events, k, now);
    SilentSnoc(cfg, codec, s, events, Timed(Worker, now), k);
    TickKeeps(cfg, s.active[k], c, now);
  }

  lemma SilentThenPass(events: seq<Timed>, k: Key, now: int)
    requires Silence(events, k)
    ensures Silence(events + [Timed(Worker, now)], k)
  {
  }

  /** In every reachable state of a file not given up: while the server is silent, passes that come too
      soon ask for nothing, and the first that does not asks once. Too soon is before the time of the
      retry, or within the response timeout of the last activity: the request sent, the Begin
      accepted or the chunk written last. */
  lemma NextRequestIsWhenDue(cfg: Settings, codec: Codec, before: seq<Timed>, k: Key, events: seq<Timed>, now: int)
    requires Valid(cfg) && k in Run(cfg, codec, EMPTY, before).active && Silence(events, k)
    requires
      var c := RunChronicle(cfg, codec, k, before);
      !c.failed && c.attempts <= cfg.retryMaxAttempts && TooSoon(cfg, events, c.wait)
    ensures
      var s, c := Run(cfg, codec, EMPTY, before), RunChronicle(cfg, codec, k, before);
      && Asked(cfg, codec, s, events, k) == 0
      && Asked(cfg, codec, s, events + [Timed(Worker, now)], k) == if Due(cfg, c.wait, now) then 1 else 0
  {
    hide Run, RunPushed, RunChronicle, Keeps, TooSoon, Due;
    RunKeeps(cfg, codec, k, before);
    ThenAsks(cfg, codec, Run(cfg, codec, EMPTY, before), k, RunChronicle(cfg, codec, k, before), events, now);
  }

  // Every pass of this run is before the given time.
  predicate PassesBefore(events: seq<Timed>, time: int) {
    forall i | 0 <= i < |events| :: events[i].event.Worker? ==> events[i].now < time
  }

  /** After a refused chunk, an end packet with chunks missing or data that fails its checks, short of
      the last attempt, the file is not asked for before min(initial * 2^r, max) have passed, r counting
      the doublings before; and the first pass from then on asks once. */
  lemma RetryBacksOff(cfg: Settings, codec: Codec, before: seq<Timed>, k: Key, ev: Event, t: int, events: seq<Timed>,
                      now: int)
    requires Valid(cfg) && k in Run(cfg, codec, EMPTY, before).active && Silence(events, k)
    requires
      var s := Run(cfg, codec, EMPTY, before);
      Touches(s, ev, k) && Refuses(cfg, codec, s.active[k], ev) && RetriesAgain(cfg, s.active[k]) && !s.active[k].failed
    requires PassesBefore(events, t + Backoff(cfg, RunDoublings(cfg, codec, k, before)))
    ensures
      var s1 := Step(cfg, codec, Run(cfg, codec, EMPTY, before), ev, t);
      var time := t + Backoff(cfg, RunDoublings(cfg, codec, k, before));
      && Asked(cfg, codec, s1, events, k) == 0
      && Asked(cfg, codec, s1, events + [Timed(Worker, now)], k) == if now >= time then 1 else 0
  {
    hide Run, RunPushed, RunChronicle, RunDoublings, Backoff, Step, Refuses, Silence, Touches;
    var s, c := Run(cfg, codec, EMPTY, before), RunChronicle(cfg, codec, k, before);
    RunKeeps(cfg, codec, k, before);
    BackoffClosedForm(cfg, codec, k, before);
    PacketStep(cfg, codec, s, ev, t, k);
    OnlyPacketsRefuse(cfg, codec, s.active[k], ev);
    EntryKeeps(cfg, codec, s.active[k], c, ev, t);
    var c1 := Spoilt(cfg, c, t);
    assert c1.wait == RetryAt(t + Backoff(cfg, RunDoublings(cfg, codec, k, before)));
    ThenAsks(cfg, codec, Step(cfg, codec, s, ev, t), k, c1, events, now);
  }

  lemma OnlyPacketsRefuse(cfg: Settings, codec: Codec, e: InFlight, ev: Event)
    ensures Refuses(cfg, codec, e, ev) ==> ev.Chunk? || ev.Take? || ev.Finish?
  {
  }

  // ---- one attempt, one Begin, one delivery ----

  /** Whatever state the file is in, an end packet without an accepted Begin in this attempt, or after
      another one has taken the data, does nothing. */
  lemma EndPacketNeedsABegin(cfg: Settings, codec: Codec, before: seq<Timed>, modelId: uint32, kind: byte, now: int)
    requires Valid(cfg) && !RunChronicle(cfg, codec, KeyOf(modelId, kind), before).open
    ensures
      var s := Run(cfg, codec, EMPTY, before);
      Step(cfg, codec, s, Take(modelId, kind), now) == s
  {
    hide Run, RunChronicle, KeyOf, ScheduleRetry;
    RunKeeps(cfg, codec, KeyOf(modelId, kind), before);
    var s, k := Run(cfg, codec, EMPTY, before), KeyOf(modelId, kind);
    assert k in s.active ==> s.active[k := s.active[k]] == s.active;
  }
}
