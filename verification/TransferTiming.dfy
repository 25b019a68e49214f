/** A server that is silent about one file: how many requests it is sent, when the client gives up,
    and when it waits for ever. Other files, and the main thread, may go on as they like. */
module TransferTiming {
  import opened Common
  import opened TransferSettings
  import opened TransferEntry
  import opened TransferMachine
  import opened TransferBackoff

  // ---- silence about k ----

  // No packet for k, no cancelling, and no queued function that looks k up. A request for k is a
  // matter of the client's own, and does nothing while k is in flight.
  predicate Silent(ev: Event, k: Key) {
    match ev
    case CancelAll => false
    case CancelModel(modelId) => modelId != ModelOf(k)
    case RunTask(task) => task.SendRequest? || task.CallbackFalse? || task.key != k
    case Worker => true
    case Request(_, _, _, _) => true
    case _ => Target(ev) != k
  }

  predicate Silence(events: seq<Timed>, k: Key) { forall i | 0 <= i < |events| :: Silent(events[i].event, k) }

  // Requests for k queued over a run, sent since or not.
  function Asked(cfg: Settings, codec: Codec, s: State, events: seq<Timed>, k: Key): nat
    requires Valid(cfg)
  {
    RunPushed(cfg, codec, s, events)[SendRequest(k)]
  }

  lemma SilentStep(cfg: Settings, codec: Codec, s: State, ev: Event, now: int, k: Key)
    requires Valid(cfg) && k in s.active && Silent(ev, k)
    ensures
      var s', e := Step(cfg, codec, s, ev, now), s.active[k];
      && k in s'.active && s'.active[k] == (if ev.Worker? then Tick(cfg, e, now) else e)
      && Pushed(cfg, codec, s, ev, now)[SendRequest(k)] == if ev.Worker? && Sends(cfg, e, now) then 1 else 0
  {
    hide Tick, Sends, EntryAfter, JudgeChunk, EndTest, KeyOf, ModelOf, SendSet, CallbackSet, NewEntry, Unpack,
         TakenAfter;
    SilentPushes(cfg, codec, s, ev, now, k);
  }

  lemma SilentPushes(cfg: Settings, codec: Codec, s: State, ev: Event, now: int, k: Key)
    requires k in s.active && Silent(ev, k)
    ensures Pushed(cfg, codec, s, ev, now)[SendRequest(k)]
         == if ev.Worker? && Sends(cfg, s.active[k], now) then 1 else 0
  {
    hide Sends, JudgeChunk, EndTest, KeyOf, ModelOf, Unpack;
    assert SendRequest(k) in SendSet(cfg, s.active, now) <==> Sends(cfg, s.active[k], now);
    assert SendRequest(k) !in CallbackSet(s.active);
    assert ev.CancelModel? ==> SendRequest(k) !in CallbackSet(OfModel(s.active, ev.modelId));
  }

  // One more event of a silent run.
  lemma SilentSnoc(cfg: Settings, codec: Codec, s: State, front: seq<Timed>, last: Timed, k: Key)
    requires Valid(cfg) && Silence(front + [last], k) && k in Run(cfg, codec, s, front).active
    ensures Silence(front, k)
    ensures
      var e, s' := Run(cfg, codec, s, front).active[k], Run(cfg, codec, s, front + [last]);
      && k in s'.active && s'.active[k] == (if last.event.Worker? then Tick(cfg, e, last.now) else e)
      && Asked(cfg, codec, s, front + [last], k)
           == Asked(cfg, codec, s, front, k) + if last.event.Worker? && Sends(cfg, e, last.now) then 1 else 0
  {
    hide Step, Pushed, Run, RunPushed, Silent, Tick, Sends;
    forall i | 0 <= i < |front|
      ensures Silent(front[i].event, k)
    {
      assert (front + [last])[i] == front[i];
    }
    assert (front + [last])[|front|] == last;
    RunSnoc(cfg, codec, s, front, last);
    SilentStep(cfg, codec, Run(cfg, codec, s, front), last.event, last.now, k);
  }

  lemma SilenceOfFront(events: seq<Timed>, k: Key)
    requires events != [] && Silence(events, k)
    ensures events == events[..|events| - 1] + [events[|events| - 1]] && Silence(events[..|events| - 1], k)
  {
    hide Silent;
    assert forall i | 0 <= i < |events| - 1 :: events[..|events| - 1][i] == events[i];
  }

  // ---- how often it is asked ----

  // How many more requests an entry causes while the server is silent.
  function Left(cfg: Settings, e: InFlight): int {
    if e.failed || e.attempts > cfg.retryMaxAttempts then 0
    else 2 * (cfg.retryMaxAttempts - e.attempts) + if e.nextRetry.Some? then 2 else 1
  }

  // The entry is waiting for an answer, or for its next retry time.
  predicate Waiting(cfg: Settings, e: InFlight) {
    && e.attempts >= 1
    && 0 < e.backoffMs <= cfg.retryMaxBackoffMs
    && (e.failed
        || (e.nextRetry.None? && (e.status == Requesting || e.status == Downloading))
        || (e.nextRetry.Some? && e.status != Requesting && e.status != Downloading))
  }

  predicate WaitingFor(cfg: Settings, s: State, k: Key) { k in s.active && Waiting(cfg, s.active[k]) }

  lemma TickSpendsOne(cfg: Settings, e: InFlight, now: int)
    requires Valid(cfg) && Waiting(cfg, e)
    ensures
      var e' := Tick(cfg, e, now);
      Waiting(cfg, e') && Left(cfg, e') == Left(cfg, e) - (if Sends(cfg, e, now) then 1 else 0)
  {
  }

  /** Requests queued so far plus requests still to come is constant while the server is silent. */
  lemma {:induction false} RequestsAreConserved(cfg: Settings, codec: Codec, s: State, k: Key, events: seq<Timed>)
    requires Valid(cfg) && WaitingFor(cfg, s, k) && Silence(events, k)
    ensures
      var s' := Run(cfg, codec, s, events);
      WaitingFor(cfg, s', k) && Asked(cfg, codec, s, events, k) + Left(cfg, s'.active[k]) == Left(cfg, s.active[k])
  {
    hide Step, Pushed, Tick, Sends, Left, Waiting, Silence;
    if events != [] {
      var front, last := events[..|events| - 1], events[|events| - 1];
      SilenceOfFront(events, k);
      RequestsAreConserved(cfg, codec, s, k, front);
      SilentSnoc(cfg, codec, s, front, last, k);
      TickSpendsOne(cfg, Run(cfg, codec, s, front).active[k], last.now);
    }
  }

  /** After a fresh request, whatever the clock does, the worker asks at most
      2 * retryMaxAttempts - 1 more times. */
  lemma SilentServerIsAskedBoundedly(cfg: Settings, codec: Codec, s: State, k: Key, sha: string, serial: nat,
                                     start: int, events: seq<Timed>)
    requires Valid(cfg) && k in s.active && s.active[k] == NewEntry(cfg, sha, serial, start) && Silence(events, k)
    ensures Asked(cfg, codec, s, events, k) <= 2 * cfg.retryMaxAttempts - 1
  {
    hide Run, RunPushed, Silence;
    RequestsAreConserved(cfg, codec, s, k, events);
  }

  /** A failed entry stays as it is, and is not asked for again, however long the silence. */
  lemma {:induction false} FailedStaysSilent(cfg: Settings, codec: Codec, s: State, k: Key, events: seq<Timed>)
    requires Valid(cfg) && k in s.active && s.active[k].failed && Silence(events, k)
    ensures
      var s' := Run(cfg, codec, s, events);
      k in s'.active && s'.active[k] == s.active[k] && Asked(cfg, codec, s, events, k) == 0
  {
    hide Step, Pushed, Silence;
    if events != [] {
      var front, last := events[..|events| - 1], events[|events| - 1];
      SilenceOfFront(events, k);
      FailedStaysSilent(cfg, codec, s, k, front);
      SilentSnoc(cfg, codec, s, front, last, k);
    }
  }

  // ---- and for how long ----

  // No wait of a waiting entry lasts longer than this.
  function LongestWait(cfg: Settings): int {
    Max(cfg.retryResponseTimeoutMs + 1, cfg.retryMaxBackoffMs)
  }

  function LastPass(start: int, events: seq<Timed>): int {
    if events == [] then start
    else
      var last := events[|events| - 1];
      if last.event.Worker? then last.now else LastPass(start, events[..|events| - 1])
  }

  // The worker's clock never goes back, and two passes are at most gap apart.
  predicate Regular(start: int, events: seq<Timed>, gap: nat) {
    events != [] ==>
      var front, last := events[..|events| - 1], events[|events| - 1];
      && Regular(start, front, gap)
      && (last.event.Worker? ==> 0 <= last.now - LastPass(start, front) <= gap)
  }

  // b: when the silence or the present wait began; clock: the last pass.
  predicate OnSchedule(cfg: Settings, e: InFlight, b: int, clock: int, gap: nat) {
    && b <= clock
    && (!e.failed && e.attempts > cfg.retryMaxAttempts ==> clock == b)
    && (!e.failed && e.nextRetry.Some? ==>
          e.nextRetry.value <= b + LongestWait(cfg) && (clock == b || clock < e.nextRetry.value))
    && (!e.failed && e.nextRetry.None? && clock > b ==>
          clock - b - gap <= Elapsed(e, clock) <= cfg.retryResponseTimeoutMs)
  }

  lemma TickOnSchedule(cfg: Settings, e: InFlight, b: int, clock: int, now: int, gap: nat)
    requires Valid(cfg) && Waiting(cfg, e) && LongestWait(cfg) + 2 * gap < TWO32
    requires OnSchedule(cfg, e, b, clock, gap) && 0 <= now - clock <= gap
    ensures Sends(cfg, e, now) ==>
      now <= b + LongestWait(cfg) + 2 * gap && OnSchedule(cfg, Tick(cfg, e, now), now, now, gap)
    ensures !Sends(cfg, e, now) ==> OnSchedule(cfg, Tick(cfg, e, now), b, now, gap)
  {
    if !e.failed && e.attempts <= cfg.retryMaxAttempts {
      if e.nextRetry.None? {
        ElapsedGrows(e, clock, now);
      }
      if Sends(cfg, e, now) {
        assert Elapsed(Tick(cfg, e, now), now) == 0;
      }
    }
  }

  // Between two readings the elapsed time grows by their distance, or wraps.
  lemma ElapsedGrows(e: InFlight, clock: int, now: int)
    requires clock <= now
    ensures
      var sum := Elapsed(e, clock) + (now - clock);
      Elapsed(e, now) == sum % TWO32 && (sum < TWO32 ==> Elapsed(e, now) == sum)
  {
  }

  lemma {:induction false} RunOnSchedule(cfg: Settings, codec: Codec, s: State, k: Key, start: int, events: seq<Timed>,
                                         gap: nat) returns (b: int)
    requires Valid(cfg) && WaitingFor(cfg, s, k) && Silence(events, k)
    requires s.active[k].nextRetry.Some? ==> s.active[k].nextRetry.value <= start + LongestWait(cfg)
    requires !s.active[k].failed
    requires Regular(start, events, gap) && LongestWait(cfg) + 2 * gap < TWO32
    ensures
      var s' := Run(cfg, codec, s, events);
      && WaitingFor(cfg, s', k)
      && b <= start + (Left(cfg, s.active[k]) - Left(cfg, s'.active[k])) * (LongestWait(cfg) + 2 * gap)
      && OnSchedule(cfg, s'.active[k], b, LastPass(start, events), gap)
      && Asked(cfg, codec, s, events, k) == Left(cfg, s.active[k]) - Left(cfg, s'.active[k])
  {
    hide Step, Pushed, Tick, Sends, Left, Waiting, OnSchedule, Silence;
    b := start;
    if events != [] {
      var front, last := events[..|events| - 1], events[|events| - 1];
      SilenceOfFront(events, k);
      b := RunOnSchedule(cfg, codec, s, k, start, front, gap);
      SilentSnoc(cfg, codec, s, front, last, k);
      if last.event.Worker? {
        var e := Run(cfg, codec, s, front).active[k];
        TickSpendsOne(cfg, e, last.now);
        TickOnSchedule(cfg, e, b, LastPass(start, front), last.now, gap);
        if Sends(cfg, e, last.now) {
          OneMoreWait(Left(cfg, s.active[k]) - Left(cfg, e), LongestWait(cfg) + 2 * gap);
          b := last.now;
        }
      }
    } else {
      StartsOnSchedule(cfg, s.active[k], start, gap);
    }
  }

  lemma StartsOnSchedule(cfg: Settings, e: InFlight, start: int, gap: nat)
    requires e.nextRetry.Some? ==> e.nextRetry.value <= start + LongestWait(cfg)
    ensures OnSchedule(cfg, e, start, start, gap)
  {
  }

  lemma OneMoreWait(n: int, w: int)
    ensures (n + 1) * w == n * w + w
  {
  }

  lemma Monotone(a: int, b: int, w: nat)
    requires a <= b
    ensures a * w <= b * w
  {
  }

  lemma WaitingIsGivenUp(cfg: Settings, codec: Codec, s: State, k: Key, start: int, events: seq<Timed>, gap: nat)
    requires Valid(cfg) && WaitingFor(cfg, s, k) && Silence(events, k) && !s.active[k].failed
    requires s.active[k].nextRetry.Some? ==> s.active[k].nextRetry.value <= start + LongestWait(cfg)
    requires Regular(start, events, gap) && LongestWait(cfg) + 2 * gap < TWO32
    requires LastPass(start, events) > start + (Left(cfg, s.active[k]) + 1) * (LongestWait(cfg) + 2 * gap)
    ensures
      var s' := Run(cfg, codec, s, events);
      && k in s'.active && s'.active[k].failed
      && Asked(cfg, codec, s, events, k) == Left(cfg, s.active[k])
  {
    hide Run, RunPushed, Regular, Silence;
    var b := RunOnSchedule(cfg, codec, s, k, start, events, gap);
    var e, e', w := s.active[k], Run(cfg, codec, s, events).active[k], LongestWait(cfg) + 2 * gap;
    Monotone(Left(cfg, e) - Left(cfg, e'), Left(cfg, e), w);
    OneMoreWait(Left(cfg, e), w);
  }

  // ---- entries that wait for ever ----

  // Neither a retry nor a timeout is pending.
  predicate Stuck(e: InFlight) { e.nextRetry.None? && e.status != Requesting && e.status != Downloading }

  /** An entry that is not failed is left alone by every pass exactly when it has neither a retry
      time nor one of the two statuses that time out. */
  lemma WaitsForEverIff(cfg: Settings, e: InFlight)
    requires Valid(cfg) && !e.failed && e.attempts <= cfg.retryMaxAttempts
    ensures (forall now: int :: Tick(cfg, e, now) == e) <==> Stuck(e)
  {
    if e.nextRetry.Some? {
      assert Tick(cfg, e, e.nextRetry.value) != e;
    } else if !Stuck(e) {
      var now := e.startTime + cfg.retryResponseTimeoutMs + 1;
      assert Elapsed(e, now) == cfg.retryResponseTimeoutMs + 1;
      assert Tick(cfg, e, now) != e;
    }
  }

  lemma {:induction false} StuckStays(cfg: Settings, codec: Codec, s: State, k: Key, events: seq<Timed>)
    requires Valid(cfg) && k in s.active && Stuck(s.active[k]) && Silence(events, k)
    requires s.active[k].attempts <= cfg.retryMaxAttempts
    ensures
      var s' := Run(cfg, codec, s, events);
      k in s'.active && s'.active[k] == s.active[k] && Asked(cfg, codec, s, events, k) == 0
  {
    hide Step, Pushed, Silence;
    if events != [] {
      var front, last := events[..|events| - 1], events[|events| - 1];
      SilenceOfFront(events, k);
      StuckStays(cfg, codec, s, k, front);
      SilentSnoc(cfg, codec, s, front, last, k);
    }
  }

  // Past its attempts, a stuck entry is failed by the next pass.
  lemma {:induction false} SpentIsFailed(cfg: Settings, codec: Codec, s: State, k: Key, start: int, events: seq<Timed>)
    requires Valid(cfg) && k in s.active && !s.active[k].failed && Silence(events, k)
    requires s.active[k].attempts > cfg.retryMaxAttempts
    ensures
      var s' := Run(cfg, codec, s, events);
      && k in s'.active && s'.active[k].attempts > cfg.retryMaxAttempts
      && (s'.active[k].failed || (s'.active[k] == s.active[k] && LastPass(start, events) == start))
      && Asked(cfg, codec, s, events, k) == 0
  {
    hide Step, Pushed, Silence;
    if events != [] {
      var front, last := events[..|events| - 1], events[|events| - 1];
      SilenceOfFront(events, k);
      SpentIsFailed(cfg, codec, s, k, start, front);
      SilentSnoc(cfg, codec, s, front, last, k);
    }
  }

  // ---- which runs lead there ----

  // What has become of the entry: it waits as it should; it was retried by hand; a Begin was
  // rejected while it was downloading; or a chunk was written after that.
  datatype Plight = Fine | ByHand | Interrupted | Stranded

  function PlightAfter(cfg: Settings, codec: Codec, e: InFlight, p: Plight, ev: Event, now: int): Plight
    requires Valid(cfg)
  {
    if Refuses(cfg, codec, e, ev) then if LastAttempt(cfg, e) then p else Fine
    else match ev
      case Begin(_, _, compressed, uncompressed, chunks, _) =>
        if !SizesAccepted(cfg, compressed, uncompressed, chunks) && e.buffer != [] then Interrupted else Fine
      case Chunk(_, _, index, len, stream) =>
        if JudgeChunk(e, index, len, stream).Write? && p == Interrupted then Stranded else p
      case Retry(_, _) => ByHand
      case Worker => if Sends(cfg, e, now) then Fine else p
      case _ => p
  }

  function RunPlight(cfg: Settings, codec: Codec, k: Key, events: seq<Timed>): Plight
    requires Valid(cfg)
  {
    if events == [] then Fine
    else
      var front, last := events[..|events| - 1], events[|events| - 1];
      var s, p := Run(cfg, codec, EMPTY, front), RunPlight(cfg, codec, k, front);
      if k !in s.active then Fine
      else if Touches(s, last.event, k) then PlightAfter(cfg, codec, s.active[k], p, last.event, last.now)
      else p
  }

  predicate StandsAs(e: InFlight, p: Plight) {
    && e.attempts >= 1
    && (e.failed ||
        (match p
         case Fine =>
           && (e.nextRetry.None? <==> e.status == Requesting || e.status == Downloading)
           && (e.buffer != [] ==> e.nextRetry.None?)
         case ByHand => Stuck(e) && e.buffer == []
         case Interrupted => e.nextRetry.Some? && e.status == RejectedSize
         case Stranded => Stuck(e) && e.status == RejectedSize))
  }

  lemma EntryStands(cfg: Settings, codec: Codec, e: InFlight, p: Plight, ev: Event, now: int)
    requires Valid(cfg) && StandsAs(e, p)
    ensures StandsAs(EntryAfter(cfg, codec, e, ev, now), PlightAfter(cfg, codec, e, p, ev, now))
  {
    hide JudgeChunk, EndTest, CString, Resize, Elapsed, Unpack, SizesAccepted;
    DroppedWithoutABuffer(e, ev);
  }

  lemma DroppedWithoutABuffer(e: InFlight, ev: Event)
    ensures e.buffer == [] && ev.Chunk? ==> JudgeChunk(e, ev.index, ev.len, ev.stream).Drop?
    ensures e.buffer == [] ==> !EndTest(e)
  {
  }

  lemma {:induction false} RunStands(cfg: Settings, codec: Codec, k: Key, events: seq<Timed>)
    requires Valid(cfg)
    ensures
      var s := Run(cfg, codec, EMPTY, events);
      k in s.active ==> StandsAs(s.active[k], RunPlight(cfg, codec, k, events))
  {
    hide Step, EntryAfter, PlightAfter, StandsAs;
    if events != [] {
      var front, last := events[..|events| - 1], events[|events| - 1];
      RunStands(cfg, codec, k, front);
      var s := Run(cfg, codec, EMPTY, front);
      if k in Step(cfg, codec, s, last.event, last.now).active {
        StepCases(cfg, codec, s, last.event, last.now, k);
        if k in s.active {
          FailedStands(s.active[k], RunPlight(cfg, codec, k, front));
          if Touches(s, last.event, k) {
            PacketStep(cfg, codec, s, last.event, last.now, k);
            EntryStands(cfg, codec, s.active[k], RunPlight(cfg, codec, k, front), last.event, last.now);
          }
        } else {
          FreshStands(cfg, last.event.sha, s.nextSerial, last.now);
        }
      }
    }
  }

  lemma FailedStands(e: InFlight, p: Plight)
    requires StandsAs(e, p)
    ensures StandsAs(e.(failed := true, status := Failed), p)
  {
  }

  lemma FreshStands(cfg: Settings, sha: string, serial: nat, now: int)
    requires Valid(cfg)
    ensures StandsAs(NewEntry(cfg, sha, serial, now), Fine)
  {
  }

  /** In every run, an entry that is not failed is stuck exactly when it was retried by hand, or
      lost its wait to a Begin rejected in mid-download and then got a chunk, with no accepted Begin,
      retry or timeout since. */
  lemma StuckIff(cfg: Settings, codec: Codec, k: Key, events: seq<Timed>)
    requires Valid(cfg)
    ensures
      var s, p := Run(cfg, codec, EMPTY, events), RunPlight(cfg, codec, k, events);
      k in s.active && !s.active[k].failed ==> (Stuck(s.active[k]) <==> p == ByHand || p == Stranded)
  {
    hide Run, RunPlight;
    RunStands(cfg, codec, k, events);
  }

  // Neither a retry by hand nor a rejected Begin for k.
  predicate Undisturbed(cfg: Settings, events: seq<Timed>, k: Key) {
    forall i | 0 <= i < |events| && IsFor(events[i].event, k) ::
      var ev := events[i].event;
      !ev.Retry? && (ev.Begin? ==> SizesAccepted(cfg, ev.compressed, ev.uncompressed, ev.chunks))
  }

  lemma {:induction false} UndisturbedIsFine(cfg: Settings, codec: Codec, k: Key, events: seq<Timed>)
    requires Valid(cfg) && Undisturbed(cfg, events, k)
    ensures RunPlight(cfg, codec, k, events) == Fine
  {
    hide Run, Refuses, JudgeChunk, Sends, SizesAccepted, IsFor;
    if events != [] {
      var front, last := events[..|events| - 1], events[|events| - 1];
      forall i | 0 <= i < |front| && IsFor(front[i].event, k)
        ensures
          var ev := front[i].event;
          !ev.Retry? && (ev.Begin? ==> SizesAccepted(cfg, ev.compressed, ev.uncompressed, ev.chunks))
      {
        assert front[i] == events[i];
      }
      UndisturbedIsFine(cfg, codec, k, front);
    }
  }

  /** So without those two packets the entry of k waits for something in every reachable state. */
  lemma UndisturbedIsWaiting(cfg: Settings, codec: Codec, k: Key, events: seq<Timed>)
    requires Valid(cfg) && Undisturbed(cfg, events, k)
    ensures
      var s := Run(cfg, codec, EMPTY, events);
      k in s.active ==> Waiting(cfg, s.active[k])
  {
    hide Run, RunPlight, Undisturbed, Backoff;
    UndisturbedIsFine(cfg, codec, k, events);
    RunStands(cfg, codec, k, events);
    BackoffInRange(cfg, codec, k, events);
  }

  lemma BackoffInRange(cfg: Settings, codec: Codec, k: Key, events: seq<Timed>)
    requires Valid(cfg)
    ensures
      var s := Run(cfg, codec, EMPTY, events);
      k in s.active ==> 0 < s.active[k].backoffMs <= cfg.retryMaxBackoffMs
  {
    hide Run, RunDoublings;
    BackoffClosedForm(cfg, codec, k, events);
    BackoffDoubles(cfg, RunDoublings(cfg, codec, k, events));
  }

  // ---- the clock of a run ----

  // Handlers and passes read a clock that does not go back.
  predicate Ordered(events: seq<Timed>) {
    forall i, j | 0 <= i < j < |events| :: events[i].now <= events[j].now
  }

  function ClockOf(events: seq<Timed>): int { if events == [] then 0 else events[|events| - 1].now }

  predicate Timely(cfg: Settings, e: InFlight, clock: int) {
    e.nextRetry.Some? ==> e.nextRetry.value <= clock + LongestWait(cfg)
  }

  lemma EntryTimely(cfg: Settings, codec: Codec, e: InFlight, clock: int, ev: Event, now: int)
    requires Valid(cfg) && Timely(cfg, e, clock) && clock <= now && 0 < e.backoffMs <= cfg.retryMaxBackoffMs
    ensures Timely(cfg, EntryAfter(cfg, codec, e, ev, now), now)
  {
    hide JudgeChunk, EndTest, CString, Resize, Elapsed, Unpack, SizesAccepted;
  }

  lemma {:induction false} RunTimely(cfg: Settings, codec: Codec, k: Key, events: seq<Timed>)
    requires Valid(cfg) && Ordered(events)
    ensures
      var s := Run(cfg, codec, EMPTY, events);
      k in s.active ==> Timely(cfg, s.active[k], ClockOf(events))
  {
    hide Step, EntryAfter, NewEntry;
    if events != [] {
      var front, last := events[..|events| - 1], events[|events| - 1];
      assert Ordered(front) by {
        assert forall i | 0 <= i < |front| :: front[i] == events[i];
      }
      RunTimely(cfg, codec, k, front);
      BackoffInRange(cfg, codec, k, front);
      var s := Run(cfg, codec, EMPTY, front);
      assert front != [] ==> front[|front| - 1] == events[|front| - 1];
      if k in Step(cfg, codec, s, last.event, last.now).active {
        StepCases(cfg, codec, s, last.event, last.now, k);
        if k in s.active {
          SomethingHappened(front, codec, cfg, k);
          EntryTimely(cfg, codec, s.active[k], ClockOf(front), last.event, last.now);
        } else {
          FreshTimely(cfg, last.event.sha, s.nextSerial, last.now);
        }
      }
    }
  }

  lemma FreshTimely(cfg: Settings, sha: string, serial: nat, now: int)
    requires Valid(cfg)
    ensures Timely(cfg, NewEntry(cfg, sha, serial, now), now)
  {
  }

  lemma SomethingHappened(events: seq<Timed>, codec: Codec, cfg: Settings, k: Key)
    requires Valid(cfg) && k in Run(cfg, codec, EMPTY, events).active
    ensures events != []
  {
  }

  // ---- the whole story ----

  // Long enough for every request left, with passes at most gap apart.
  predicate LongEnough(cfg: Settings, e: InFlight, start: int, events: seq<Timed>, gap: nat) {
    && Regular(start, events, gap)
    && LastPass(start, events) > start + (Left(cfg, e) + 1) * (LongestWait(cfg) + 2 * gap)
  }

  /** Whatever happened before, if the server falls silent about k and the worker's passes keep
      coming, the entry is given up exactly when it is not stuck within its attempts: the worker
      asks exactly as often as the entry has requests left, and then fails it. A stuck entry is
      neither asked for nor failed. */
  lemma SilentServerIsGivenUp(cfg: Settings, codec: Codec, before: seq<Timed>, k: Key, events: seq<Timed>, gap: nat)
    requires Valid(cfg) && Ordered(before) && LongestWait(cfg) + 2 * gap < TWO32
    requires k in Run(cfg, codec, EMPTY, before).active && Silence(events, k)
    ensures
      var s := Run(cfg, codec, EMPTY, before);
      var e, s' := s.active[k], Run(cfg, codec, s, events);
      !e.failed && LongEnough(cfg, e, ClockOf(before), events, gap) ==>
        && k in s'.active
        && (s'.active[k].failed <==> !(Stuck(e) && e.attempts <= cfg.retryMaxAttempts))
        && Asked(cfg, codec, s, events, k) == if Stuck(e) then 0 else Left(cfg, e)
  {
    hide Run, RunPushed, Silence, Regular, LastPass;
    var s, start := Run(cfg, codec, EMPTY, before), ClockOf(before);
    var e := s.active[k];
    if !e.failed && LongEnough(cfg, e, start, events, gap) {
      Monotone(0, Left(cfg, e) + 1, LongestWait(cfg) + 2 * gap);
      if e.attempts > cfg.retryMaxAttempts {
        SpentIsFailed(cfg, codec, s, k, start, events);
      } else if Stuck(e) {
        StuckStays(cfg, codec, s, k, events);
      } else {
        NotStuckIsWaiting(cfg, codec, k, before);
        RunTimely(cfg, codec, k, before);
        WaitingIsGivenUp(cfg, codec, s, k, start, events, gap);
      }
    }
  }

  lemma NotStuckIsWaiting(cfg: Settings, codec: Codec, k: Key, events: seq<Timed>)
    requires Valid(cfg)
    ensures
      var s := Run(cfg, codec, EMPTY, events);
      k in s.active && !s.active[k].failed && !Stuck(s.active[k]) ==> Waiting(cfg, s.active[k])
  {
    hide Run, RunPlight;
    RunStands(cfg, codec, k, events);
    BackoffInRange(cfg, codec, k, events);
  }

  // ---- a final failure left over from before ----

  // Silence, but for functions queued when k was given up once before.
  predicate Quiet(ev: Event, k: Key) {
    Silent(ev, k) || (ev.RunTask? && ev.task.FinalFailure? && ev.task.key == k)
  }

  predicate Quietness(events: seq<Timed>, k: Key) { forall i | 0 <= i < |events| :: Quiet(events[i].event, k) }

  lemma QuietStep(cfg: Settings, codec: Codec, s: State, ev: Event, now: int, k: Key)
    requires Valid(cfg) && k in s.active && Quiet(ev, k)
    ensures
      var s' := Step(cfg, codec, s, ev, now);
      && k in s'.active
      && (s.active[k].failed ==> s'.active[k].failed && Pushed(cfg, codec, s, ev, now)[SendRequest(k)] == 0)
      && (ev.RunTask? && ev.task.key == k && ev.task.FinalFailure? ==>
            Pushed(cfg, codec, s, ev, now) == multiset{} && (ev.task in s.tasks ==> s'.active[k].failed))
  {
    if Silent(ev, k) {
      hide Step, Pushed, Silent;
      SilentStep(cfg, codec, s, ev, now, k);
    }
  }

  lemma {:induction false} FailedStaysQuiet(cfg: Settings, codec: Codec, s: State, k: Key, events: seq<Timed>)
    requires Valid(cfg) && k in s.active && Quietness(events, k)
    ensures
      var s' := Run(cfg, codec, s, events);
      && k in s'.active
      && (s.active[k].failed ==> s'.active[k].failed && Asked(cfg, codec, s, events, k) == 0)
  {
    hide Step, Pushed, Quiet;
    if events != [] {
      var front, last := events[..|events| - 1], events[|events| - 1];
      assert forall i | 0 <= i < |front| :: front[i] == events[i];
      FailedStaysQuiet(cfg, codec, s, k, front);
      QuietStep(cfg, codec, Run(cfg, codec, s, front), last.event, last.now, k);
    }
  }

  lemma {:induction false} RunAppend(cfg: Settings, codec: Codec, s: State, a: seq<Timed>, b: seq<Timed>, k: Key)
    requires Valid(cfg)
    ensures
      var m := Run(cfg, codec, s, a);
      && Run(cfg, codec, s, a + b) == Run(cfg, codec, m, b)
      && Asked(cfg, codec, s, a + b, k) == Asked(cfg, codec, s, a, k) + Asked(cfg, codec, m, b, k)
  {
    hide Step, Pushed;
    if b == [] {
      assert a + b == a;
    } else {
      var front := b[..|b| - 1];
      assert (a + b)[..|a + b| - 1] == a + front;
      RunAppend(cfg, codec, s, a, front, k);
    }
  }

  /** An entry retried by hand may still have such a function queued. When the main thread gets to it,
      the entry fails there and then, stuck or not, and is not asked for again. */
  lemma LeftoverFailureGivesUp(cfg: Settings, codec: Codec, s: State, k: Key, n: nat, before: seq<Timed>, now: int,
                               after: seq<Timed>)
    requires Valid(cfg) && k in s.active && Quietness(before, k) && Quietness(after, k)
    requires FinalFailure(k, n) in Run(cfg, codec, s, before).tasks
    ensures
      var events := before + [Timed(RunTask(FinalFailure(k, n)), now)] + after;
      var s' := Run(cfg, codec, s, events);
      && k in s'.active && s'.active[k].failed
      && Asked(cfg, codec, s, events, k) == Asked(cfg, codec, s, before, k)
  {
    hide Run, RunPushed, Asked, Quietness, Step, Pushed;
    var last := Timed(RunTask(FinalFailure(k, n)), now);
    FailedStaysQuiet(cfg, codec, s, k, before);
    var m := Run(cfg, codec, s, before);
    QuietStep(cfg, codec, m, last.event, now, k);
    AskedOnce(cfg, codec, m, last, k);
    RunAppend(cfg, codec, s, before, [last], k);
    RunAppend(cfg, codec, s, before + [last], after, k);
    FailedStaysQuiet(cfg, codec, Run(cfg, codec, s, before + [last]), k, after);
  }

  lemma AskedOnce(cfg: Settings, codec: Codec, s: State, a: Timed, k: Key)
    requires Valid(cfg)
    ensures Run(cfg, codec, s, [a]) == Step(cfg, codec, s, a.event, a.now)
    ensures Asked(cfg, codec, s, [a], k) == Pushed(cfg, codec, s, a.event, a.now)[SendRequest(k)]
  {
    hide Step, Pushed;
    assert [] + [a] == [a];
    RunSnoc(cfg, codec, s, [], a);
  }

  /** A retry by hand leaves an entry stuck: if its one request is not answered, the worker never
      asks again and never gives up. */
  lemma RetryByHandCanWaitForEver(cfg: Settings, codec: Codec, s: State, modelId: uint32, kind: byte, now: int,
                                  events: seq<Timed>)
    requires Valid(cfg) && KeyOf(modelId, kind) in s.active && Silence(events, KeyOf(modelId, kind))
    ensures
      var k, s1 := KeyOf(modelId, kind), Step(cfg, codec, s, Retry(modelId, kind), now);
      var s' := Run(cfg, codec, s1, events);
      && Pushed(cfg, codec, s, Retry(modelId, kind), now) == multiset{SendRequest(k)}
      && k in s'.active && Stuck(s'.active[k]) && !s'.active[k].failed && Asked(cfg, codec, s1, events, k) == 0
  {
    hide KeyOf, Run, RunPushed, Silence;
    StuckStays(cfg, codec, Step(cfg, codec, s, Retry(modelId, kind), now), KeyOf(modelId, kind), events);
  }

  /** So does a Begin rejected in mid-download, followed by a chunk that is written. */
  lemma RejectedBeginCanWaitForEver(cfg: Settings, codec: Codec, s: State, begin: Event, chunk: Event, t: int, u: int,
                                    events: seq<Timed>)
    requires Valid(cfg) && begin.Begin? && chunk.Chunk? && Target(begin) == Target(chunk)
    requires !SizesAccepted(cfg, begin.compressed, begin.uncompressed, begin.chunks)
    requires Target(begin) in s.active && Silence(events, Target(begin))
    requires
      var e := s.active[Target(begin)];
      !e.failed && e.attempts < cfg.retryMaxAttempts && JudgeChunk(e, chunk.index, chunk.len, chunk.stream).Write?
    ensures
      var k, s2 := Target(begin), Step(cfg, codec, Step(cfg, codec, s, begin, t), chunk, u);
      var s' := Run(cfg, codec, s2, events);
      k in s'.active && Stuck(s'.active[k]) && !s'.active[k].failed && Asked(cfg, codec, s2, events, k) == 0
  {
    hide KeyOf, Run, RunPushed, Silence, Step, SizesAccepted;
    var k, s1 := Target(begin), Step(cfg, codec, s, begin, t);
    PacketStep(cfg, codec, s, begin, t, k);
    PacketStep(cfg, codec, s1, chunk, u, k);
    StuckStays(cfg, codec, Step(cfg, codec, s1, chunk, u), k, events);
  }
}
