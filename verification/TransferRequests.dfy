/** Every call of RequestFile and its onReady: what is served from the cache, what starts a transfer,
    and what is dropped because the file is in flight already. */
module TransferRequests {
  import opened Common
  import opened TransferSettings
  import opened TransferEntry
  import opened TransferMachine
  import opened TransferCallbacks

  // RequestFile calls the onReady of a cached file itself. Calls made so, of request n for k.
  function DirectCalls(cfg: Settings, codec: Codec, s: State, events: seq<Timed>, k: Key, n: nat): nat
    requires Valid(cfg)
  {
    if events == [] then 0
    else
      var front, ev := events[..|events| - 1], events[|events| - 1].event;
      DirectCalls(cfg, codec, s, front, k, n) +
      if ev.Request? && ev.cached && IsFor(ev, k) && Run(cfg, codec, s, front).nextSerial == n then 1 else 0
  }

  // All calls of it, made or queued.
  function AllCalls(cfg: Settings, codec: Codec, s: State, events: seq<Timed>, k: Key, n: nat): nat
    requires Valid(cfg)
  {
    DirectCalls(cfg, codec, s, events, k, n) + Calls(RunPushed(cfg, codec, s, events), k, n)
  }

  // Nothing in flight is request n's, and nothing will be.
  predicate Absent(s: State, k: Key, n: nat) {
    n < s.nextSerial && !Owns(s, k, n) && (forall t :: t in s.taken ==> !(t.key == k && t.serial == n))
  }

  lemma AbsentStays(cfg: Settings, codec: Codec, s: State, ev: Event, now: int, k: Key, n: nat)
    requires Valid(cfg) && Absent(s, k, n)
    ensures Absent(Step(cfg, codec, s, ev, now), k, n) && EndingAt(cfg, codec, s, ev, now, k, n) == None
  {
    hide ActiveAfter, Pushed, Owns, EndTest, KeyOf, Unpack, RaisedPast;
    SpentStays(cfg, codec, s, ev, now, k, n);
    var s' := Step(cfg, codec, s, ev, now);
    forall t | t in s'.taken
      ensures !(t.key == k && t.serial == n)
    {
      if t !in s.taken {
        NewlyTaken(s, ev, t);
      }
    }
  }

  lemma NewlyTaken(s: State, ev: Event, t: Taken)
    requires t in TakenAfter(s, ev) && t !in s.taken
    ensures Owns(s, t.key, t.serial)
  {
    hide EndTest, KeyOf;
  }

  lemma {:induction false} AbsentIsNeverCalled(cfg: Settings, codec: Codec, s: State, events: seq<Timed>, k: Key,
                                               n: nat)
    requires Valid(cfg) && Absent(s, k, n)
    ensures Absent(Run(cfg, codec, s, events), k, n) && Endings(cfg, codec, s, events, k, n) == []
  {
    hide Step, Absent, EndingAt;
    if events != [] {
      var front, last := events[..|events| - 1], events[|events| - 1];
      AbsentIsNeverCalled(cfg, codec, s, front, k, n);
      AbsentStays(cfg, codec, Run(cfg, codec, s, front), last.event, last.now, k, n);
    }
  }

  lemma {:induction false} SerialsOnlyGrow(cfg: Settings, codec: Codec, s: State, events: seq<Timed>)
    requires Valid(cfg)
    ensures
      Run(cfg, codec, s, events).nextSerial >= s.nextSerial + if events != [] && events[0].event.Request? then 1 else 0
  {
    hide Step;
    if events != [] {
      var front, last := events[..|events| - 1], events[|events| - 1];
      SerialsOnlyGrow(cfg, codec, s, front);
      SerialsGrow(cfg, codec, Run(cfg, codec, s, front), last.event, last.now);
      if front == [] {
        RequestTakesSerial(cfg, codec, s, last.event, last.now);
      }
    }
  }

  lemma RequestTakesSerial(cfg: Settings, codec: Codec, s: State, ev: Event, now: int)
    requires Valid(cfg)
    ensures Step(cfg, codec, s, ev, now).nextSerial == s.nextSerial + if ev.Request? then 1 else 0
  {
    hide ActiveAfter, Pushed, TakenAfter;
  }

  // Only the request itself is answered directly under its serial.
  lemma {:induction false} DirectlyOnce(cfg: Settings, codec: Codec, s: State, events: seq<Timed>, k: Key)
    requires Valid(cfg) && events != [] && events[0].event.Request? && IsFor(events[0].event, k)
    ensures DirectCalls(cfg, codec, s, events, k, s.nextSerial) == if events[0].event.cached then 1 else 0
  {
    hide Run, IsFor;
    var front := events[..|events| - 1];
    if front == [] {
      RunOfNothing(cfg, codec, s);
    } else {
      DirectlyOnce(cfg, codec, s, front, k);
      SerialsOnlyGrow(cfg, codec, s, front);
    }
  }

  lemma RunOfNothing(cfg: Settings, codec: Codec, s: State)
    requires Valid(cfg)
    ensures Run(cfg, codec, s, []) == s && forall k, n :: DirectCalls(cfg, codec, s, [], k, n) == 0
  {
  }

  lemma NumberedIsAbsent(s: State, s': State, k: Key)
    requires Numbered(s) && s'.active == s.active && s'.taken == s.taken && s'.nextSerial == s.nextSerial + 1
    ensures Absent(s', k, s.nextSerial)
  {
  }

  lemma DroppedStep(cfg: Settings, codec: Codec, s: State, modelId: uint32, kind: byte, sha: string, cached: bool,
                    now: int)
    requires Valid(cfg) && (cached || KeyOf(modelId, kind) in s.active)
    ensures Step(cfg, codec, s, Request(modelId, kind, sha, cached), now) == s.(nextSerial := s.nextSerial + 1)
    ensures Pushed(cfg, codec, s, Request(modelId, kind, sha, cached), now) == multiset{}
  {
    hide KeyOf;
  }

  // A run from its first event on.
  lemma {:induction false} EndingsAfterFirst(cfg: Settings, codec: Codec, s: State, first: Timed, after: seq<Timed>,
                                             k: Key, n: nat)
    requires Valid(cfg) && EndingAt(cfg, codec, s, first.event, first.now, k, n) == None
    ensures
      var s1 := Step(cfg, codec, s, first.event, first.now);
      && Run(cfg, codec, s, [first] + after) == Run(cfg, codec, s1, after)
      && Endings(cfg, codec, s, [first] + after, k, n) == Endings(cfg, codec, s1, after, k, n)
  {
    hide Step, EndingAt;
    if after == [] {
      assert [first] + after == [first] && [first][..0] == [];
    } else {
      var front, last := after[..|after| - 1], after[|after| - 1];
      EndingsAfterFirst(cfg, codec, s, first, front, k, n);
      assert ([first] + after)[..|after|] == [first] + front;
    }
  }

  lemma RequestEndsNothing(cfg: Settings, codec: Codec, s: State, modelId: uint32, kind: byte, sha: string,
                           cached: bool, now: int, k: Key)
    requires Valid(cfg) && Numbered(s)
    ensures EndingAt(cfg, codec, s, Request(modelId, kind, sha, cached), now, k, s.nextSerial) == None
  {
    hide Step, KeyOf;
  }

  /** The request made in any reachable state, and any run after it. If the file is cached its onReady
      is called once, on the spot; if the file is in flight it is never called; and otherwise the calls
      are two for each cancel packet that finds the request's entry and one for each other ending. */
  lemma EveryRequestIsCalled(cfg: Settings, codec: Codec, before: seq<Timed>, modelId: uint32, kind: byte, sha: string,
                             cached: bool, now: int, after: seq<Timed>)
    requires Valid(cfg)
    ensures
      var s, k := Run(cfg, codec, EMPTY, before), KeyOf(modelId, kind);
      var run, n := [Timed(Request(modelId, kind, sha, cached), now)] + after, s.nextSerial;
      AllCalls(cfg, codec, s, run, k, n) ==
        if cached then 1 else if k in s.active then 0 else Weights(Endings(cfg, codec, s, run, k, n))
  {
    hide KeyOf, Run, RunPushed, Endings, Calls, Weights, DirectCalls, Absent, Step, Pushed;
    var s, k := Run(cfg, codec, EMPTY, before), KeyOf(modelId, kind);
    var first := Timed(Request(modelId, kind, sha, cached), now);
    var run, n := [first] + after, s.nextSerial;
    DirectlyOnce(cfg, codec, s, run, k);
    CallsAreEndings(cfg, codec, s, run, k, n);
    if cached || k in s.active {
      RunNumbered(cfg, codec, before);
      DroppedStep(cfg, codec, s, modelId, kind, sha, cached, now);
      NumberedIsAbsent(s, Step(cfg, codec, s, first.event, now), k);
      AbsentIsNeverCalled(cfg, codec, Step(cfg, codec, s, first.event, now), after, k, n);
      RequestEndsNothing(cfg, codec, s, modelId, kind, sha, cached, now, k);
      EndingsAfterFirst(cfg, codec, s, first, after, k, n);
      NoWeights();
    }
  }

  lemma NoWeights()
    ensures Weights([]) == 0
  {
  }

  /** So it is called exactly once if and only if the file was cached, or was not in flight and the
      transfer then ended once and not by a cancel packet. */
  lemma CalledOnceIff(cfg: Settings, codec: Codec, before: seq<Timed>, modelId: uint32, kind: byte, sha: string,
                      cached: bool, now: int, after: seq<Timed>)
    requires Valid(cfg)
    ensures
      var s, k := Run(cfg, codec, EMPTY, before), KeyOf(modelId, kind);
      var run, n := [Timed(Request(modelId, kind, sha, cached), now)] + after, s.nextSerial;
      var calls, endings := AllCalls(cfg, codec, s, run, k, n), Endings(cfg, codec, s, run, k, n);
      && (calls == 1 <==> cached || (k !in s.active && |endings| == 1 && endings[0] != Cancelled))
      && (calls == 0 <==> !cached && (k in s.active || endings == []))
  {
    hide KeyOf, Run, RunPushed, Endings, Calls, AllCalls;
    EveryRequestIsCalled(cfg, codec, before, modelId, kind, sha, cached, now, after);
    var s, k := Run(cfg, codec, EMPTY, before), KeyOf(modelId, kind);
    CalledExactlyOnceIff(cfg, codec, s, [Timed(Request(modelId, kind, sha, cached), now)] + after, k, s.nextSerial);
  }

  /** A second request for a file in flight: nothing happens but that its onReady is gone. */
  lemma SecondRequestIsDropped(cfg: Settings, codec: Codec, before: seq<Timed>, modelId: uint32, kind: byte,
                               sha: string, now: int, after: seq<Timed>)
    requires Valid(cfg) && KeyOf(modelId, kind) in Run(cfg, codec, EMPTY, before).active
    ensures
      var s, k, ev := Run(cfg, codec, EMPTY, before), KeyOf(modelId, kind), Request(modelId, kind, sha, false);
      && Step(cfg, codec, s, ev, now) == s.(nextSerial := s.nextSerial + 1)
      && AllCalls(cfg, codec, s, [Timed(ev, now)] + after, k, s.nextSerial) == 0
  {
    hide KeyOf, Run, AllCalls, Endings;
    DroppedStep(cfg, codec, Run(cfg, codec, EMPTY, before), modelId, kind, sha, false, now);
    EveryRequestIsCalled(cfg, codec, before, modelId, kind, sha, false, now, after);
  }
}
