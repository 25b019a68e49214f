/** How the back-off of a transfer grows over its retries. */
module TransferBackoff {
  import opened Common
  import opened TransferSettings
  import opened TransferEntry
  import opened TransferMachine

  function Power2(r: nat): nat { if r == 0 then 1 else 2 * Power2(r - 1) }

  // Back-off after r doublings.
  function Backoff(cfg: Settings, r: nat): int {
    Min(cfg.retryInitialBackoffMs * Power2(r), cfg.retryMaxBackoffMs)
  }

  // ScheduleRetry short of the last attempt.
  predicate RetriesAgain(cfg: Settings, e: InFlight) { e.attempts < cfg.retryMaxAttempts }

  // Doublings since the entry was created, begun or retried by hand, across one event.
  function Doublings(cfg: Settings, codec: Codec, e: InFlight, r: nat, ev: Event, now: int): nat
    requires Valid(cfg)
  {
    match ev
    case Begin(_, _, compressed, uncompressed, chunks, _) =>
      if SizesAccepted(cfg, compressed, uncompressed, chunks) then 0 else r
    case Retry(_, _) => 0
    case Worker => if Sends(cfg, e, now) && !RetryDue(e, now) then r + 1 else r
    case _ => if Refuses(cfg, codec, e, ev) && RetriesAgain(cfg, e) then r + 1 else r
  }

  function RunDoublings(cfg: Settings, codec: Codec, k: Key, events: seq<Timed>): nat
    requires Valid(cfg)
  {
    if events == [] then 0
    else
      var front, last := events[..|events| - 1], events[|events| - 1];
      var s, r := Run(cfg, codec, EMPTY, front), RunDoublings(cfg, codec, k, front);
      if k !in s.active then 0
      else if Touches(s, last.event, k) then Doublings(cfg, codec, s.active[k], r, last.event, last.now)
      else r
  }

  lemma BackoffDoubles(cfg: Settings, r: nat)
    requires Valid(cfg)
    ensures 0 < Backoff(cfg, r) <= cfg.retryMaxBackoffMs
    ensures Min(Backoff(cfg, r) * 2 % TWO32, cfg.retryMaxBackoffMs) == Backoff(cfg, r + 1)
  {
    Power2Positive(r);
    Product(cfg.retryInitialBackoffMs, Power2(r));
    CappedDoubling(cfg.retryInitialBackoffMs * Power2(r), cfg.retryMaxBackoffMs);
  }

  lemma Product(x: nat, y: nat)
    requires x > 0 && y > 0
    ensures x * y > 0 && x * (2 * y) == 2 * (x * y)
  {
  }

  lemma CappedDoubling(a: nat, cap: nat)
    requires a > 0 && 0 < cap <= 600000
    ensures Min(Min(a, cap) * 2 % TWO32, cap) == Min(2 * a, cap)
  {
  }

  lemma {:induction false} Power2Positive(r: nat)
    ensures Power2(r) >= 1
  {
    if r > 0 {
      Power2Positive(r - 1);
    }
  }

  lemma EntryBackoff(cfg: Settings, codec: Codec, e: InFlight, r: nat, ev: Event, now: int)
    requires Valid(cfg) && e.backoffMs == Backoff(cfg, r)
    ensures EntryAfter(cfg, codec, e, ev, now).backoffMs == Backoff(cfg, Doublings(cfg, codec, e, r, ev, now))
  {
    BackoffDoubles(cfg, r);
    assert Backoff(cfg, 0) == cfg.retryInitialBackoffMs;
  }

  /** Over every run, backoffMs is min(initial * 2^r, max), r counting the retries that led to
      another attempt, and the timeouts, since the entry was created, begun or retried by hand. */
  lemma {:induction false} BackoffClosedForm(cfg: Settings, codec: Codec, k: Key, events: seq<Timed>)
    requires Valid(cfg)
    ensures
      var s := Run(cfg, codec, EMPTY, events);
      k in s.active ==> s.active[k].backoffMs == Backoff(cfg, RunDoublings(cfg, codec, k, events))
  {
    hide Step, EntryAfter, Doublings, Backoff;
    if events != [] {
      var front, last := events[..|events| - 1], events[|events| - 1];
      BackoffClosedForm(cfg, codec, k, front);
      var s := Run(cfg, codec, EMPTY, front);
      if k in s.active && Touches(s, last.event, k) {
        PacketStep(cfg, codec, s, last.event, last.now, k);
        EntryBackoff(cfg, codec, s.active[k], RunDoublings(cfg, codec, k, front), last.event, last.now);
      } else if k in Step(cfg, codec, s, last.event, last.now).active {
        StepCases(cfg, codec, s, last.event, last.now, k);
        FirstBackoff(cfg);
      }
    }
  }

  lemma FirstBackoff(cfg: Settings)
    requires Valid(cfg)
    ensures Backoff(cfg, 0) == cfg.retryInitialBackoffMs
  {
  }
}
