/** What a successful end packet hands over, in terms of the packets that came before it. */
module TransferDelivery {
  import opened Common
  import opened TransferSettings
  import opened TransferEntry
  import opened TransferMachine
  import opened TransferReassembly
  import opened TransferCoverage

  // ---- the digest in force ----

  // An entry that holds a buffer expects the digest and the size of the Begin in force.
  predicate Dated(e: InFlight, h: History) {
    e.buffer != [] ==> e.expectedSha == h.sha && e.uncompressedSize == h.size
  }

  lemma EntryDated(cfg: Settings, codec: Codec, e: InFlight, h: History, ev: Event, now: int)
    requires Valid(cfg) && Dated(e, h)
    ensures Dated(EntryAfter(cfg, codec, e, ev, now), TrackEntry(cfg, e, h, ev))
  {
    hide CString, EndTest, Unpack;
  }

  lemma StepDated(cfg: Settings, codec: Codec, s: State, h: History, k: Key, ev: Event, now: int)
    requires Valid(cfg)
    requires k in s.active ==> Dated(s.active[k], h)
    ensures
      var s' := Step(cfg, codec, s, ev, now);
      k in s'.active ==> Dated(s'.active[k], Track(cfg, s, h, k, ev))
  {
    hide Step, EntryAfter, TrackEntry;
    if k in Step(cfg, codec, s, ev, now).active {
      StepCases(cfg, codec, s, ev, now, k);
      if k in s.active {
        QuietTrack(cfg, s, h, k, ev);
        if Touches(s, ev, k) {
          EntryDated(cfg, codec, s.active[k], h, ev, now);
          PacketStep(cfg, codec, s, ev, now, k);
        }
      }
    }
  }

  lemma {:induction false} RunDated(cfg: Settings, codec: Codec, k: Key, events: seq<Timed>)
    requires Valid(cfg)
    ensures
      var s := Run(cfg, codec, EMPTY, events);
      k in s.active ==> Dated(s.active[k], RunHistory(cfg, codec, EMPTY, NO_HISTORY, k, events))
  {
    hide Step, Track, Dated;
    if events != [] {
      var front, last := events[..|events| - 1], events[|events| - 1];
      RunDated(cfg, codec, k, front);
      StepDated(cfg, codec, Run(cfg, codec, EMPTY, front), RunHistory(cfg, codec, EMPTY, NO_HISTORY, k, front), k,
                last.event, last.now);
    }
  }

  // ---- from delivery back to the end packet ----

  // Event j is the end packet whose first section took t.
  predicate TookAt(cfg: Settings, codec: Codec, events: seq<Timed>, j: nat, t: Taken)
    requires Valid(cfg)
  {
    && j < |events| && events[j].event.Take? && Target(events[j].event) == t.key
    && var s := Run(cfg, codec, EMPTY, events[..j]);
       t.key in s.active && EndTest(s.active[t.key]) && t == TakenFrom(t.key, s.active[t.key])
  }

  lemma {:induction false} TakenCameFrom(cfg: Settings, codec: Codec, events: seq<Timed>, t: Taken) returns (j: nat)
    requires Valid(cfg) && t in Run(cfg, codec, EMPTY, events).taken
    ensures TookAt(cfg, codec, events, j, t)
  {
    hide ActiveAfter, Pushed, EndTest, KeyOf;
    var front, last := events[..|events| - 1], events[|events| - 1];
    var s := Run(cfg, codec, EMPTY, front);
    if t in s.taken {
      j := TakenCameFrom(cfg, codec, front, t);
      assert events[..j] == front[..j] && events[j] == front[j];
    } else {
      assert t in TakenAfter(s, last.event);
      j := |front|;
      assert events[..j] == front;
    }
  }

  // Event i queues the delivery of k to the onReady of request n.
  predicate DeliversAt(cfg: Settings, codec: Codec, events: seq<Timed>, i: nat, k: Key, n: nat)
    requires Valid(cfg)
  {
    i < |events|
    && Deliver(k, n) in Pushed(cfg, codec, Run(cfg, codec, EMPTY, events[..i]), events[i].event, events[i].now)
  }

  lemma OnlyFinishDelivers(cfg: Settings, codec: Codec, s: State, ev: Event, now: int, k: Key, n: nat)
    requires Deliver(k, n) in Pushed(cfg, codec, s, ev, now)
    ensures HandsOver(cfg, codec, ev) && ev.taken in s.taken && ev.taken.key == k && ev.taken.serial == n
  {
    hide JudgeChunk, EndTest, KeyOf, ModelOf, Sends, Unpack;
    assert Deliver(k, n) !in SendSet(cfg, s.active, now);
    assert Deliver(k, n) !in CallbackSet(s.active);
    assert ev.CancelModel? ==> Deliver(k, n) !in CallbackSet(OfModel(s.active, ev.modelId));
  }

  /** In every run, whatever comes between the two sections of OnTransferEnd, a delivery is of data
      that an earlier end packet took: the Begin in force at that packet announced its digest and its
      size, which is within the limit; and it goes to the request whose entry was taken. */
  lemma EveryDeliveryWasAnnounced(cfg: Settings, codec: Codec, events: seq<Timed>, i: nat, k: Key, n: nat)
    returns (j: nat)
    requires Valid(cfg) && DeliversAt(cfg, codec, events, i, k, n)
    ensures events[i].event.Finish? && events[i].event.stored && j < i
    ensures
      var t := events[i].event.taken;
      && t.key == k && t.serial == n && TookAt(cfg, codec, events, j, t)
      && Unpack(cfg, codec, t).Some?
      && var data := Unpack(cfg, codec, t).value;
         && Some(data) == codec.inflate(t.compressed)
         && SameIgnoringCase(codec.hash(data), RunHistory(cfg, codec, EMPTY, NO_HISTORY, k, events[..j]).sha)
         && 0 < |data| == RunHistory(cfg, codec, EMPTY, NO_HISTORY, k, events[..j]).size
         && |data| <= cfg.clientMaxUncompressedSize
  {
    hide Run, RunHistory, Pushed, SameIgnoringCase;
    var s := Run(cfg, codec, EMPTY, events[..i]);
    OnlyFinishDelivers(cfg, codec, s, events[i].event, events[i].now, k, n);
    j := TakenCameFrom(cfg, codec, events[..i], events[i].event.taken);
    assert events[..i][..j] == events[..j] && events[..i][j] == events[j];
    RunDated(cfg, codec, k, events[..j]);
  }

  /** And under a sender faithful to a blob, what it unpacks is the blob. */
  lemma FaithfulDeliveriesAreTheBlob(cfg: Settings, codec: Codec, blob: seq<byte>, events: seq<Timed>, i: nat, k: Key,
                                     n: nat)
    requires Valid(cfg) && FaithfulRun(cfg, blob, k, events) && DeliversAt(cfg, codec, events, i, k, n)
    ensures events[i].event.Finish? && events[i].event.taken.compressed == blob
    ensures codec.inflate(blob).Some?
  {
    hide Run, Pushed, Faithful, IsFor, RunHistory;
    var j := EveryDeliveryWasAnnounced(cfg, codec, events, i, k, n);
    assert FaithfulRun(cfg, blob, k, events[..j]) by {
      assert forall m | 0 <= m < j :: events[..j][m] == events[m];
    }
    EndHandsOverTheBlob(cfg, codec, blob, k, events[..j]);
  }
}
