/** What whole runs of the custom-model operations keep. */
module LifetimeTheorems {
  import opened Common
  import opened LifetimeState

  // ---- one use more, one fewer ----

  /** A use taken back is as if it had never been counted, unless the model had an entry of zero; the
      count of m changes by one and no other does. */
  lemma UsesAreBalanced(uses: Uses, m: uint32, k: uint32)
    ensures Decrement(Increment(uses, m), m) == uses <==> !(m in uses && uses[m] == 0)
    ensures UsesOf(Increment(uses, m), k) == UsesOf(uses, k) + if k == m then 1 else 0
    ensures UsesOf(Decrement(uses, m), k) == UsesOf(uses, k) - if k == m && m in uses then 1 else 0
    ensures k !in Decrement(uses, m) <==> k !in uses || (k == m && uses[m] == 1)
  {
    if m in uses && uses[m] == 0 {
      assert m !in Decrement(Increment(uses, m), m);
    } else if m in uses {
      assert Decrement(Increment(uses, m), m) == uses[m := uses[m] + 1][m := uses[m]];
    } else {
      assert uses[m := 1] - {m} == uses;
    }
  }

  /** A binding that a setter makes names no custom model: the vehicles bound to each model and all use
      counts stay, so a later bind counts its model once. */
  lemma TouchedBindsNothing(s: State, v: uint16, m: uint32)
    requires m > 0
    ensures BoundTo(Touch(s, v).bindings, m) == BoundTo(s.bindings, m)
    ensures
      var s', t' := Bind(s, v, m), Bind(Touch(s, v), v, m);
      t' == s'
  {
    if v !in s.bindings {
      assert s.bindings[v := 0][v := m] == s.bindings[v := m];
    }
  }

  // ---- use counts are binding counts ----

  ghost predicate Counted(bindings: Bindings, uses: Uses) {
    forall m: uint32 :: CUSTOM_MODEL_BASE_ID <= m ==> CountedAt(bindings, uses, m)
  }

  predicate CountedAt(bindings: Bindings, uses: Uses, m: uint32) {
    UsesOf(uses, m) == |BoundTo(bindings, m)| && (m in uses ==> uses[m] > 0)
  }

  lemma BoundAdd(bindings: Bindings, v: uint16, m: uint32, k: uint32)
    requires v !in bindings
    ensures |BoundTo(bindings[v := m], k)| == |BoundTo(bindings, k)| + if k == m then 1 else 0
  {
    if k == m {
      assert BoundTo(bindings[v := m], k) == BoundTo(bindings, k) + {v};
    } else {
      assert BoundTo(bindings[v := m], k) == BoundTo(bindings, k);
    }
  }

  lemma BoundRemove(bindings: Bindings, v: uint16, k: uint32)
    requires v in bindings
    ensures |BoundTo(bindings - {v}, k)| == |BoundTo(bindings, k)| - if k == bindings[v] then 1 else 0
  {
    BoundAdd(bindings - {v}, v, bindings[v], k);
    assert (bindings - {v})[v := bindings[v]] == bindings;
  }

  lemma UnbindCounted(s: State, v: uint16)
    requires Counted(s.bindings, s.uses)
    ensures Counted(Unbind(s, v).bindings, Unbind(s, v).uses)
  {
    hide BoundTo;
    var s' := Unbind(s, v);
    if v in s.bindings {
      forall m: uint32 | CUSTOM_MODEL_BASE_ID <= m
        ensures CountedAt(s'.bindings, s'.uses, m)
      {
        assert CountedAt(s.bindings, s.uses, m);
        BoundRemove(s.bindings, v, m);
      }
    }
  }

  lemma BindCounted(s: State, v: uint16, m: uint32)
    requires Counted(s.bindings, s.uses)
    ensures Counted(Bind(s, v, m).bindings, Bind(s, v, m).uses)
  {
    hide BoundTo;
    var s' := Bind(s, v, m);
    if !(v in s.bindings && s.bindings[v] == m) {
      var less := s.bindings - {v};
      assert less[v := m] == s.bindings[v := m];
      forall k: uint32 | CUSTOM_MODEL_BASE_ID <= k
        ensures CountedAt(s'.bindings, s'.uses, k)
      {
        assert CountedAt(s.bindings, s.uses, k);
        if v in s.bindings {
          BoundRemove(s.bindings, v, k);
        } else {
          assert less == s.bindings;
        }
        BoundAdd(less, v, m, k);
      }
    }
  }

  lemma TouchCounted(s: State, v: uint16)
    requires Counted(s.bindings, s.uses)
    ensures Counted(Touch(s, v).bindings, Touch(s, v).uses)
  {
    hide BoundTo;
    var s' := Touch(s, v);
    if v !in s.bindings {
      forall m: uint32 | CUSTOM_MODEL_BASE_ID <= m
        ensures CountedAt(s'.bindings, s'.uses, m)
      {
        assert CountedAt(s.bindings, s.uses, m);
        BoundAdd(s.bindings, v, 0, m);
      }
    }
  }

  lemma {:induction false} DecrementsCountDown(c: int, n: nat)
    requires c >= n
    ensures AfterDecrements(Some(c), n) == if n > 0 && c == n then None else Some(c - n)
  {
    if n > 0 {
      DecrementsCountDown(c, n - 1);
    }
  }

  lemma ClearCounted(s: State)
    requires Counted(s.bindings, s.uses)
    ensures Counted(ClearBindings(s).bindings, ClearBindings(s).uses)
  {
    hide BoundTo, AfterDecrements;
    var s' := ClearBindings(s);
    forall m: uint32 | CUSTOM_MODEL_BASE_ID <= m
      ensures CountedAt(s'.bindings, s'.uses, m)
    {
      assert CountedAt(s.bindings, s.uses, m);
      NothingBound(m);
      if m in s.uses {
        DecrementsCountDown(s.uses[m], |BoundTo(s.bindings, m)|);
      }
    }
  }

  lemma NothingBound(m: uint32)
    ensures BoundTo(map[], m) == {}
  {
  }

  lemma EngineCounted(s: State, op: Op)
    requires Counted(s.bindings, s.uses) && Sensible(op) && (op.Cache? || op.Uncache?)
    ensures Counted(Step(s, op).bindings, Step(s, op).uses)
  {
    hide BoundTo;
    forall m: uint32 | CUSTOM_MODEL_BASE_ID <= m
      ensures CountedAt(Step(s, op).bindings, Step(s, op).uses, m)
    {
      assert CountedAt(s.bindings, s.uses, m);
    }
  }

  // ---- slots ----

  // Our models hold distinct slots of the table, and the table has each one's info there.
  ghost predicate Placed(s: State) {
    && |s.table| == TABLE_SIZE
    && (forall id :: id in s.models ==> PlacedAt(s.models[id], s.table))
    && (forall i, j :: i in s.models && j in s.models && s.models[i].slot == s.models[j].slot ==> i == j)
  }

  predicate PlacedAt(e: Entry, table: Table) { e.slot < |table| && table[e.slot] == Some(e.info) }

  lemma {:induction false} FirstFreeIsFirst(s: State, from: nat, end: nat)
    ensures
      match FirstFree(s, from, end)
      case Some(slot) => from <= slot < end && Free(s, slot) && (forall i: nat | from <= i < slot :: !Free(s, i))
      case None => (forall i: nat | from <= i < end :: !Free(s, i))
    decreases end - from
  {
    hide Free;
    if from < end {
      FirstFreeIsFirst(s, from + 1, end);
    }
  }

  // a is tried before b
  predicate TriedBefore(a: nat, b: nat) {
    if b < PREFERRED_BASE then PREFERRED_BASE <= a || a < b else PREFERRED_BASE <= a < b
  }

  /** Allocation gives the least free slot from 11000 up, or else the least below; and none exactly
      when no slot of the table is free. */
  lemma AllocatesTheLeastFreeSlot(s: State)
    requires |s.table| == TABLE_SIZE
    ensures
      match AllocateSlot(s)
      case Some(slot) => Free(s, slot) && (forall i: nat | i < TABLE_SIZE && TriedBefore(i, slot) :: !Free(s, i))
      case None => (forall i: nat | i < TABLE_SIZE :: !Free(s, i))
  {
    hide Free, FirstFree;
    FirstFreeIsFirst(s, PREFERRED_BASE, TABLE_SIZE);
    FirstFreeIsFirst(s, 0, PREFERRED_BASE);
  }

  lemma CreatePlaced(s: State, id: uint32, base: bool)
    requires Placed(s)
    ensures Placed(CreateModel(s, id, base))
  {
    hide AllocateSlot;
    AllocatesTheLeastFreeSlot(s);
  }

  lemma DestroyPlaced(s: State, id: uint32, slots: set<nat>)
    requires Placed(s)
    ensures Placed(DestroyModel(s, id, slots))
  {
    hide InUse;
  }

  lemma {:induction false} DrainPlaced(s: State, local: seq<uint32>, slots: set<nat>)
    requires Placed(s)
    ensures Placed(Drain(s, local, slots))
  {
    hide Placed, InUse, DestroyModel;
    if local != [] {
      DrainPlaced(s, local[..|local| - 1], slots);
      var d := Drain(s, local[..|local| - 1], slots);
      DestroyPlaced(d, local[|local| - 1], slots);
      SamePlaced(d, PushDestruction(d, local[|local| - 1]));
    }
  }

  lemma SamePlaced(s: State, s': State)
    requires Placed(s) && s'.models == s.models && s'.table == s.table
    ensures Placed(s')
  {
  }

  lemma ClearPlaced(s: State, slots: set<nat>)
    requires Placed(s)
    ensures Placed(ClearModels(s, slots))
  {
    hide Claimed;
  }

  // ---- whole runs ----

  ghost predicate Inv(s: State) { Counted(s.bindings, s.uses) && Placed(s) }

  // Only these operations touch bindings or counts; only the others touch models.
  predicate OnBindings(op: Op) {
    op.BindVehicle? || op.UnbindVehicle? || op.TouchVehicle? || op.ClearVehicles? || op.Cache? || op.Uncache?
  }

  lemma {:induction false} DrainKeepsCounts(s: State, local: seq<uint32>, slots: set<nat>)
    ensures Drain(s, local, slots).uses == s.uses && Drain(s, local, slots).bindings == s.bindings
  {
    hide InUse;
    if local != [] {
      DrainKeepsCounts(s, local[..|local| - 1], slots);
    }
  }

  lemma BindingsStep(s: State, op: Op)
    requires Inv(s) && Sensible(op) && OnBindings(op)
    ensures Inv(Step(s, op))
    ensures Step(s, op).models == s.models && Step(s, op).queue == s.queue
  {
    hide Counted, Placed, DecrementAll, Increment, Decrement;
    SamePlaced(s, Step(s, op));
    match op
    case BindVehicle(v, m) => BindCounted(s, v, m);
    case UnbindVehicle(v) => UnbindCounted(s, v);
    case TouchVehicle(v) => TouchCounted(s, v);
    case ClearVehicles => ClearCounted(s);
    case Cache(_, _, _) => EngineCounted(s, op);
    case Uncache(_, _, _) => EngineCounted(s, op);
  }

  lemma ModelsStep(s: State, op: Op)
    requires Inv(s) && !OnBindings(op)
    ensures Inv(Step(s, op))
    ensures !op.Clear? ==> Step(s, op).bindings == s.bindings && Step(s, op).uses == s.uses
  {
    hide Counted, Placed, InUse, ClearBindings, ClearModels, Drain, AllocateSlot;
    match op
    case Create(id, base) => CreatePlaced(s, id, base);
    case Queue(id) => SamePlaced(s, Step(s, op));
    case Destroy(id, slots) => DestroyPlaced(s, id, slots);
    case Process(spawned, slots) =>
      var emptied := s.(queue := []);
      SamePlaced(s, emptied);
      DrainPlaced(emptied, s.queue, slots);
      DrainKeepsCounts(emptied, s.queue, slots);
    case Clear(slots) => ClearStep(s, slots);
  }

  lemma ClearStep(s: State, slots: set<nat>)
    requires Inv(s)
    ensures Inv(ClearAll(s, slots))
  {
    hide Counted, Placed, DecrementAll, Kept, ClearedTable;
    ClearCounted(s);
    SamePlaced(s, ClearBindings(s));
    ClearPlaced(ClearBindings(s), slots);
  }

  lemma {:induction false} RunInv(s: State, ops: seq<Op>)
    requires Inv(s) && forall i | 0 <= i < |ops| :: Sensible(ops[i])
    ensures Inv(Run(s, ops))
  {
    hide Inv, Step, Sensible, OnBindings;
    if ops != [] {
      var front, op := ops[..|ops| - 1], ops[|ops| - 1];
      RunInv(s, front);
      assert Sensible(op);
      if OnBindings(op) {
        BindingsStep(Run(s, front), op);
      } else {
        ModelsStep(Run(s, front), op);
      }
    }
  }

  lemma InitialInv(table: Table)
    requires |table| == TABLE_SIZE
    ensures Inv(Initial(table))
  {
    forall m: uint32 | CUSTOM_MODEL_BASE_ID <= m
      ensures CountedAt(map[], map[], m)
    {
      NothingBound(m);
    }
  }

  /** In every reachable state the use count of a custom model is the number of bindings that name
      it, so a count above zero is the same answer as IsModelInUse's search of the bindings. */
  lemma UseCountIsBindingCount(table: Table, ops: seq<Op>, m: uint32)
    requires |table| == TABLE_SIZE && CUSTOM_MODEL_BASE_ID <= m
    requires forall i | 0 <= i < |ops| :: Sensible(ops[i])
    ensures
      var s := Run(Initial(table), ops);
      && UsesOf(s.uses, m) == |BoundTo(s.bindings, m)|
      && (UsesOf(s.uses, m) > 0 <==> exists v :: v in s.bindings && s.bindings[v] == m)
  {
    hide Run, Placed;
    InitialInv(table);
    RunInv(Initial(table), ops);
    var s := Run(Initial(table), ops);
    assert CountedAt(s.bindings, s.uses, m);
    if v :| v in s.bindings && s.bindings[v] == m {
      assert v in BoundTo(s.bindings, m);
    }
  }

  /** In every reachable state our models hold distinct slots, each with its own info. */
  lemma SlotsAreDistinct(table: Table, ops: seq<Op>)
    requires |table| == TABLE_SIZE
    requires forall i | 0 <= i < |ops| :: Sensible(ops[i])
    ensures Placed(Run(Initial(table), ops))
  {
    hide Run, Placed, Counted;
    InitialInv(table);
    RunInv(Initial(table), ops);
  }

  // ---- destruction ----

  predicate Queued(s: State, id: uint32) { id in s.queue }

  // What working off the queue does to one model: it goes exactly when it was queued and unused.
  lemma {:induction false} DrainDecides(s: State, local: seq<uint32>, slots: set<nat>, id: uint32)
    ensures
      var d := Drain(s, local, slots);
      && (id in d.models <==> id in s.models && (id !in local || InUse(s, id, slots)))
      && (id in d.models ==> d.models[id] == s.models[id])
      && (id in d.models && (id in local || id in s.queue) ==> id in d.queue)
  {
    hide Emptied;
    if local != [] {
      var front, last := local[..|local| - 1], local[|local| - 1];
      assert local == front + [last];
      DrainDecides(s, front, slots, id);
      DrainKeepsCounts(s, front, slots);
    }
  }

  /** Once the player has spawned, a queued model is gone after the next pass exactly when nothing
      uses it; otherwise it is still queued. Models that were not queued stay. */
  lemma QueuedModelsGoIffUnused(s: State, slots: set<nat>, id: uint32)
    requires id in s.models
    ensures
      var s' := ProcessDestructions(s, true, slots);
      && (id !in s'.models <==> Queued(s, id) && !InUse(s, id, slots))
      && (id in s'.models && Queued(s, id) ==> Queued(s', id))
  {
    hide Drain;
    DrainDecides(s.(queue := []), s.queue, slots, id);
  }

  /** No operation loses a queued destruction while the model is there. */
  lemma QueuedDestructionIsNotLost(s: State, op: Op, id: uint32)
    requires Queued(s, id) && id in Step(s, op).models
    ensures Queued(Step(s, op), id)
  {
    hide Drain, InUse, Increment, Decrement, DecrementAll, AllocateSlot, ClearedTable, Kept, Emptied;
    if op.Process? {
      DrainDecides(s.(queue := []), s.queue, op.slots, id);
    }
  }

  /** Only clear-all removes a model that some vehicle is bound to. */
  lemma BoundModelStays(s: State, op: Op, id: uint32, v: uint16)
    requires Inv(s) && !op.Clear?
    requires CUSTOM_MODEL_BASE_ID <= id && id in s.models && v in s.bindings && s.bindings[v] == id
    ensures id in Step(s, op).models && Step(s, op).models[id] == s.models[id]
  {
    hide Drain, Increment, Decrement, DecrementAll, AllocateSlot, Emptied, Placed;
    assert CountedAt(s.bindings, s.uses, id);
    assert v in BoundTo(s.bindings, id);
    if op.Process? {
      DrainDecides(s.(queue := []), s.queue, op.slots, id);
    }
  }

  /** Clear-all keeps exactly the models whose slot a vehicle still uses, in their slots, and every
      slot of the others is free again. */
  lemma ClearAllKeepsWhatTheWorldUses(s: State, slots: set<nat>, id: uint32)
    requires Placed(s) && id in s.models
    ensures
      var s', slot := ClearAll(s, slots), s.models[id].slot;
      && (id in s'.models <==> slot in slots)
      && (id in s'.models ==> s'.models[id] == s.models[id] && s'.table[slot] == Some(s.models[id].info))
      && (id !in s'.models ==> Free(s', slot))
  {
    assert PlacedAt(s.models[id], s.table);
  }
}
