/** Which vehicles are bound to which model and which are seen in the world, told from the operations
    alone; what the counts of engine models count; and that the table of models is put back. */
module LifetimeHistory {
  import opened Common
  import opened LifetimeState
  import opened LifetimeTheorems

  // ---- bindings ----

  // The operation leaves a binding of v as it is.
  predicate KeepsBinding(op: Op, v: uint16) {
    !(op.BindVehicle? && op.v == v) && op != UnbindVehicle(v) && !op.ClearVehicles? && !op.Clear?
  }

  // The last operation that changed v's binding bound it to m.
  ghost predicate BoundLast(ops: seq<Op>, v: uint16, m: uint32) {
    exists i | 0 <= i < |ops| :: ops[i] == BindVehicle(v, m) && forall j | i < j < |ops| :: KeepsBinding(ops[j], v)
  }

  lemma BoundLastSnoc(ops: seq<Op>, v: uint16, m: uint32)
    requires ops != []
    ensures
      var front, last := ops[..|ops| - 1], ops[|ops| - 1];
      BoundLast(ops, v, m) <==> last == BindVehicle(v, m) || (BoundLast(front, v, m) && KeepsBinding(last, v))
  {
    hide KeepsBinding;
    var front, last := ops[..|ops| - 1], ops[|ops| - 1];
    if BoundLast(front, v, m) && KeepsBinding(last, v) {
      var i :|
        0 <= i < |front| && front[i] == BindVehicle(v, m) && forall j | i < j < |front| :: KeepsBinding(front[j], v);
      assert ops[i] == BindVehicle(v, m);
      assert forall j | i < j < |front| :: ops[j] == front[j];
    }
    if BoundLast(ops, v, m) {
      var i :| 0 <= i < |ops| && ops[i] == BindVehicle(v, m) && forall j | i < j < |ops| :: KeepsBinding(ops[j], v);
      assert forall j | i < j < |front| :: ops[j] == front[j];
      assert i < |front| ==> front[i] == BindVehicle(v, m);
    }
  }

  lemma {:induction false} DrainKeepsBindings(s: State, local: seq<uint32>, slots: set<nat>)
    ensures Drain(s, local, slots).bindings == s.bindings && Drain(s, local, slots).cached == s.cached
  {
    hide InUse;
    if local != [] {
      DrainKeepsBindings(s, local[..|local| - 1], slots);
    }
  }

  lemma BindingStep(s: State, op: Op, v: uint16, m: uint32)
    requires m > 0
    ensures
      var s' := Step(s, op);
      v in s'.bindings && s'.bindings[v] == m <==>
        op == BindVehicle(v, m) || (v in s.bindings && s.bindings[v] == m && KeepsBinding(op, v))
  {
    hide Drain, Increment, Decrement, DecrementAll, AllocateSlot, ClearedTable, Kept, InUse, Emptied;
    if op.Process? {
      DrainKeepsBindings(s.(queue := []), s.queue, op.slots);
    }
  }

  /** Over every run, a vehicle is bound to a model exactly when the last bind of it named that model and no
      unbind of it and no clearing came after; a setter leaves a bound vehicle alone. */
  lemma {:induction false} BoundIff(table: Table, ops: seq<Op>, v: uint16, m: uint32)
    requires |table| == TABLE_SIZE && m > 0
    ensures
      var s := Run(Initial(table), ops);
      v in s.bindings && s.bindings[v] == m <==> BoundLast(ops, v, m)
  {
    hide Step, KeepsBinding;
    if ops != [] {
      BoundIff(table, ops[..|ops| - 1], v, m);
      BindingStep(Run(Initial(table), ops[..|ops| - 1]), ops[|ops| - 1], v, m);
      BoundLastSnoc(ops, v, m);
    }
  }

  /** So a queued custom model goes with the next pass exactly when every vehicle bound to it has been unbound
      or bound elsewhere since, and no vehicle of the world uses its slot. */
  lemma QueuedModelGoesIffUnbound(table: Table, ops: seq<Op>, id: uint32, slots: set<nat>)
    requires |table| == TABLE_SIZE && CUSTOM_MODEL_BASE_ID <= id
    requires forall i | 0 <= i < |ops| :: Sensible(ops[i])
    requires
      var s := Run(Initial(table), ops);
      id in s.models && Queued(s, id)
    ensures
      var s := Run(Initial(table), ops);
      id !in ProcessDestructions(s, true, slots).models <==>
        (forall v: uint16 :: !BoundLast(ops, v, id)) && s.models[id].slot !in slots
  {
    hide Run, ProcessDestructions, BoundLast, Sensible;
    var s := Run(Initial(table), ops);
    UseCountIsBindingCount(table, ops, id);
    QueuedModelsGoIffUnused(s, slots, id);
    forall v: uint16
      ensures BoundLast(ops, v, id) <==> v in s.bindings && s.bindings[v] == id
    {
      BoundIff(table, ops, v, id);
    }
    if v :| v in s.bindings && s.bindings[v] == id {
      assert BoundLast(ops, v, id);
    }
  }

  // The last operation that made or took away v's binding made it.
  ghost predicate HasBindingSince(ops: seq<Op>, v: uint16) {
    exists i | 0 <= i < |ops| :: Makes(ops[i], v) && forall j | i < j < |ops| :: !TakesAway(ops[j], v)
  }

  predicate Makes(op: Op, v: uint16) { (op.BindVehicle? || op.TouchVehicle?) && op.v == v }

  predicate TakesAway(op: Op, v: uint16) { op == UnbindVehicle(v) || op.ClearVehicles? || op.Clear? }

  lemma HasBindingSnoc(ops: seq<Op>, v: uint16)
    requires ops != []
    ensures
      var front, last := ops[..|ops| - 1], ops[|ops| - 1];
      HasBindingSince(ops, v) <==> Makes(last, v) || (HasBindingSince(front, v) && !TakesAway(last, v))
  {
    hide Makes, TakesAway;
    var front, last := ops[..|ops| - 1], ops[|ops| - 1];
    if HasBindingSince(front, v) && !TakesAway(last, v) {
      var i :| 0 <= i < |front| && Makes(front[i], v) && forall j | i < j < |front| :: !TakesAway(front[j], v);
      assert Makes(ops[i], v) && forall j | i < j < |front| :: ops[j] == front[j];
    }
    if HasBindingSince(ops, v) {
      var i :| 0 <= i < |ops| && Makes(ops[i], v) && forall j | i < j < |ops| :: !TakesAway(ops[j], v);
      assert i < |front| ==> Makes(front[i], v);
      assert forall j | i < j < |front| :: ops[j] == front[j];
    }
  }

  lemma HasBindingStep(s: State, op: Op, v: uint16)
    ensures v in Step(s, op).bindings <==> Makes(op, v) || (v in s.bindings && !TakesAway(op, v))
  {
    hide Drain, Increment, Decrement, DecrementAll, AllocateSlot, ClearedTable, Kept, InUse, Emptied;
    if op.Process? {
      DrainKeepsBindings(s.(queue := []), s.queue, op.slots);
    }
  }

  /** A vehicle has a binding, if only one that a setter made, exactly when it was bound or set last and not unbound
      or cleared since. */
  lemma {:induction false} HasBindingIff(table: Table, ops: seq<Op>, v: uint16)
    requires |table| == TABLE_SIZE
    ensures v in Run(Initial(table), ops).bindings <==> HasBindingSince(ops, v)
  {
    hide Step, Makes, TakesAway;
    if ops != [] {
      HasBindingIff(table, ops[..|ops| - 1], v);
      HasBindingStep(Run(Initial(table), ops[..|ops| - 1]), ops[|ops| - 1], v);
      HasBindingSnoc(ops, v);
    }
  }

  // ---- vehicles seen in the world ----

  // The engine model each vehicle in the cache was counted for.
  function SeenAs(ops: seq<Op>): map<nat, uint32> {
    if ops == [] then map[]
    else
      var seen, op := SeenAs(ops[..|ops| - 1]), ops[|ops| - 1];
      match op
      case Cache(vehicle, _, model) => if vehicle in seen then seen else seen[vehicle := model]
      case Uncache(vehicle, _, _) => seen - {vehicle}
      case _ => seen
  }

  function SeenWith(seen: map<nat, uint32>, m: uint32): set<nat> { set v | v in seen && seen[v] == m }

  // A vehicle leaves as what it came, and can still be read; bindings are to custom models.
  predicate Orderly(seen: map<nat, uint32>, op: Op) {
    && (op.Uncache? && op.vehicle in seen ==> op.valid && op.engineModel == seen[op.vehicle])
    && (op.BindVehicle? ==> CUSTOM_MODEL_BASE_ID <= op.m)
  }

  predicate OrderlyRun(ops: seq<Op>) { forall i | 0 <= i < |ops| :: Orderly(SeenAs(ops[..i]), ops[i]) }

  // Bindings name custom models or none, and the cache and the counts agree with what was seen.
  ghost predicate Seen(s: State, seen: map<nat, uint32>, m: uint32) {
    && s.cached.Keys == seen.Keys
    && (forall v :: v in s.bindings ==> s.bindings[v] == 0 || CUSTOM_MODEL_BASE_ID <= s.bindings[v])
    && UsesOf(s.uses, m) == |SeenWith(seen, m)| && (m in s.uses ==> s.uses[m] > 0)
  }

  lemma SeenMore(seen: map<nat, uint32>, vehicle: nat, model: uint32, m: uint32)
    requires vehicle !in seen
    ensures |SeenWith(seen[vehicle := model], m)| == |SeenWith(seen, m)| + if m == model then 1 else 0
  {
    if m == model {
      assert SeenWith(seen[vehicle := model], m) == SeenWith(seen, m) + {vehicle};
    } else {
      assert SeenWith(seen[vehicle := model], m) == SeenWith(seen, m);
    }
  }

  lemma SeenLess(seen: map<nat, uint32>, vehicle: nat, m: uint32)
    requires vehicle in seen
    ensures |SeenWith(seen - {vehicle}, m)| == |SeenWith(seen, m)| - if m == seen[vehicle] then 1 else 0
  {
    SeenMore(seen - {vehicle}, vehicle, seen[vehicle], m);
    assert (seen - {vehicle})[vehicle := seen[vehicle]] == seen;
  }

  lemma NothingNamed(bindings: Bindings, m: uint32)
    requires 0 < m < CUSTOM_MODEL_BASE_ID
    requires forall v :: v in bindings ==> bindings[v] == 0 || CUSTOM_MODEL_BASE_ID <= bindings[v]
    ensures BoundTo(bindings, m) == {}
  {
  }

  lemma CacheSeen(s: State, seen: map<nat, uint32>, op: Op, m: uint32)
    requires Seen(s, seen, m) && op.Cache?
    ensures Seen(Step(s, op), if op.vehicle in seen then seen else seen[op.vehicle := op.engineModel], m)
  {
    hide SeenWith;
    if op.vehicle !in seen {
      SeenMore(seen, op.vehicle, op.engineModel, m);
    }
  }

  lemma UncacheSeen(s: State, seen: map<nat, uint32>, op: Op, m: uint32)
    requires Seen(s, seen, m) && op.Uncache? && Orderly(seen, op)
    ensures Seen(Step(s, op), seen - {op.vehicle}, m)
  {
    hide SeenWith;
    if op.vehicle in seen {
      SeenLess(seen, op.vehicle, m);
    } else {
      assert seen - {op.vehicle} == seen;
    }
  }

  lemma SeenStep(s: State, seen: map<nat, uint32>, op: Op, m: uint32)
    requires 0 < m < CUSTOM_MODEL_BASE_ID && Seen(s, seen, m) && Orderly(seen, op)
    ensures
      var seen' :=
        match op
        case Cache(vehicle, _, model) => if vehicle in seen then seen else seen[vehicle := model]
        case Uncache(vehicle, _, _) => seen - {vehicle}
        case _ => seen;
      Seen(Step(s, op), seen', m)
  {
    hide SeenWith, AllocateSlot, ClearedTable, Kept, InUse, Emptied, Drain, BoundTo, CacheVehicle, UncacheVehicle;
    match op
    case Cache(_, _, _) => CacheSeen(s, seen, op, m);
    case Uncache(_, _, _) => UncacheSeen(s, seen, op, m);
    case Process(_, slots) =>
      DrainKeepsBindings(s.(queue := []), s.queue, slots);
      DrainKeepsCounts(s.(queue := []), s.queue, slots);
    case ClearVehicles => NothingNamed(s.bindings, m);
    case Clear(_) => NothingNamed(s.bindings, m);
    case _ =>
  }

  lemma {:induction false} RunSeen(table: Table, ops: seq<Op>, m: uint32)
    requires |table| == TABLE_SIZE && 0 < m < CUSTOM_MODEL_BASE_ID && OrderlyRun(ops)
    ensures Seen(Run(Initial(table), ops), SeenAs(ops), m)
  {
    hide Step, Orderly, SeenWith, Seen;
    if ops == [] {
      NobodySeen(table, m);
    } else {
      var front := ops[..|ops| - 1];
      assert OrderlyRun(front) by {
        assert forall i | 0 <= i < |front| :: front[..i] == ops[..i] && front[i] == ops[i];
      }
      RunSeen(table, front, m);
      assert Orderly(SeenAs(front), ops[|ops| - 1]);
      SeenStep(Run(Initial(table), front), SeenAs(front), ops[|ops| - 1], m);
    }
  }

  lemma NobodySeen(table: Table, m: uint32)
    requires |table| == TABLE_SIZE
    ensures Seen(Initial(table), map[], m)
  {
  }

  /** Over every run in which each vehicle leaves the cache as what it came, the use count of an engine model is
      the number of vehicles in the cache that were counted for it. */
  lemma EngineUseIsSeenCount(table: Table, ops: seq<Op>, m: uint32)
    requires |table| == TABLE_SIZE && 0 < m < CUSTOM_MODEL_BASE_ID && OrderlyRun(ops)
    ensures
      var s := Run(Initial(table), ops);
      && s.cached.Keys == SeenAs(ops).Keys
      && UsesOf(s.uses, m) == |SeenWith(SeenAs(ops), m)|
  {
    hide Run, SeenAs, SeenWith, OrderlyRun;
    RunSeen(table, ops, m);
  }

  // ---- models and the table ----

  /** With a base and a free slot, creating a model that there is not yet makes it: at the free slot tried
      first, with a new info in the table there, and the other models and slots as before. */
  lemma CreatedAtTheFirstFreeSlot(s: State, id: uint32, slot: nat)
    requires |s.table| == TABLE_SIZE && id !in s.models && Free(s, slot)
    requires forall i: nat | i < TABLE_SIZE && TriedBefore(i, slot) :: !Free(s, i)
    ensures
      var s' := CreateModel(s, id, true);
      && s'.models == s.models[id := Entry(slot, s.nextInfo)] && s'.table == s.table[slot := Some(s.nextInfo)]
      && s'.nextInfo == s.nextInfo + 1
  {
    hide AllocateSlot, Free;
    AllocatesTheLeastFreeSlot(s);
    assert slot < TABLE_SIZE by { FreeIsInTable(s, slot); }
    var got := AllocateSlot(s);
    assert got.Some? && Free(s, got.value);
    FreeIsInTable(s, got.value);
    TriedInSomeOrder(got.value, slot);
  }

  /** Destroying a model takes it away, its slot free again, exactly when nothing uses it; and queues it otherwise. */
  lemma DestroyedIffUnused(s: State, id: uint32, slots: set<nat>)
    requires Placed(s) && id in s.models
    ensures
      var s', slot := Step(s, Destroy(id, slots)), s.models[id].slot;
      if InUse(s, id, slots) then s'.models == s.models && s'.table == s.table && Queued(s', id)
      else s'.models == s.models - {id} && Free(s', slot) && s'.queue == s.queue
    ensures Queued(Step(s, Queue(id)), id)
  {
    hide InUse;
    assert PlacedAt(s.models[id], s.table);
  }

  lemma TriedInSomeOrder(a: nat, b: nat)
    ensures a == b || TriedBefore(a, b) || TriedBefore(b, a)
  {
  }

  lemma FreeIsInTable(s: State, slot: nat)
    requires Free(s, slot)
    ensures slot < |s.table|
  {
  }

  // Slots that no custom model holds are as at first, and those that one holds were empty.
  ghost predicate Restored(table: Table, s: State) {
    && |s.table| == |table|
    && (forall i: nat :: i < |table| && !Claimed(s.models, i) ==> s.table[i] == table[i])
    && (forall i: nat :: i < |table| && Claimed(s.models, i) ==> table[i] == None)
  }

  lemma CreateRestores(table: Table, s: State, id: uint32, base: bool)
    requires Placed(s) && Restored(table, s)
    ensures Restored(table, CreateModel(s, id, base))
  {
    hide AllocateSlot;
    AllocatesTheLeastFreeSlot(s);
    var s' := CreateModel(s, id, base);
    if s' != s {
      var slot := s'.models[id].slot;
      assert forall i: nat :: Claimed(s.models, i) ==> Claimed(s'.models, i) by {
        forall i: nat | Claimed(s.models, i)
          ensures Claimed(s'.models, i)
        {
          var j :| j in s.models && s.models[j].slot == i;
          assert j in s'.models && s'.models[j].slot == i;
        }
      }
      assert Claimed(s'.models, slot);
    }
  }

  lemma DestroyRestores(table: Table, s: State, id: uint32, slots: set<nat>)
    requires Placed(s) && Restored(table, s)
    ensures Restored(table, DestroyModel(s, id, slots))
  {
    hide InUse;
    var s' := DestroyModel(s, id, slots);
    if id in s.models && !InUse(s, id, slots) {
      var slot := s.models[id].slot;
      forall i: nat
        ensures Claimed(s'.models, i) <==> Claimed(s.models, i) && i != slot
      {
        if Claimed(s.models, i) && i != slot {
          var j :| j in s.models && s.models[j].slot == i;
          assert j in s'.models && s'.models[j].slot == i;
        }
      }
      assert Claimed(s.models, slot);
    }
  }

  lemma SameRestores(table: Table, s: State, s': State)
    requires Restored(table, s) && s'.models == s.models && s'.table == s.table
    ensures Restored(table, s')
  {
  }

  lemma {:induction false} DrainRestores(table: Table, s: State, local: seq<uint32>, slots: set<nat>)
    requires Placed(s) && Restored(table, s)
    ensures Restored(table, Drain(s, local, slots))
  {
    hide Placed, Restored, InUse, DestroyModel;
    if local != [] {
      var front, last := local[..|local| - 1], local[|local| - 1];
      DrainRestores(table, s, front, slots);
      DrainPlaced(s, front, slots);
      DestroyRestores(table, Drain(s, front, slots), last, slots);
      SameRestores(table, Drain(s, front, slots), PushDestruction(Drain(s, front, slots), last));
    }
  }

  lemma ClearRestores(table: Table, s: State, slots: set<nat>)
    requires Placed(s) && Restored(table, s)
    ensures Restored(table, ClearModels(s, slots))
  {
    var s' := ClearModels(s, slots);
    forall i: nat
      ensures Claimed(s'.models, i) <==> Claimed(s.models, i) && i in slots
    {
      if Claimed(s.models, i) && i in slots {
        var j :| j in s.models && s.models[j].slot == i;
        assert j in s'.models && s'.models[j].slot == i;
      }
    }
  }

  lemma StepRestores(table: Table, s: State, op: Op)
    requires Inv(s) && Restored(table, s) && Sensible(op)
    ensures Restored(table, Step(s, op))
  {
    hide Restored, Counted, Placed, Drain, ClearModels, ClearBindings, CreateModel, DestroyModel, Increment, Decrement,
         Inv;
    assert Placed(s) by { InvPlaces(s); }
    match op
    case Create(id, base) => CreateRestores(table, s, id, base);
    case Destroy(id, slots) => DestroyRestores(table, s, id, slots);
    case Process(spawned, slots) =>
      SameRestores(table, s, s.(queue := []));
      SamePlaced(s, s.(queue := []));
      DrainRestores(table, s.(queue := []), s.queue, slots);
    case Clear(slots) =>
      ClearedBindings(table, s);
      ClearRestores(table, ClearBindings(s), slots);
    case ClearVehicles => ClearedBindings(table, s);
    case _ => SameRestores(table, s, Step(s, op));
  }

  lemma InvPlaces(s: State)
    requires Inv(s)
    ensures Placed(s)
  {
  }

  lemma ClearedBindings(table: Table, s: State)
    requires Placed(s) && Restored(table, s)
    ensures Placed(ClearBindings(s)) && Restored(table, ClearBindings(s))
  {
    hide Placed, Restored, DecrementAll;
    SamePlaced(s, ClearBindings(s));
    SameRestores(table, s, ClearBindings(s));
  }

  lemma {:induction false} RunRestores(table: Table, ops: seq<Op>)
    requires |table| == TABLE_SIZE && forall i | 0 <= i < |ops| :: Sensible(ops[i])
    ensures Inv(Run(Initial(table), ops)) && Restored(table, Run(Initial(table), ops))
  {
    hide Inv, Restored, Step, Sensible;
    InitialInv(table);
    RunInv(Initial(table), ops);
    if ops == [] {
      StartsRestored(table);
    } else {
      RunRestores(table, ops[..|ops| - 1]);
      assert Sensible(ops[|ops| - 1]);
      StepRestores(table, Run(Initial(table), ops[..|ops| - 1]), ops[|ops| - 1]);
    }
  }

  lemma StartsRestored(table: Table)
    requires |table| == TABLE_SIZE
    ensures Restored(table, Initial(table))
  {
  }

  /** Over every run the engine's table of models is the one at first, but for the slots of the custom models
      there are: those were empty, and hold the models' infos. */
  lemma TableIsPutBack(table: Table, ops: seq<Op>, i: nat)
    requires |table| == TABLE_SIZE && i < TABLE_SIZE && forall j | 0 <= j < |ops| :: Sensible(ops[j])
    ensures
      var s := Run(Initial(table), ops);
      && |s.table| == TABLE_SIZE
      && (!Claimed(s.models, i) ==> s.table[i] == table[i])
      && (forall id :: id in s.models && s.models[id].slot == i ==>
            table[i] == None && s.table[i] == Some(s.models[id].info))
  {
    hide Run, Counted;
    RunRestores(table, ops);
  }
}
