/** Custom models from creation to destruction: bindings and use counts, the engine's model-info
    table, and the queue of models to destroy. Each operation as a function of the state; which
    table slots vehicles of the world use at that moment is a parameter. */
module LifetimeState {
  import opened Common

  const CUSTOM_MODEL_BASE_ID: nat := 20000
  const TABLE_SIZE: nat := 20000        // TOTAL_GTA_MODEL_COUNT
  const PREFERRED_BASE: nat := 11000

  datatype Entry = Entry(slot: nat, info: nat)

  type Table = seq<Option<nat>>

  datatype State = State(
    bindings: map<uint16, uint32>,   // vehicle -> customModelId, 0 in a binding a setter made
    uses: map<uint32, int>,          // m_modelUseCount
    cached: map<nat, uint16>,        // m_vehicleToSAMPIdCache, by vehicle
    models: map<uint32, Entry>,      // s_customModels
    table: Table,                    // the engine's model-info pointers
    queue: seq<uint32>,              // m_destructionQueue
    nextInfo: nat)                   // names the next model info

  // ---- use counts ----

  type Uses = map<uint32, int>

  function UsesOf(uses: Uses, m: uint32): int { if m in uses then uses[m] else 0 }

  function Increment(uses: Uses, m: uint32): Uses { uses[m := UsesOf(uses, m) + 1] }

  function Decrement(uses: Uses, m: uint32): Uses {
    if m !in uses then uses else if uses[m] - 1 == 0 then uses - {m} else uses[m := uses[m] - 1]
  }

  // ---- bindings ----

  type Bindings = map<uint16, uint32>

  function BoundTo(bindings: Bindings, m: uint32): set<uint16> { set v | v in bindings && bindings[v] == m }

  function Bind(s: State, v: uint16, m: uint32): State {
    if v in s.bindings && s.bindings[v] == m then s
    else
      var uses := if v in s.bindings && s.bindings[v] > 0 then Decrement(s.uses, s.bindings[v]) else s.uses;
      s.(bindings := s.bindings[v := m], uses := Increment(uses, m))
  }

  function Unbind(s: State, v: uint16): State {
    if v !in s.bindings then s
    else s.(uses := Decrement(s.uses, s.bindings[v]), bindings := s.bindings - {v})
  }

  // SetVehicleStance and the other setters, on a vehicle without a binding.
  function Touch(s: State, v: uint16): State {
    if v in s.bindings then s else s.(bindings := s.bindings[v := 0])
  }

  // One entry after n decrements.
  function AfterDecrements(x: Option<int>, n: nat): Option<int> {
    if n == 0 then x
    else match AfterDecrements(x, n - 1)
      case None => None
      case Some(c) => if c - 1 == 0 then None else Some(c - 1)
  }

  function EntryOf(uses: Uses, m: uint32): Option<int> { if m in uses then Some(uses[m]) else None }

  // Every binding decremented once, in any order.
  function DecrementAll(uses: Uses, bindings: Bindings): Uses {
    map m | m in uses && AfterDecrements(Some(uses[m]), |BoundTo(bindings, m)|).Some?
      :: AfterDecrements(Some(uses[m]), |BoundTo(bindings, m)|).value
  }

  function ClearBindings(s: State): State { s.(uses := DecrementAll(s.uses, s.bindings), bindings := map[]) }

  // ---- vehicles seen in the world: counts of engine models ----

  function CacheVehicle(s: State, vehicle: nat, id: uint16, model: uint32): State {
    if vehicle in s.cached then s
    else s.(cached := s.cached[vehicle := id], uses := Increment(s.uses, model))
  }

  // `valid`: the vehicle can still be read
  function UncacheVehicle(s: State, vehicle: nat, valid: bool, model: uint32): State {
    if vehicle !in s.cached then s
    else
      var uses :=
        if !valid || model !in s.uses then s.uses
        else if s.uses[model] > 1 then s.uses[model := s.uses[model] - 1]
        else s.uses - {model};
      s.(uses := uses, cached := s.cached - {vehicle})
  }

  // ---- slots ----

  predicate Claimed(models: map<uint32, Entry>, slot: nat) { exists id :: id in models && models[id].slot == slot }

  predicate Free(s: State, slot: nat) {
    slot < |s.table| && s.table[slot] == None && !Claimed(s.models, slot)
  }

  // The first free slot of a range.
  function FirstFree(s: State, from: nat, end: nat): Option<nat>
    decreases end - from
  {
    if from >= end then None else if Free(s, from) then Some(from) else FirstFree(s, from + 1, end)
  }

  function AllocateSlot(s: State): Option<nat> {
    match FirstFree(s, PREFERRED_BASE, TABLE_SIZE)
    case Some(slot) => Some(slot)
    case None => FirstFree(s, 0, PREFERRED_BASE)
  }

  // ---- models ----

  // `base`: the visual base model exists and is a vehicle
  function CreateModel(s: State, id: uint32, base: bool): State {
    if id in s.models || !base then s
    else match AllocateSlot(s)
      case None => s
      case Some(slot) =>
        s.(models := s.models[id := Entry(slot, s.nextInfo)], nextInfo := s.nextInfo + 1,
           table := if slot < |s.table| then s.table[slot := Some(s.nextInfo)] else s.table)
  }

  predicate InUse(s: State, id: uint32, slotsInWorld: set<nat>) {
    UsesOf(s.uses, id) > 0 || (id in s.models && s.models[id].slot in slotsInWorld)
  }

  function PushDestruction(s: State, id: uint32): State { s.(queue := s.queue + [id]) }

  function Emptied(table: Table, slot: nat): Table { if slot < |table| then table[slot := None] else table }

  function DestroyModel(s: State, id: uint32, slotsInWorld: set<nat>): State {
    if id !in s.models then s
    else if InUse(s, id, slotsInWorld) then PushDestruction(s, id)
    else s.(table := Emptied(s.table, s.models[id].slot), models := s.models - {id})
  }

  function ProcessOne(s: State, id: uint32, slotsInWorld: set<nat>): State {
    if InUse(s, id, slotsInWorld) then PushDestruction(s, id) else DestroyModel(s, id, slotsInWorld)
  }

  // The local copy of the queue, worked off from the front.
  function Drain(s: State, local: seq<uint32>, slotsInWorld: set<nat>): State {
    if local == [] then s
    else ProcessOne(Drain(s, local[..|local| - 1], slotsInWorld), local[|local| - 1], slotsInWorld)
  }

  function ProcessDestructions(s: State, spawned: bool, slotsInWorld: set<nat>): State {
    if !spawned || s.queue == [] then s else Drain(s.(queue := []), s.queue, slotsInWorld)
  }

  function Kept(models: map<uint32, Entry>, slotsInWorld: set<nat>): map<uint32, Entry> {
    map id | id in models && models[id].slot in slotsInWorld :: models[id]
  }

  function ClearedTable(table: Table, models: map<uint32, Entry>, slotsInWorld: set<nat>): Table {
    seq(|table|, i requires 0 <= i < |table| =>
      if i !in slotsInWorld && Claimed(models, i) then None else table[i])
  }

  function ClearModels(s: State, slotsInWorld: set<nat>): State {
    s.(models := Kept(s.models, slotsInWorld), table := ClearedTable(s.table, s.models, slotsInWorld))
  }

  // ProcessPendingClearAll, when a clear is pending.
  function ClearAll(s: State, slotsInWorld: set<nat>): State { ClearModels(ClearBindings(s), slotsInWorld) }

  // ---- runs ----

  datatype Op =
    | BindVehicle(v: uint16, m: uint32)
    | UnbindVehicle(v: uint16)
    | TouchVehicle(v: uint16)
    | ClearVehicles
    | Cache(vehicle: nat, sampId: uint16, engineModel: uint32)
    | Uncache(vehicle: nat, valid: bool, engineModel: uint32)
    | Create(id: uint32, base: bool)
    | Queue(id: uint32)
    | Destroy(id: uint32, slots: set<nat>)
    | Process(spawned: bool, slots: set<nat>)
    | Clear(slots: set<nat>)

  function Step(s: State, op: Op): State {
    match op
    case BindVehicle(v, m) => Bind(s, v, m)
    case UnbindVehicle(v) => Unbind(s, v)
    case TouchVehicle(v) => Touch(s, v)
    case ClearVehicles => ClearBindings(s)
    case Cache(vehicle, sampId, model) => CacheVehicle(s, vehicle, sampId, model)
    case Uncache(vehicle, valid, model) => UncacheVehicle(s, vehicle, valid, model)
    case Create(id, base) => CreateModel(s, id, base)
    case Queue(id) => PushDestruction(s, id)
    case Destroy(id, slots) => DestroyModel(s, id, slots)
    case Process(spawned, slots) => ProcessDestructions(s, spawned, slots)
    case Clear(slots) => ClearAll(s, slots)
  }

  function Run(s: State, ops: seq<Op>): State {
    if ops == [] then s else Step(Run(s, ops[..|ops| - 1]), ops[|ops| - 1])
  }

  // The model index of a vehicle in the world is an index of the table.
  predicate Sensible(op: Op) {
    (op.Cache? ==> op.engineModel < TABLE_SIZE) && (op.Uncache? ==> op.engineModel < TABLE_SIZE)
  }

  // The game's own models in the table; none of ours.
  function Initial(table: Table): State
    requires |table| == TABLE_SIZE
  {
    State(map[], map[], map[], map[], table, [], 0)
  }
}
