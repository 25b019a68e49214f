/** HandlingManager's override maps and the live handling pointer of every streamed vehicle. Each
    operation as a function of the state; handling records are known by their addresses. The set of
    streamed vehicles and their models is fixed, no vehicle has a custom-model binding, and
    m_customHandlings is empty. */
module HandlingState {
  import opened Common

  // gHandlingDataMgr.m_aVehicleHandling[id], or the n-th record allocated.
  datatype Addr = Static(id: nat) | Heap(n: nat)

  datatype Applied = Applied(player: uint16, addr: Addr)

  // vehicles: the model of each streamed vehicle; infos: the handling id of each model there is.
  datatype World = World(vehicles: map<uint16, uint16>, infos: map<uint16, nat>)

  datatype Attrib = Attrib(attrib: byte, value: int)

  datatype State = State(
    vehicleH: map<uint16, Addr>,
    modelH: map<uint16, Addr>,
    playerH: map<uint16, Addr>,
    applied: map<uint16, Applied>,
    pending: map<uint16, seq<Attrib>>,
    ptr: map<uint16, Addr>,
    next: nat,           // records allocated so far
    freed: set<Addr>)    // records erased so far

  const HANDLING_IDS: nat := 210
  const MAX_SAMP_VEHICLES: nat := 2000

  // Pool ids, and a model info with a handling id for every vehicle's model.
  predicate Sane(w: World) {
    && (forall v :: v in w.vehicles ==> 1 <= v < MAX_SAMP_VEHICLES && w.vehicles[v] in w.infos)
    && (forall m :: m in w.infos ==> w.infos[m] < HANDLING_IDS)
  }

  // ---- who owns a record ----

  datatype Slot = OfVehicle(v: uint16) | OfModel(m: uint16) | OfPlayer(p: uint16) | OfApplied(v: uint16)

  function AddrAt(s: State, slot: Slot): Option<Addr> {
    match slot
    case OfVehicle(v) => if v in s.vehicleH then Some(s.vehicleH[v]) else None
    case OfModel(m) => if m in s.modelH then Some(s.modelH[m]) else None
    case OfPlayer(p) => if p in s.playerH then Some(s.playerH[p]) else None
    case OfApplied(v) => if v in s.applied then Some(s.applied[v].addr) else None
  }

  // Every record has one owner and none of the owned ones has been erased.
  ghost predicate Owned(s: State) {
    && (forall a: Slot :: AddrAt(s, a).Some? ==>
          && AddrAt(s, a).value.Heap? && AddrAt(s, a).value.n < s.next
          && AddrAt(s, a).value !in s.freed)
    && (forall a: Slot, b: Slot :: AddrAt(s, a).Some? && AddrAt(s, a) == AddrAt(s, b) ==> a == b)
    && (forall x :: x in s.freed ==> x.Heap? && x.n < s.next)
  }

  // ---- pointers ----

  // GetEngineModelInfo's handling record, after the model override.
  function ModelOrDefault(w: World, s: State, m: uint16): Addr {
    if m in s.modelH then s.modelH[m]
    else if m in w.infos && w.infos[m] < HANDLING_IDS then Static(w.infos[m])
    else Static(0)
  }

  // ResolveFallbackHandling
  function Fallback(w: World, s: State, v: uint16, m: uint16): Addr {
    if v in s.applied then s.applied[v].addr else ModelOrDefault(w, s, m)
  }

  // What the vehicle should point to: the first present of vehicle, player, model, default.
  function Chosen(w: World, s: State, v: uint16): Addr
    requires v in w.vehicles
  {
    if v in s.vehicleH then s.vehicleH[v] else Fallback(w, s, v, w.vehicles[v])
  }

  predicate Right(w: World, s: State, v: uint16)
    requires v in w.vehicles
  {
    v in s.ptr && s.ptr[v] == Chosen(w, s, v)
  }

  ghost predicate Precedence(w: World, s: State) { forall v :: v in w.vehicles ==> Right(w, s, v) }

  // Overrides are of things there are.
  ghost predicate Known(w: World, s: State) {
    && (forall v :: v in s.ptr ==> v in w.vehicles)
    && (forall v :: v in s.vehicleH ==> v in w.vehicles)
    && (forall m :: m in s.modelH ==> m in w.infos)
    && (forall v :: v in s.applied ==> v in w.vehicles && s.applied[v].player in s.playerH)
  }

  ghost predicate Inv(w: World, s: State) { Precedence(w, s) && Owned(s) && Known(w, s) }

  // ---- building blocks ----

  function Alloc(s: State): (State, Addr) { (s.(next := s.next + 1), Heap(s.next)) }

  // ApplyModelToVehicles and RevertModelToOriginal: point the model's unclaimed vehicles to a.
  function Repointed(w: World, s: State, m: uint16, a: Addr): map<uint16, Addr> {
    map v | v in s.ptr ::
      if v in w.vehicles && w.vehicles[v] == m && v !in s.vehicleH && v !in s.applied then a else s.ptr[v]
  }

  // ---- operations ----

  function ProcessVehicleMods(w: World, s: State, v: uint16, entries: seq<Attrib>): State {
    if v !in w.vehicles then
      s.(pending := s.pending[v := (if v in s.pending then s.pending[v] else []) + entries])
    else if v in s.vehicleH then s.(ptr := s.ptr[v := s.vehicleH[v]])
    else
      var (s1, a) := Alloc(s);
      s1.(vehicleH := s.vehicleH[v := a], ptr := s.ptr[v := a])
  }

  function ProcessModelMods(w: World, s: State, m: uint16): State {
    if m !in w.infos then s
    else if m in s.modelH then s.(ptr := Repointed(w, s, m, s.modelH[m]))
    else
      var (s1, a) := Alloc(s);
      s1.(modelH := s.modelH[m := a], ptr := Repointed(w, s, m, a))
  }

  // v: the vehicle passed by pointer, by its id
  function ApplyPlayerHandling(w: World, s: State, p: uint16, v: uint16): State {
    if v !in w.vehicles || v in s.vehicleH || v in s.applied || p !in s.playerH then s
    else
      var (s1, a) := Alloc(s);
      s1.(applied := s.applied[v := Applied(p, a)], ptr := s.ptr[v := a])
  }

  function RemovePlayerHandling(w: World, s: State, p: uint16, v: uint16): State {
    if v !in w.vehicles || v !in s.applied || s.applied[v].player != p then s
    else
      s.(ptr := s.ptr[v := if v in s.vehicleH then s.vehicleH[v] else ModelOrDefault(w, s, w.vehicles[v])],
         applied := s.applied - {v}, freed := s.freed + {s.applied[v].addr})
  }

  // `at`: the vehicle the local player sits in, when the packet is about the local player
  function ProcessPlayerMods(w: World, s: State, p: uint16, at: Option<uint16>): State {
    var s1 := if p in s.playerH then s else var (s1, a) := Alloc(s); s1.(playerH := s.playerH[p := a]);
    if at.Some? then ApplyPlayerHandling(w, s1, p, at.value) else s1
  }

  function ResetVehicle(w: World, s: State, v: uint16): State {
    var s0 := s.(pending := s.pending - {v});
    if v !in s.vehicleH then s0
    else
      s0.(ptr := if v in w.vehicles then s.ptr[v := Fallback(w, s, v, w.vehicles[v])] else s.ptr,
          vehicleH := s.vehicleH - {v}, freed := s.freed + {s.vehicleH[v]})
  }

  function ResetModel(w: World, s: State, m: uint16): State {
    if m !in s.modelH then s
    else
      s.(ptr := if m in w.infos then Repointed(w, s, m, Static(w.infos[m])) else s.ptr,
         modelH := s.modelH - {m}, freed := s.freed + {s.modelH[m]})
  }

  function AppliedBy(s: State, p: uint16): set<uint16> { set v | v in s.applied && s.applied[v].player == p }

  function ResetPlayerHandling(w: World, s: State, p: uint16): State {
    if p !in s.playerH then s
    else
      var vs := AppliedBy(s, p);
      s.(ptr := map v | v in s.ptr ::
                  if v in vs && v in w.vehicles then ModelOrDefault(w, s, w.vehicles[v]) else s.ptr[v],
         applied := s.applied - vs,
         playerH := s.playerH - {p},
         freed := s.freed + (set v | v in vs :: s.applied[v].addr) + {s.playerH[p]})
  }

  datatype Op =
    | VehicleMods(v: uint16, entries: seq<Attrib>)
    | ModelMods(m: uint16)
    | PlayerMods(p: uint16, at: Option<uint16>)
    | ApplyPlayer(p: uint16, v: uint16)
    | RemovePlayer(p: uint16, v: uint16)
    | ResetV(v: uint16)
    | ResetM(m: uint16)
    | ResetP(p: uint16)

  function Step(w: World, s: State, op: Op): State {
    match op
    case VehicleMods(v, entries) => ProcessVehicleMods(w, s, v, entries)
    case ModelMods(m) => ProcessModelMods(w, s, m)
    case PlayerMods(p, at) => ProcessPlayerMods(w, s, p, at)
    case ApplyPlayer(p, v) => ApplyPlayerHandling(w, s, p, v)
    case RemovePlayer(p, v) => RemovePlayerHandling(w, s, p, v)
    case ResetV(v) => ResetVehicle(w, s, v)
    case ResetM(m) => ResetModel(w, s, m)
    case ResetP(p) => ResetPlayerHandling(w, s, p)
  }

  function Run(w: World, s: State, ops: seq<Op>): State {
    if ops == [] then s else Step(w, Run(w, s, ops[..|ops| - 1]), ops[|ops| - 1])
  }

  // No override yet.
  function Initial(w: World): State
    requires Sane(w)
  {
    State(map[], map[], map[], map[], map[], map v | v in w.vehicles :: Static(w.infos[w.vehicles[v]]), 0, {})
  }
}
