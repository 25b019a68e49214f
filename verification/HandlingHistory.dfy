/** Which overrides there are, told from the operations alone; and that no record leaks. */
module HandlingHistory {
  import opened Common
  import opened HandlingState
  import opened HandlingPrecedence
  import opened HandlingFates

  // ---- what the operations say ----

  // The last operation about it that sets or clears it, sets it.
  ghost predicate Standing(ops: seq<Op>, sets: Op -> bool, clears: Op -> bool) {
    exists i | 0 <= i < |ops| :: sets(ops[i]) && forall j | i < j < |ops| :: !clears(ops[j])
  }

  lemma StandingSnoc(ops: seq<Op>, sets: Op -> bool, clears: Op -> bool)
    requires ops != []
    ensures
      var front, last := ops[..|ops| - 1], ops[|ops| - 1];
      Standing(ops, sets, clears) <==> sets(last) || (Standing(front, sets, clears) && !clears(last))
  {
    var front, last := ops[..|ops| - 1], ops[|ops| - 1];
    assert forall i | 0 <= i < |front| :: front[i] == ops[i];
    if Standing(front, sets, clears) && !clears(last) {
      var i :| 0 <= i < |front| && sets(front[i]) && forall j | i < j < |front| :: !clears(front[j]);
      assert sets(ops[i]);
    }
    if Standing(ops, sets, clears) {
      var i :| 0 <= i < |ops| && sets(ops[i]) && forall j | i < j < |ops| :: !clears(ops[j]);
      assert i < |front| ==> sets(front[i]);
    }
  }

  function ModsOf(v: uint16): Op -> bool { (op: Op) => op.VehicleMods? && op.v == v }

  function Is(one: Op): Op -> bool { (op: Op) => op == one }

  function PlayerModsOf(p: uint16): Op -> bool { (op: Op) => op.PlayerMods? && op.p == p }

  // The vehicle was modified while it was there, and not reset since.
  ghost predicate HasOwn(w: World, ops: seq<Op>, v: uint16) {
    v in w.vehicles && Standing(ops, ModsOf(v), Is(ResetV(v)))
  }

  ghost predicate HasModel(w: World, ops: seq<Op>, m: uint16) {
    m in w.infos && Standing(ops, Is(ModelMods(m)), Is(ResetM(m)))
  }

  ghost predicate HasPlayer(ops: seq<Op>, p: uint16) {
    Standing(ops, PlayerModsOf(p), Is(ResetP(p)))
  }

  // The operation tries to apply p's handling to v.
  predicate Tries(op: Op, v: uint16) { (op.PlayerMods? && op.at == Some(v)) || (op.ApplyPlayer? && op.v == v) }

  // Whose handling is applied to v: that of the first to try while v was free, until it is taken off.
  ghost function AppliedTo(w: World, ops: seq<Op>, v: uint16): Option<uint16> {
    if ops == [] then None
    else
      var front, op := ops[..|ops| - 1], ops[|ops| - 1];
      match AppliedTo(w, front, v)
      case Some(p) => if op == RemovePlayer(p, v) || op == ResetP(p) then None else Some(p)
      case None =>
        if Tries(op, v) && v in w.vehicles && !HasOwn(w, front, v) && HasPlayer(ops, op.p) then Some(op.p) else None
  }

  // The entries queued for a vehicle that is not there, in order, since it was last reset.
  function QueuedFor(w: World, ops: seq<Op>, v: uint16): Option<seq<Attrib>> {
    if ops == [] || v in w.vehicles then None
    else
      var before, op := QueuedFor(w, ops[..|ops| - 1], v), ops[|ops| - 1];
      if op == ResetV(v) then None
      else if op.VehicleMods? && op.v == v then Some((if before.Some? then before.value else []) + op.entries)
      else before
  }

  // ---- and so it is ----

  function PlayerOn(s: State, v: uint16): Option<uint16> { if v in s.applied then Some(s.applied[v].player) else None }

  function PendingFor(s: State, v: uint16): Option<seq<Attrib>> { if v in s.pending then Some(s.pending[v]) else None }

  // What the operations about vehicles, about models and about players leave alone.

  predicate SameModels(s: State, s': State) { s'.modelH == s.modelH }

  predicate SameVehicles(s: State, s': State) { s'.vehicleH == s.vehicleH && s'.pending == s.pending }

  predicate SamePlayers(s: State, s': State) { s'.playerH == s.playerH }

  predicate SameApplied(s: State, s': State) { s'.applied == s.applied }

  lemma VehicleModsKeep(w: World, s: State, v: uint16, entries: seq<Attrib>)
    ensures
      var s' := ProcessVehicleMods(w, s, v, entries);
      SameModels(s, s') && SamePlayers(s, s') && SameApplied(s, s')
  {
  }

  lemma ResetVehicleKeeps(w: World, s: State, v: uint16)
    ensures
      var s' := ResetVehicle(w, s, v);
      SameModels(s, s') && SamePlayers(s, s') && SameApplied(s, s')
  {
    hide Fallback;
  }

  lemma ModelModsKeep(w: World, s: State, m: uint16)
    ensures
      var s' := ProcessModelMods(w, s, m);
      SameVehicles(s, s') && SamePlayers(s, s') && SameApplied(s, s')
  {
    hide Repointed;
  }

  lemma ResetModelKeeps(w: World, s: State, m: uint16)
    ensures
      var s' := ResetModel(w, s, m);
      SameVehicles(s, s') && SamePlayers(s, s') && SameApplied(s, s')
  {
    hide Repointed;
  }

  lemma ApplyingKeeps(w: World, s: State, p: uint16, v: uint16)
    ensures
      var s' := ApplyPlayerHandling(w, s, p, v);
      SameVehicles(s, s') && SameModels(s, s') && SamePlayers(s, s')
    ensures
      var s' := RemovePlayerHandling(w, s, p, v);
      SameVehicles(s, s') && SameModels(s, s') && SamePlayers(s, s')
  {
    hide ModelOrDefault;
  }

  lemma PlayerModsKeep(w: World, s: State, p: uint16, at: Option<uint16>)
    ensures
      var s' := ProcessPlayerMods(w, s, p, at);
      SameVehicles(s, s') && SameModels(s, s')
  {
    hide ApplyPlayerHandling;
    if at.Some? {
      var s1 := if p in s.playerH then s else Alloc(s).0.(playerH := s.playerH[p := Alloc(s).1]);
      ApplyingKeeps(w, s1, p, at.value);
    }
  }

  lemma ResetPlayerKeeps(w: World, s: State, p: uint16)
    ensures
      var s' := ResetPlayerHandling(w, s, p);
      SameVehicles(s, s') && SameModels(s, s')
  {
    hide ModelOrDefault, AppliedBy;
  }

  lemma OtherLayersStay(w: World, s: State, op: Op)
    ensures
      var s' := Step(w, s, op);
      && (!op.VehicleMods? && !op.ResetV? ==> s'.vehicleH == s.vehicleH && s'.pending == s.pending)
      && (!op.ModelMods? && !op.ResetM? ==> s'.modelH == s.modelH)
      && (!op.PlayerMods? && !op.ResetP? ==> s'.playerH == s.playerH)
      && (op.VehicleMods? || op.ModelMods? || op.ResetV? || op.ResetM? ==> s'.applied == s.applied)
  {
    hide ProcessVehicleMods, ProcessModelMods, ProcessPlayerMods, ApplyPlayerHandling, RemovePlayerHandling,
         ResetVehicle, ResetModel, ResetPlayerHandling;
    match op
    case VehicleMods(v, entries) => VehicleModsKeep(w, s, v, entries);
    case ModelMods(m) => ModelModsKeep(w, s, m);
    case PlayerMods(p, at) => PlayerModsKeep(w, s, p, at);
    case ApplyPlayer(p, v) => ApplyingKeeps(w, s, p, v);
    case RemovePlayer(p, v) => ApplyingKeeps(w, s, p, v);
    case ResetV(v) => ResetVehicleKeeps(w, s, v);
    case ResetM(m) => ResetModelKeeps(w, s, m);
    case ResetP(p) => ResetPlayerKeeps(w, s, p);
  }

  lemma OwnStep(w: World, s: State, op: Op, v: uint16)
    ensures
      v in Step(w, s, op).vehicleH <==>
        (op.VehicleMods? && op.v == v && v in w.vehicles) || (v in s.vehicleH && op != ResetV(v))
  {
    hide ProcessModelMods, ProcessPlayerMods, ApplyPlayerHandling, RemovePlayerHandling, ResetModel,
         ResetPlayerHandling, Fallback;
    OtherLayersStay(w, s, op);
  }

  lemma ModelStep(w: World, s: State, op: Op, m: uint16)
    ensures m in Step(w, s, op).modelH <==> (op == ModelMods(m) && m in w.infos) || (m in s.modelH && op != ResetM(m))
  {
    hide Repointed, ProcessVehicleMods, ProcessPlayerMods, ApplyPlayerHandling, RemovePlayerHandling, ResetVehicle,
         ResetPlayerHandling;
    OtherLayersStay(w, s, op);
  }

  lemma PlayerStep(w: World, s: State, op: Op, p: uint16)
    ensures p in Step(w, s, op).playerH <==> (op.PlayerMods? && op.p == p) || (p in s.playerH && op != ResetP(p))
  {
    hide ProcessVehicleMods, ProcessModelMods, RemovePlayerHandling, ResetVehicle, ResetModel, ModelOrDefault,
         AppliedBy;
    OtherLayersStay(w, s, op);
  }

  lemma PendingStep(w: World, s: State, op: Op, v: uint16)
    ensures PendingFor(Step(w, s, op), v) ==
      if op == ResetV(v) then None
      else if op.VehicleMods? && op.v == v && v !in w.vehicles then
        Some((if v in s.pending then s.pending[v] else []) + op.entries)
      else PendingFor(s, v)
  {
    hide ProcessModelMods, ProcessPlayerMods, ApplyPlayerHandling, RemovePlayerHandling, ResetModel,
         ResetPlayerHandling, Fallback;
    OtherLayersStay(w, s, op);
  }

  lemma AppliedStep(w: World, s: State, op: Op, v: uint16)
    requires Known(w, s)
    ensures PlayerOn(Step(w, s, op), v) ==
      match PlayerOn(s, v)
      case Some(p) => if op == RemovePlayer(p, v) || op == ResetP(p) then None else Some(p)
      case None =>
        if Tries(op, v) && v in w.vehicles && v !in s.vehicleH && (op.PlayerMods? || op.p in s.playerH) then Some(op.p)
        else None
  {
    hide Known, ProcessVehicleMods, ProcessModelMods, ProcessPlayerMods, ApplyPlayerHandling, RemovePlayerHandling,
         ResetVehicle, ResetModel, ResetPlayerHandling;
    OtherLayersStay(w, s, op);
    match op
    case PlayerMods(p, at) => PlayerModsApplied(w, s, p, at, v);
    case ApplyPlayer(p, u) => ApplyApplied(w, s, p, u, v);
    case RemovePlayer(p, u) => KnownVehicle(w, s, v); RemoveApplied(w, s, p, u, v);
    case ResetP(p) => KnownVehicle(w, s, v); ResetApplied(w, s, p, v);
    case _ =>
  }

  lemma KnownVehicle(w: World, s: State, v: uint16)
    requires Known(w, s)
    ensures v in s.applied ==> v in w.vehicles && s.applied[v].player in s.playerH
  {
  }

  lemma ApplyApplied(w: World, s: State, p: uint16, u: uint16, v: uint16)
    ensures PlayerOn(ApplyPlayerHandling(w, s, p, u), v) ==
      if u == v && v !in s.applied && v in w.vehicles && v !in s.vehicleH && p in s.playerH then Some(p)
      else PlayerOn(s, v)
  {
  }

  lemma PlayerModsApplied(w: World, s: State, p: uint16, at: Option<uint16>, v: uint16)
    ensures PlayerOn(ProcessPlayerMods(w, s, p, at), v) ==
      if at == Some(v) && v !in s.applied && v in w.vehicles && v !in s.vehicleH then Some(p) else PlayerOn(s, v)
  {
    hide ApplyPlayerHandling;
    if at.Some? {
      var s1 := if p in s.playerH then s else Alloc(s).0.(playerH := s.playerH[p := Alloc(s).1]);
      ApplyApplied(w, s1, p, at.value, v);
    }
  }

  lemma RemoveApplied(w: World, s: State, p: uint16, u: uint16, v: uint16)
    requires v in s.applied ==> v in w.vehicles
    ensures PlayerOn(RemovePlayerHandling(w, s, p, u), v) ==
      if u == v && PlayerOn(s, v) == Some(p) then None else PlayerOn(s, v)
  {
    hide ModelOrDefault;
  }

  lemma ResetApplied(w: World, s: State, p: uint16, v: uint16)
    requires v in s.applied ==> s.applied[v].player in s.playerH
    ensures PlayerOn(ResetPlayerHandling(w, s, p), v) == if PlayerOn(s, v) == Some(p) then None else PlayerOn(s, v)
  {
    hide ModelOrDefault;
  }

  ghost predicate Told(w: World, ops: seq<Op>, s: State) {
    && (forall v :: v in s.vehicleH <==> HasOwn(w, ops, v))
    && (forall m :: m in s.modelH <==> HasModel(w, ops, m))
    && (forall p :: p in s.playerH <==> HasPlayer(ops, p))
    && (forall v :: PlayerOn(s, v) == AppliedTo(w, ops, v))
    && (forall v :: PendingFor(s, v) == QueuedFor(w, ops, v))
  }

  lemma TellsOwn(w: World, ops: seq<Op>, s: State, v: uint16)
    requires ops != [] && (v in s.vehicleH <==> HasOwn(w, ops[..|ops| - 1], v))
    ensures v in Step(w, s, ops[|ops| - 1]).vehicleH <==> HasOwn(w, ops, v)
  {
    hide Step, Standing;
    OwnStep(w, s, ops[|ops| - 1], v);
    StandingSnoc(ops, ModsOf(v), Is(ResetV(v)));
  }

  lemma TellsModel(w: World, ops: seq<Op>, s: State, m: uint16)
    requires ops != [] && (m in s.modelH <==> HasModel(w, ops[..|ops| - 1], m))
    ensures m in Step(w, s, ops[|ops| - 1]).modelH <==> HasModel(w, ops, m)
  {
    hide Step, Standing;
    ModelStep(w, s, ops[|ops| - 1], m);
    StandingSnoc(ops, Is(ModelMods(m)), Is(ResetM(m)));
  }

  lemma TellsPlayer(w: World, ops: seq<Op>, s: State, p: uint16)
    requires ops != [] && (p in s.playerH <==> HasPlayer(ops[..|ops| - 1], p))
    ensures p in Step(w, s, ops[|ops| - 1]).playerH <==> HasPlayer(ops, p)
  {
    hide Step, Standing;
    PlayerStep(w, s, ops[|ops| - 1], p);
    StandingSnoc(ops, PlayerModsOf(p), Is(ResetP(p)));
  }

  lemma TellsApplied(w: World, ops: seq<Op>, s: State, v: uint16)
    requires Known(w, s) && ops != [] && Told(w, ops[..|ops| - 1], s)
    ensures PlayerOn(Step(w, s, ops[|ops| - 1]), v) == AppliedTo(w, ops, v)
  {
    hide Step, Standing, HasOwn, HasModel, HasPlayer, QueuedFor, Known;
    var front, op := ops[..|ops| - 1], ops[|ops| - 1];
    AppliedStep(w, s, op, v);
    if Tries(op, v) {
      PlayerStep(w, s, op, op.p);
      TellsPlayer(w, ops, s, op.p);
      assert op.p in s.playerH <==> HasPlayer(front, op.p);
    }
  }

  /** Over every run from no overrides: a vehicle has an override of its own, a model one, and a player
      one, exactly when it was last modified and not reset since; a player's handling is on a vehicle
      exactly when he was the first to be applied while it had neither, and has not been removed or
      reset since; and what is queued for a vehicle is all that came since its last reset, in order. */
  lemma {:induction false} OverridesFollowTheHistory(w: World, ops: seq<Op>)
    requires Sane(w)
    ensures Told(w, ops, Run(w, Initial(w), ops))
  {
    hide Step, Standing, HasOwn, HasModel, HasPlayer, AppliedTo, QueuedFor, PlayerOn, PendingFor;
    if ops == [] {
      NothingToTell(w);
    } else {
      var front, op := ops[..|ops| - 1], ops[|ops| - 1];
      OverridesFollowTheHistory(w, front);
      RunLoose(w, front);
      var s := Run(w, Initial(w), front);
      forall v: uint16
        ensures v in Step(w, s, op).vehicleH <==> HasOwn(w, ops, v)
        ensures v in Step(w, s, op).modelH <==> HasModel(w, ops, v)
        ensures v in Step(w, s, op).playerH <==> HasPlayer(ops, v)
        ensures PlayerOn(Step(w, s, op), v) == AppliedTo(w, ops, v)
        ensures PendingFor(Step(w, s, op), v) == QueuedFor(w, ops, v)
      {
        TellsOwn(w, ops, s, v);
        TellsModel(w, ops, s, v);
        TellsPlayer(w, ops, s, v);
        TellsApplied(w, ops, s, v);
        TellsPending(w, ops, s, v);
      }
    }
  }

  lemma TellsPending(w: World, ops: seq<Op>, s: State, v: uint16)
    requires ops != [] && PendingFor(s, v) == QueuedFor(w, ops[..|ops| - 1], v)
    ensures PendingFor(Step(w, s, ops[|ops| - 1]), v) == QueuedFor(w, ops, v)
  {
    hide Step;
    PendingStep(w, s, ops[|ops| - 1], v);
  }

  lemma NothingToTell(w: World)
    requires Sane(w)
    ensures Told(w, [], Initial(w))
  {
  }

  // ---- what an operation takes away it erases ----

  // Every record owned before has the same owner still, or is erased.
  ghost predicate NoneDropped(s: State, s': State) {
    && s.freed <= s'.freed
    && forall a: Slot :: AddrAt(s, a).Some? ==> AddrAt(s', a) == AddrAt(s, a) || AddrAt(s, a).value in s'.freed
  }

  ghost predicate HasOwner(s: State, x: Addr) { exists a: Slot :: AddrAt(s, a) == Some(x) }

  ghost predicate Leakless(s: State) { forall n: nat :: n < s.next ==> Heap(n) in s.freed || HasOwner(s, Heap(n)) }

  // The record that s' has more than s, if any, is at `slot`.
  predicate NewIsOwned(s: State, s': State, slot: Slot) {
    s'.next == s.next || (s'.next == s.next + 1 && AddrAt(s', slot) == Some(Heap(s.next)))
  }

  lemma StaysLeakless(s: State, s': State, slot: Slot)
    requires Leakless(s) && NoneDropped(s, s') && NewIsOwned(s, s', slot)
    ensures Leakless(s')
  {
    hide AddrAt;
    forall n: nat | n < s'.next
      ensures Heap(n) in s'.freed || HasOwner(s', Heap(n))
    {
      if n < s.next && Heap(n) !in s.freed {
        var a: Slot :| AddrAt(s, a) == Some(Heap(n));
      }
    }
  }

  // Only records of vehicles are made or erased.
  lemma VehiclesOnlyDrop(s: State, s': State)
    requires SameModels(s, s') && SamePlayers(s, s') && SameApplied(s, s') && s.freed <= s'.freed
    requires
      forall u :: u in s.vehicleH ==>
        s.vehicleH[u] in s'.freed || (u in s'.vehicleH && s'.vehicleH[u] == s.vehicleH[u])
    ensures NoneDropped(s, s')
  {
  }

  lemma VehicleModsDrop(w: World, s: State, v: uint16, entries: seq<Attrib>)
    ensures NoneDropped(s, ProcessVehicleMods(w, s, v, entries))
    ensures NewIsOwned(s, ProcessVehicleMods(w, s, v, entries), OfVehicle(v))
  {
    hide NoneDropped;
    VehicleModsKeep(w, s, v, entries);
    VehiclesOnlyDrop(s, ProcessVehicleMods(w, s, v, entries));
  }

  lemma ModelModsDrop(w: World, s: State, m: uint16)
    ensures NoneDropped(s, ProcessModelMods(w, s, m)) && NewIsOwned(s, ProcessModelMods(w, s, m), OfModel(m))
  {
    hide Repointed;
  }

  lemma ApplyPlayerDrop(w: World, s: State, p: uint16, v: uint16)
    ensures NoneDropped(s, ApplyPlayerHandling(w, s, p, v))
    ensures NewIsOwned(s, ApplyPlayerHandling(w, s, p, v), OfApplied(v))
  {
  }

  lemma NewPlayerDrops(s: State, p: uint16)
    requires p !in s.playerH
    ensures
      var s1 := Alloc(s).0.(playerH := s.playerH[p := Alloc(s).1]);
      NoneDropped(s, s1) && NewIsOwned(s, s1, OfPlayer(p))
  {
  }

  lemma RemovePlayerDrop(w: World, s: State, p: uint16, v: uint16)
    ensures NoneDropped(s, RemovePlayerHandling(w, s, p, v)) && RemovePlayerHandling(w, s, p, v).next == s.next
  {
    hide ModelOrDefault;
  }

  lemma ResetVehicleDrop(w: World, s: State, v: uint16)
    ensures NoneDropped(s, ResetVehicle(w, s, v)) && ResetVehicle(w, s, v).next == s.next
  {
    hide NoneDropped, Fallback;
    ResetVehicleKeeps(w, s, v);
    VehiclesOnlyDrop(s, ResetVehicle(w, s, v));
  }

  lemma ResetModelDrop(w: World, s: State, m: uint16)
    ensures NoneDropped(s, ResetModel(w, s, m)) && ResetModel(w, s, m).next == s.next
  {
    hide Repointed;
  }

  lemma ResetPlayerDrop(w: World, s: State, p: uint16)
    ensures NoneDropped(s, ResetPlayerHandling(w, s, p)) && ResetPlayerHandling(w, s, p).next == s.next
  {
    hide ModelOrDefault;
  }

  lemma DroppedTwice(s: State, s1: State, s2: State)
    requires NoneDropped(s, s1) && NoneDropped(s1, s2)
    ensures NoneDropped(s, s2)
  {
    hide AddrAt;
  }

  lemma PlayerModsDrop(w: World, s: State, p: uint16, at: Option<uint16>)
    ensures NoneDropped(s, ProcessPlayerMods(w, s, p, at))
    ensures Leakless(s) ==> Leakless(ProcessPlayerMods(w, s, p, at))
  {
    hide NoneDropped, NewIsOwned, Leakless, ApplyPlayerHandling;
    var s1 := if p in s.playerH then s else Alloc(s).0.(playerH := s.playerH[p := Alloc(s).1]);
    assert NoneDropped(s, s) by { DropsNothing(s); }
    if p !in s.playerH {
      NewPlayerDrops(s, p);
      if Leakless(s) {
        StaysLeakless(s, s1, OfPlayer(p));
      }
    }
    if at.Some? {
      ApplyPlayerDrop(w, s1, p, at.value);
      DroppedTwice(s, s1, ApplyPlayerHandling(w, s1, p, at.value));
      if Leakless(s) {
        StaysLeakless(s1, ApplyPlayerHandling(w, s1, p, at.value), OfApplied(at.value));
      }
    }
  }

  lemma DropsNothing(s: State)
    ensures NoneDropped(s, s)
  {
  }

  lemma NothingNew(s: State, s': State)
    requires NoneDropped(s, s') && s'.next == s.next
    ensures Leakless(s) ==> Leakless(s')
  {
    hide NoneDropped, Leakless, AddrAt;
    LeaklessAfter(s, s', OfPlayer(0));
  }

  lemma StepDropsNone(w: World, s: State, op: Op)
    ensures NoneDropped(s, Step(w, s, op))
    ensures Leakless(s) ==> Leakless(Step(w, s, op))
  {
    hide NoneDropped, NewIsOwned, Leakless, ProcessVehicleMods, ProcessModelMods, ProcessPlayerMods,
         ApplyPlayerHandling, RemovePlayerHandling, ResetVehicle, ResetModel, ResetPlayerHandling;
    match op
    case VehicleMods(v, entries) => VehicleModsDrop(w, s, v, entries); LeaklessAfter(s, Step(w, s, op), OfVehicle(v));
    case ModelMods(m) => ModelModsDrop(w, s, m); LeaklessAfter(s, Step(w, s, op), OfModel(m));
    case PlayerMods(p, at) => PlayerModsDrop(w, s, p, at);
    case ApplyPlayer(p, v) => ApplyPlayerDrop(w, s, p, v); LeaklessAfter(s, Step(w, s, op), OfApplied(v));
    case RemovePlayer(p, v) => RemovePlayerDrop(w, s, p, v); NothingNew(s, Step(w, s, op));
    case ResetV(v) => ResetVehicleDrop(w, s, v); NothingNew(s, Step(w, s, op));
    case ResetM(m) => ResetModelDrop(w, s, m); NothingNew(s, Step(w, s, op));
    case ResetP(p) => ResetPlayerDrop(w, s, p); NothingNew(s, Step(w, s, op));
  }

  lemma LeaklessAfter(s: State, s': State, slot: Slot)
    requires NoneDropped(s, s') && NewIsOwned(s, s', slot)
    ensures Leakless(s) ==> Leakless(s')
  {
    hide NoneDropped, NewIsOwned, Leakless;
    if Leakless(s) {
      StaysLeakless(s, s', slot);
    }
  }

  lemma {:induction false} RunLeakless(w: World, ops: seq<Op>)
    requires Sane(w)
    ensures Leakless(Run(w, Initial(w), ops))
  {
    hide Step, Leakless;
    if ops == [] {
      assert Leakless(Initial(w)) by { NoRecordsYet(w); }
    } else {
      RunLeakless(w, ops[..|ops| - 1]);
      StepDropsNone(w, Run(w, Initial(w), ops[..|ops| - 1]), ops[|ops| - 1]);
    }
  }

  lemma NoRecordsYet(w: World)
    requires Sane(w)
    ensures Leakless(Initial(w))
  {
  }

  /** Over every run, each record made so far either has one owner and is not erased, or is erased and
      has none: nothing leaks, and nothing is erased that is in use. */
  lemma RecordsDoNotLeak(w: World, ops: seq<Op>, n: nat)
    requires Sane(w)
    ensures
      var s := Run(w, Initial(w), ops);
      && (n < s.next ==> (Heap(n) in s.freed <==> !HasOwner(s, Heap(n))))
      && (n >= s.next ==> Heap(n) !in s.freed && !HasOwner(s, Heap(n)))
      && (forall a: Slot, b: Slot :: AddrAt(s, a) == AddrAt(s, b) == Some(Heap(n)) ==> a == b)
  {
    hide Run, AddrAt;
    RunLeakless(w, ops);
    RunLoose(w, ops);
    assert Owned(Run(w, Initial(w), ops));
  }

  // ---- what a vehicle points to ----

  /** Over every run, a vehicle without an override of its own points to the copy of the player applied to
      it, or else to its model's override, or else to its model's default: whichever the operations left. */
  lemma HistoryDecidesThePointer(w: World, ops: seq<Op>, v: uint16)
    requires Sane(w) && v in w.vehicles && !HasOwn(w, ops, v)
    ensures
      var s, m := Run(w, Initial(w), ops), w.vehicles[v];
      v in s.ptr &&
      if AppliedTo(w, ops, v).Some? then v in s.applied && s.ptr[v] == s.applied[v].addr
      else if HasModel(w, ops, m) then m in s.modelH && s.ptr[v] == s.modelH[m]
      else s.ptr[v] == Static(w.infos[m])
  {
    hide Run, HasOwn, HasModel, HasPlayer, AppliedTo, QueuedFor, Owned, Known;
    RunLoose(w, ops);
    OverridesFollowTheHistory(w, ops);
    var s := Run(w, Initial(w), ops);
    assert v !in s.vehicleH && Right(w, s, v);
    assert PlayerOn(s, v) == AppliedTo(w, ops, v);
    assert w.vehicles[v] in s.modelH <==> HasModel(w, ops, w.vehicles[v]);
  }

  /** Removing the player's handling from a vehicle it is on erases the copy, and the vehicle points to its
      own override, or else to its model's, or else to the default. */
  lemma RemovalTakesItOff(w: World, s: State, p: uint16, v: uint16)
    requires Sane(w) && Loose(w, s) && v in s.applied && s.applied[v].player == p
    ensures
      var s', m := Step(w, s, RemovePlayer(p, v)), w.vehicles[v];
      && v !in s'.applied && s.applied[v].addr in s'.freed && v in s'.ptr
      && s'.ptr[v] == (if v in s.vehicleH then s.vehicleH[v]
                       else if m in s.modelH then s.modelH[m] else Static(w.infos[m]))
      && (forall u :: u in w.vehicles && u != v ==> u in s'.ptr && s'.ptr[u] == s.ptr[u])
  {
    hide Owned;
  }
}
