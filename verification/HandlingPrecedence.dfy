/** Override precedence over whole runs, and where ResetPlayerHandling breaks it. */
module HandlingPrecedence {
  import opened Common
  import opened HandlingState

  // ---- ownership ----

  // s' owns what s owns, and a fresh record at `slot`.
  predicate Gains(s: State, s': State, slot: Slot) {
    && s'.next == s.next + 1 && s'.freed == s.freed
    && AddrAt(s, slot) == None && AddrAt(s', slot) == Some(Heap(s.next))
  }

  lemma GainOwned(s: State, s': State, slot: Slot)
    requires Owned(s) && Gains(s, s', slot)
    requires forall a: Slot :: a != slot ==> AddrAt(s', a) == AddrAt(s, a)
    ensures Owned(s')
  {
    hide AddrAt;
  }

  // s' owns what s owns but for some slots, whose records are erased.
  lemma LoseOwned(s: State, s': State, lost: Slot -> bool)
    requires Owned(s) && s'.next == s.next
    requires forall a: Slot :: AddrAt(s', a) == if lost(a) then None else AddrAt(s, a)
    requires forall x :: x in s'.freed ==> x in s.freed || exists a: Slot :: lost(a) && AddrAt(s, a) == Some(x)
    ensures Owned(s')
  {
    hide AddrAt;
  }

  lemma SameOwned(s: State, s': State)
    requires Owned(s)
    requires s'.vehicleH == s.vehicleH && s'.modelH == s.modelH && s'.playerH == s.playerH && s'.applied == s.applied
    requires s'.next == s.next && s'.freed == s.freed
    ensures Owned(s')
  {
    assert forall a: Slot :: AddrAt(s', a) == AddrAt(s, a);
  }

  // ---- one step: owners ----

  lemma VehicleModsOwned(w: World, s: State, v: uint16, entries: seq<Attrib>)
    requires Owned(s)
    ensures Owned(ProcessVehicleMods(w, s, v, entries))
  {
    hide Owned;
    var s' := ProcessVehicleMods(w, s, v, entries);
    if v in w.vehicles && v !in s.vehicleH {
      GainOwned(s, s', OfVehicle(v));
    } else {
      SameOwned(s, s');
    }
  }

  lemma ModelModsOwned(w: World, s: State, m: uint16)
    requires Owned(s)
    ensures Owned(ProcessModelMods(w, s, m))
  {
    hide Owned;
    var s' := ProcessModelMods(w, s, m);
    if m in w.infos && m !in s.modelH {
      GainOwned(s, s', OfModel(m));
    } else {
      SameOwned(s, s');
    }
  }

  lemma ApplyPlayerOwned(w: World, s: State, p: uint16, v: uint16)
    requires Owned(s)
    ensures Owned(ApplyPlayerHandling(w, s, p, v))
  {
    hide Owned;
    var s' := ApplyPlayerHandling(w, s, p, v);
    if s' != s {
      GainOwned(s, s', OfApplied(v));
    } else {
      SameOwned(s, s');
    }
  }

  lemma RemovePlayerOwned(w: World, s: State, p: uint16, v: uint16)
    requires Owned(s)
    ensures Owned(RemovePlayerHandling(w, s, p, v))
  {
    hide Owned;
    var s' := RemovePlayerHandling(w, s, p, v);
    if s' != s {
      var slot := OfApplied(v);
      assert AddrAt(s, slot) == Some(s.applied[v].addr);
      LoseOwned(s, s', a => a == slot);
    } else {
      SameOwned(s, s');
    }
  }

  lemma ResetVehicleOwned(w: World, s: State, v: uint16)
    requires Owned(s)
    ensures Owned(ResetVehicle(w, s, v))
  {
    hide Owned;
    var s' := ResetVehicle(w, s, v);
    if v in s.vehicleH {
      var slot := OfVehicle(v);
      assert AddrAt(s, slot) == Some(s.vehicleH[v]);
      LoseOwned(s, s', a => a == slot);
    } else {
      SameOwned(s, s');
    }
  }

  lemma ResetModelOwned(w: World, s: State, m: uint16)
    requires Owned(s)
    ensures Owned(ResetModel(w, s, m))
  {
    hide Owned;
    var s' := ResetModel(w, s, m);
    if m in s.modelH {
      var slot := OfModel(m);
      assert AddrAt(s, slot) == Some(s.modelH[m]);
      LoseOwned(s, s', a => a == slot);
    } else {
      SameOwned(s, s');
    }
  }

  lemma PlayerModsOwned(w: World, s: State, p: uint16, at: Option<uint16>)
    requires Owned(s)
    ensures Owned(ProcessPlayerMods(w, s, p, at))
  {
    hide Owned, ApplyPlayerHandling;
    var s1 := if p in s.playerH then s else Alloc(s).0.(playerH := s.playerH[p := Alloc(s).1]);
    if p !in s.playerH {
      GainOwned(s, s1, OfPlayer(p));
    }
    if at.Some? {
      ApplyPlayerOwned(w, s1, p, at.value);
    }
  }

  // ---- ResetPlayerHandling ----

  // Some vehicle has an override of its own and one applied by p.
  predicate Shadowed(s: State, p: uint16) {
    exists v :: v in s.vehicleH && v in s.applied && s.applied[v].player == p
  }

  lemma ResetPlayerOwned(w: World, s: State, p: uint16)
    requires Owned(s)
    ensures Owned(ResetPlayerHandling(w, s, p))
  {
    hide Owned;
    var s' := ResetPlayerHandling(w, s, p);
    if p in s.playerH {
      var vs := AppliedBy(s, p);
      var lost := (a: Slot) => a == OfPlayer(p) || (a.OfApplied? && a.v in vs);
      forall x | x in s'.freed && x !in s.freed
        ensures exists a: Slot :: lost(a) && AddrAt(s, a) == Some(x)
      {
        if x == s.playerH[p] {
          assert lost(OfPlayer(p)) && AddrAt(s, OfPlayer(p)) == Some(x);
        } else {
          var v :| v in vs && s.applied[v].addr == x;
          assert lost(OfApplied(v)) && AddrAt(s, OfApplied(v)) == Some(x);
        }
      }
      LoseOwned(s, s', lost);
    }
  }

  /** ResetPlayerHandling sends every vehicle of the player to its model's handling, whether or not
      the vehicle has an override of its own. So it keeps the precedence exactly when no vehicle
      has both. */
  lemma ResetPlayerKeepsIff(w: World, s: State, p: uint16)
    requires Sane(w) && Inv(w, s) && p in s.playerH
    ensures Inv(w, ResetPlayerHandling(w, s, p)) <==> !Shadowed(s, p)
  {
    hide Right, Chosen, Owned, ResetPlayerHandling;
    ResetPlayerOwned(w, s, p);
    ResetPlayerKnown(w, s, p);
    var s' := ResetPlayerHandling(w, s, p);
    forall v | v in w.vehicles
      ensures Right(w, s', v) <==> !(v in s.vehicleH && v in s.applied && s.applied[v].player == p)
    {
      ResetPlayerAt(w, s, p, v);
    }
  }

  lemma ResetPlayerAt(w: World, s: State, p: uint16, v: uint16)
    requires v in w.vehicles && Right(w, s, v) && p in s.playerH && Owned(s)
    ensures Right(w, ResetPlayerHandling(w, s, p), v)
       <==> !(v in s.vehicleH && v in s.applied && s.applied[v].player == p)
  {
    hide Owned;
    if v in s.vehicleH {
      OverrideIsNotModels(w, s, v, w.vehicles[v]);
    }
  }

  lemma ResetPlayerKnown(w: World, s: State, p: uint16)
    requires Known(w, s)
    ensures Known(w, ResetPlayerHandling(w, s, p))
  {
  }

  lemma OverrideIsNotModels(w: World, s: State, v: uint16, m: uint16)
    requires Owned(s) && v in s.vehicleH
    ensures ModelOrDefault(w, s, m) != s.vehicleH[v]
  {
    assert AddrAt(s, OfVehicle(v)) == Some(s.vehicleH[v]);
    if m in s.modelH {
      assert AddrAt(s, OfModel(m)) == Some(s.modelH[m]);
    }
  }

  // ---- whole runs ----

  predicate Allowed(s: State, op: Op) { op.ResetP? ==> !Shadowed(s, op.p) }

  // Every other operation leaves a rightly placed pointer right.

  lemma VehicleModsRight(w: World, s: State, v: uint16, entries: seq<Attrib>, u: uint16)
    requires Sane(w) && u in w.vehicles && Right(w, s, u)
    ensures Right(w, ProcessVehicleMods(w, s, v, entries), u)
  {
  }

  lemma ModelModsRight(w: World, s: State, m: uint16, u: uint16)
    requires Sane(w) && u in w.vehicles && Right(w, s, u)
    ensures Right(w, ProcessModelMods(w, s, m), u)
  {
  }

  lemma ApplyPlayerRight(w: World, s: State, p: uint16, v: uint16, u: uint16)
    requires Sane(w) && u in w.vehicles && Right(w, s, u)
    ensures Right(w, ApplyPlayerHandling(w, s, p, v), u)
  {
  }

  lemma PlayerModsRight(w: World, s: State, p: uint16, at: Option<uint16>, u: uint16)
    requires Sane(w) && u in w.vehicles && Right(w, s, u)
    ensures Right(w, ProcessPlayerMods(w, s, p, at), u)
  {
    hide ApplyPlayerHandling;
    if at.Some? {
      var s1 := if p in s.playerH then s else Alloc(s).0.(playerH := s.playerH[p := Alloc(s).1]);
      ApplyPlayerRight(w, s1, p, at.value, u);
    }
  }

  lemma RemovePlayerRight(w: World, s: State, p: uint16, v: uint16, u: uint16)
    requires Sane(w) && u in w.vehicles && Right(w, s, u)
    ensures Right(w, RemovePlayerHandling(w, s, p, v), u)
  {
  }

  lemma ResetVehicleRight(w: World, s: State, v: uint16, u: uint16)
    requires Sane(w) && u in w.vehicles && Right(w, s, u)
    ensures Right(w, ResetVehicle(w, s, v), u)
  {
  }

  lemma ResetModelRight(w: World, s: State, m: uint16, u: uint16)
    requires Sane(w) && u in w.vehicles && Right(w, s, u)
    ensures Right(w, ResetModel(w, s, m), u)
  {
  }

  lemma StepRight(w: World, s: State, op: Op, u: uint16)
    requires Sane(w) && u in w.vehicles && Right(w, s, u) && !op.ResetP?
    ensures Right(w, Step(w, s, op), u)
  {
    hide Sane, Right, ProcessVehicleMods, ProcessModelMods, ProcessPlayerMods, ApplyPlayerHandling,
         RemovePlayerHandling, ResetVehicle, ResetModel, ResetPlayerHandling;
    match op
    case VehicleMods(v, entries) => VehicleModsRight(w, s, v, entries, u);
    case ModelMods(m) => ModelModsRight(w, s, m, u);
    case ApplyPlayer(p, v) => ApplyPlayerRight(w, s, p, v, u);
    case PlayerMods(p, at) => PlayerModsRight(w, s, p, at, u);
    case RemovePlayer(p, v) => RemovePlayerRight(w, s, p, v, u);
    case ResetV(v) => ResetVehicleRight(w, s, v, u);
    case ResetM(m) => ResetModelRight(w, s, m, u);
  }

  lemma VehicleModsKnown(w: World, s: State, v: uint16, entries: seq<Attrib>)
    requires Known(w, s)
    ensures Known(w, ProcessVehicleMods(w, s, v, entries))
  {
  }

  lemma ModelModsKnown(w: World, s: State, m: uint16)
    requires Known(w, s)
    ensures Known(w, ProcessModelMods(w, s, m))
  {
  }

  lemma ApplyPlayerKnown(w: World, s: State, p: uint16, v: uint16)
    requires Known(w, s)
    ensures Known(w, ApplyPlayerHandling(w, s, p, v))
  {
  }

  lemma PlayerModsKnown(w: World, s: State, p: uint16, at: Option<uint16>)
    requires Known(w, s)
    ensures Known(w, ProcessPlayerMods(w, s, p, at))
  {
    hide ApplyPlayerHandling;
    if at.Some? {
      var s1 := if p in s.playerH then s else Alloc(s).0.(playerH := s.playerH[p := Alloc(s).1]);
      ApplyPlayerKnown(w, s1, p, at.value);
    }
  }

  lemma RemovePlayerKnown(w: World, s: State, p: uint16, v: uint16)
    requires Known(w, s)
    ensures Known(w, RemovePlayerHandling(w, s, p, v))
  {
  }

  lemma ResetVehicleKnown(w: World, s: State, v: uint16)
    requires Known(w, s)
    ensures Known(w, ResetVehicle(w, s, v))
  {
  }

  lemma ResetModelKnown(w: World, s: State, m: uint16)
    requires Known(w, s)
    ensures Known(w, ResetModel(w, s, m))
  {
  }

  lemma StepKnown(w: World, s: State, op: Op)
    requires Known(w, s)
    ensures Known(w, Step(w, s, op))
  {
    hide Known, ProcessVehicleMods, ProcessModelMods, ProcessPlayerMods, ApplyPlayerHandling,
         RemovePlayerHandling, ResetVehicle, ResetModel, ResetPlayerHandling;
    match op
    case VehicleMods(v, entries) => VehicleModsKnown(w, s, v, entries);
    case ModelMods(m) => ModelModsKnown(w, s, m);
    case ApplyPlayer(p, v) => ApplyPlayerKnown(w, s, p, v);
    case PlayerMods(p, at) => PlayerModsKnown(w, s, p, at);
    case RemovePlayer(p, v) => RemovePlayerKnown(w, s, p, v);
    case ResetV(v) => ResetVehicleKnown(w, s, v);
    case ResetM(m) => ResetModelKnown(w, s, m);
    case ResetP(p) => ResetPlayerKnown(w, s, p);
  }

  lemma StepOwned(w: World, s: State, op: Op)
    requires Owned(s)
    ensures Owned(Step(w, s, op))
  {
    hide Owned, ProcessVehicleMods, ProcessModelMods, ProcessPlayerMods, ApplyPlayerHandling, RemovePlayerHandling,
         ResetVehicle, ResetModel, ResetPlayerHandling;
    match op
    case VehicleMods(v, entries) => VehicleModsOwned(w, s, v, entries);
    case ModelMods(m) => ModelModsOwned(w, s, m);
    case PlayerMods(p, at) => PlayerModsOwned(w, s, p, at);
    case ApplyPlayer(p, v) => ApplyPlayerOwned(w, s, p, v);
    case RemovePlayer(p, v) => RemovePlayerOwned(w, s, p, v);
    case ResetV(v) => ResetVehicleOwned(w, s, v);
    case ResetM(m) => ResetModelOwned(w, s, m);
    case ResetP(p) => ResetPlayerOwned(w, s, p);
  }

  lemma StepKeeps(w: World, s: State, op: Op)
    requires Sane(w) && Inv(w, s) && Allowed(s, op)
    ensures Inv(w, Step(w, s, op))
  {
    hide Owned, Known, Right, Step, Shadowed;
    StepOwned(w, s, op);
    StepKnown(w, s, op);
    if op.ResetP? {
      ResetStep(w, s, op.p);
    } else {
      forall v | v in w.vehicles
        ensures Right(w, Step(w, s, op), v)
      {
        StepRight(w, s, op, v);
      }
    }
  }

  lemma ResetStep(w: World, s: State, p: uint16)
    requires Sane(w) && Inv(w, s) && !Shadowed(s, p)
    ensures Inv(w, Step(w, s, ResetP(p)))
  {
    hide Inv, Shadowed;
    if p in s.playerH {
      ResetPlayerKeepsIff(w, s, p);
    }
  }

  lemma {:induction false} RunKeeps(w: World, s: State, ops: seq<Op>)
    requires Sane(w) && Inv(w, s)
    requires forall i | 0 <= i < |ops| :: Allowed(Run(w, s, ops[..i]), ops[i])
    ensures Inv(w, Run(w, s, ops))
  {
    hide Inv, Step, Allowed;
    if ops != [] {
      var front := ops[..|ops| - 1];
      forall i | 0 <= i < |front|
        ensures Allowed(Run(w, s, front[..i]), front[i])
      {
        assert front[..i] == ops[..i];
      }
      RunKeeps(w, s, front);
      assert front == ops[..|ops| - 1];
      StepKeeps(w, Run(w, s, front), ops[|ops| - 1]);
    }
  }

  lemma InitialInv(w: World)
    requires Sane(w)
    ensures Inv(w, Initial(w))
  {
    assert forall a: Slot :: AddrAt(Initial(w), a) == None;
  }

  /** In every run in which no player reset meets a vehicle that also has its own override, each
      vehicle's pointer is the first present of vehicle, player, model and default, so it never
      points at an erased record. */
  lemma PointersFollowPrecedence(w: World, ops: seq<Op>, v: uint16)
    requires Sane(w) && v in w.vehicles
    requires forall i | 0 <= i < |ops| :: Allowed(Run(w, Initial(w), ops[..i]), ops[i])
    ensures
      var s := Run(w, Initial(w), ops);
      && v in s.ptr
      && s.ptr[v] == (if v in s.vehicleH then s.vehicleH[v]
                      else if v in s.applied then s.applied[v].addr
                      else if w.vehicles[v] in s.modelH then s.modelH[w.vehicles[v]]
                      else Static(w.infos[w.vehicles[v]]))
      && s.ptr[v] !in s.freed
  {
    hide Run, Allowed;
    InitialInv(w);
    RunKeeps(w, Initial(w), ops);
    NotErased(w, Run(w, Initial(w), ops), v);
  }

  lemma NotErased(w: World, s: State, v: uint16)
    requires Sane(w) && Inv(w, s) && v in w.vehicles
    ensures v in s.ptr && s.ptr[v] !in s.freed
  {
    var m := w.vehicles[v];
    assert v in s.vehicleH ==> AddrAt(s, OfVehicle(v)) == Some(s.vehicleH[v]);
    assert v in s.applied ==> AddrAt(s, OfApplied(v)) == Some(s.applied[v].addr);
    assert m in s.modelH ==> AddrAt(s, OfModel(m)) == Some(s.modelH[m]);
  }

  /** Without that condition the pointer can end on an erased record: reset the player of a vehicle
      that has all three overrides, then its model. */
  lemma ResetPlayerThenModelErases(w: World, s: State, p: uint16, v: uint16)
    requires Sane(w) && Inv(w, s)
    requires v in s.vehicleH && v in s.applied && s.applied[v].player == p && w.vehicles[v] in s.modelH
    ensures
      var s' := Run(w, s, [ResetP(p), ResetM(w.vehicles[v])]);
      v in s'.ptr && s'.ptr[v] in s'.freed && v in s'.vehicleH
  {
    hide Owned;
    var m := w.vehicles[v];
    assert [ResetP(p)] + [ResetM(m)] == [ResetP(p), ResetM(m)] && [] + [ResetP(p)] == [ResetP(p)];
    RunSnoc(w, s, [], ResetP(p));
    RunSnoc(w, s, [ResetP(p)], ResetM(m));
    var s1 := ResetPlayerHandling(w, s, p);
    assert s1.ptr[v] == s.modelH[m] && v in s1.vehicleH && s1.modelH == s.modelH;
  }

  /** And a vehicle of a known model gets all three from the initial state in three packets. */
  lemma AllLayersAreReachable(w: World, p: uint16, v: uint16)
    requires Sane(w) && v in w.vehicles
    ensures
      var s := Run(w, Initial(w), [PlayerMods(p, Some(v)), VehicleMods(v, []), ModelMods(w.vehicles[v])]);
      && Inv(w, s)
      && v in s.vehicleH && v in s.applied && s.applied[v].player == p && w.vehicles[v] in s.modelH
  {
    hide Inv, Step;
    var s0, m := Initial(w), w.vehicles[v];
    var a, b, c := PlayerMods(p, Some(v)), VehicleMods(v, []), ModelMods(m);
    assert [] + [a] == [a] && [a] + [b] == [a, b] && [a, b] + [c] == [a, b, c];
    RunSnoc(w, s0, [], a);
    RunSnoc(w, s0, [a], b);
    RunSnoc(w, s0, [a, b], c);
    InitialInv(w);
    StepKeeps(w, s0, a);
    StepKeeps(w, Step(w, s0, a), b);
    StepKeeps(w, Step(w, Step(w, s0, a), b), c);
    PlayerModsApply(w, s0, p, v);
    VehicleModsOverride(w, Step(w, s0, a), v);
    ModelModsOverride(w, Step(w, Step(w, s0, a), b), m);
  }

  lemma PlayerModsApply(w: World, s: State, p: uint16, v: uint16)
    requires v in w.vehicles && v !in s.vehicleH && v !in s.applied
    ensures
      var s' := Step(w, s, PlayerMods(p, Some(v)));
      v in s'.applied && s'.applied[v].player == p
  {
    hide ProcessVehicleMods, ProcessModelMods, RemovePlayerHandling,
         ResetVehicle, ResetModel, ResetPlayerHandling;
  }

  lemma VehicleModsOverride(w: World, s: State, v: uint16)
    requires v in w.vehicles
    ensures
      var s' := Step(w, s, VehicleMods(v, []));
      v in s'.vehicleH && s'.applied == s.applied
  {
    hide ProcessModelMods, ProcessPlayerMods, ApplyPlayerHandling, RemovePlayerHandling,
         ResetVehicle, ResetModel, ResetPlayerHandling;
  }

  lemma ModelModsOverride(w: World, s: State, m: uint16)
    requires m in w.infos
    ensures
      var s' := Step(w, s, ModelMods(m));
      m in s'.modelH && s'.vehicleH == s.vehicleH && s'.applied == s.applied
  {
    hide Repointed, ProcessVehicleMods, ProcessPlayerMods, ApplyPlayerHandling, RemovePlayerHandling,
         ResetVehicle, ResetModel, ResetPlayerHandling;
  }

  lemma RunSnoc(w: World, s: State, ops: seq<Op>, op: Op)
    ensures Run(w, s, ops + [op]) == Step(w, Run(w, s, ops), op)
  {
    assert (ops + [op])[..|ops|] == ops;
  }
}
