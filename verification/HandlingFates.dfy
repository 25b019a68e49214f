/** Where the handling pointer of each vehicle stands over every run, player resets of vehicles with an
    override of their own included. */
module HandlingFates {
  import opened Common
  import opened HandlingState
  import opened HandlingPrecedence

  // ---- what every run keeps ----

  // As Inv, but a vehicle with its own override may point anywhere.
  ghost predicate Loose(w: World, s: State) {
    Owned(s) && Known(w, s) && forall v :: v in w.vehicles ==> v in s.ptr && (v !in s.vehicleH ==> Right(w, s, v))
  }

  lemma InvIsLoose(w: World, s: State)
    requires Inv(w, s)
    ensures Loose(w, s)
  {
    hide Owned, Known, Chosen;
    assert forall v :: v in w.vehicles ==> Right(w, s, v);
  }

  lemma LooseIsInv(w: World, s: State)
    requires Loose(w, s) && s.vehicleH == map[]
    ensures Inv(w, s)
  {
    hide Owned, Known, Right;
  }

  lemma StepKeepsPointers(w: World, s: State, op: Op, v: uint16)
    requires v in s.ptr
    ensures v in Step(w, s, op).ptr
  {
  }

  // The pointer of a vehicle without an override of its own stays right.
  lemma UnclaimedStaysRight(w: World, s: State, op: Op, v: uint16)
    requires Sane(w) && Owned(s) && Known(w, s) && v in w.vehicles && v !in s.vehicleH && Right(w, s, v)
    ensures Right(w, Step(w, s, op), v)
  {
    hide Sane, Owned, Known, Right, ResetPlayerHandling;
    if !op.ResetP? {
      hide Step;
      StepRight(w, s, op, v);
    } else if op.p in s.playerH {
      ResetPlayerAt(w, s, op.p, v);
    } else {
      NoSuchPlayer(w, s, op.p);
    }
  }

  lemma NoSuchPlayer(w: World, s: State, p: uint16)
    requires p !in s.playerH
    ensures ResetPlayerHandling(w, s, p) == s
  {
  }

  // Only a reset of the vehicle takes its override away, and it sets the pointer.
  lemma ReleasedIsRight(w: World, s: State, op: Op, v: uint16)
    requires v in w.vehicles && v in s.ptr && v in s.vehicleH && v !in Step(w, s, op).vehicleH
    ensures op == ResetV(v) && Right(w, Step(w, s, op), v)
  {
  }

  lemma StepLoose(w: World, s: State, op: Op)
    requires Sane(w) && Loose(w, s)
    ensures Loose(w, Step(w, s, op))
  {
    hide Owned, Known, Right, Step, Sane;
    StepOwned(w, s, op);
    StepKnown(w, s, op);
    var s' := Step(w, s, op);
    forall v | v in w.vehicles
      ensures v in s'.ptr && (v !in s'.vehicleH ==> Right(w, s', v))
    {
      StepKeepsPointers(w, s, op, v);
      if v !in s.vehicleH {
        UnclaimedStaysRight(w, s, op, v);
      } else if v !in s'.vehicleH {
        ReleasedIsRight(w, s, op, v);
      }
    }
  }

  lemma {:induction false} RunLoose(w: World, ops: seq<Op>)
    requires Sane(w)
    ensures Loose(w, Run(w, Initial(w), ops))
  {
    hide Loose, Step, Sane;
    if ops == [] {
      InitialInv(w);
      InvIsLoose(w, Initial(w));
    } else {
      RunLoose(w, ops[..|ops| - 1]);
      StepLoose(w, Run(w, Initial(w), ops[..|ops| - 1]), ops[|ops| - 1]);
    }
  }

  // ---- the fate of one pointer ----

  // As it should be; or, while the vehicle has its own override: on its model's default, on its
  // model's override, or on a model override that has been erased.
  datatype Fate = Proper | OnDefault | OnModel | OnErased

  // `s`: the state the operation meets.
  function FateAfter(w: World, s: State, v: uint16, op: Op, f: Fate): Fate
    requires v in w.vehicles
  {
    match op
    case ResetP(p) =>
      if v in s.vehicleH && v in s.applied && s.applied[v].player == p && p in s.playerH then
        if w.vehicles[v] in s.modelH then OnModel else OnDefault
      else f
    case VehicleMods(u, _) => if u == v then Proper else f
    case ResetV(u) => if u == v && v in s.vehicleH then Proper else f
    case ResetM(m) => if f == OnModel && m == w.vehicles[v] then OnErased else f
    case _ => f
  }

  function RunFate(w: World, v: uint16, ops: seq<Op>): Fate
    requires Sane(w) && v in w.vehicles
  {
    if ops == [] then Proper
    else
      var front := ops[..|ops| - 1];
      FateAfter(w, Run(w, Initial(w), front), v, ops[|ops| - 1], RunFate(w, v, front))
  }

  predicate StandsAs(w: World, s: State, v: uint16, f: Fate)
    requires v in w.vehicles
  {
    v in s.ptr &&
    match f
    case Proper => Right(w, s, v)
    case OnDefault => v in s.vehicleH && v !in s.applied && s.ptr[v].Static?
    case OnModel =>
      v in s.vehicleH && v !in s.applied && w.vehicles[v] in s.modelH && s.ptr[v] == s.modelH[w.vehicles[v]]
    case OnErased => v in s.vehicleH && v !in s.applied && s.ptr[v] in s.freed
  }

  lemma ResetPlayerStands(w: World, s: State, p: uint16, v: uint16, f: Fate)
    requires Sane(w) && Owned(s) && v in w.vehicles && StandsAs(w, s, v, f)
    ensures StandsAs(w, Step(w, s, ResetP(p)), v, FateAfter(w, s, v, ResetP(p), f))
  {
    hide Owned;
    if f == Proper && p in s.playerH {
      ResetPlayerAt(w, s, p, v);
    }
  }

  lemma ResetVehicleStands(w: World, s: State, u: uint16, v: uint16, f: Fate)
    requires Sane(w) && v in w.vehicles && StandsAs(w, s, v, f)
    ensures StandsAs(w, Step(w, s, ResetV(u)), v, FateAfter(w, s, v, ResetV(u), f))
  {
    hide Sane;
  }

  lemma ResetModelStands(w: World, s: State, m: uint16, v: uint16, f: Fate)
    requires Sane(w) && v in w.vehicles && StandsAs(w, s, v, f)
    ensures StandsAs(w, Step(w, s, ResetM(m)), v, FateAfter(w, s, v, ResetM(m), f))
  {
  }

  // A claimed vehicle's pointer and what it depends on.
  predicate Untouched(w: World, s: State, s': State, v: uint16)
    requires v in w.vehicles && v in s.ptr
  {
    && v in s'.ptr && s'.ptr[v] == s.ptr[v] && v in s'.vehicleH && v !in s'.applied
    && (w.vehicles[v] in s.modelH ==> w.vehicles[v] in s'.modelH && s'.modelH[w.vehicles[v]] == s.modelH[w.vehicles[v]])
    && s.freed <= s'.freed
  }

  lemma UntouchedStands(w: World, s: State, s': State, v: uint16, f: Fate)
    requires v in w.vehicles && StandsAs(w, s, v, f) && f != Proper && Untouched(w, s, s', v)
    ensures StandsAs(w, s', v, f)
  {
  }

  // The operations that put nothing wrong, and v's pointer right only if it is right.
  predicate Neutral(op: Op, v: uint16) {
    op.ModelMods? || op.PlayerMods? || op.ApplyPlayer? || op.RemovePlayer? || (op.VehicleMods? && op.v != v)
  }

  lemma ModelModsUntouched(w: World, s: State, m: uint16, v: uint16)
    requires v in w.vehicles && v in s.ptr && v in s.vehicleH && v !in s.applied
    ensures Untouched(w, s, ProcessModelMods(w, s, m), v)
  {
  }

  lemma ApplyPlayerUntouched(w: World, s: State, p: uint16, u: uint16, v: uint16)
    requires v in w.vehicles && v in s.ptr && v in s.vehicleH && v !in s.applied
    ensures Untouched(w, s, ApplyPlayerHandling(w, s, p, u), v)
  {
  }

  lemma PlayerModsUntouched(w: World, s: State, p: uint16, at: Option<uint16>, v: uint16)
    requires v in w.vehicles && v in s.ptr && v in s.vehicleH && v !in s.applied
    ensures Untouched(w, s, ProcessPlayerMods(w, s, p, at), v)
  {
    hide ApplyPlayerHandling;
    if at.Some? {
      var s1 := if p in s.playerH then s else Alloc(s).0.(playerH := s.playerH[p := Alloc(s).1]);
      ApplyPlayerUntouched(w, s1, p, at.value, v);
    }
  }

  lemma RemovePlayerUntouched(w: World, s: State, p: uint16, u: uint16, v: uint16)
    requires v in w.vehicles && v in s.ptr && v in s.vehicleH && v !in s.applied
    ensures Untouched(w, s, RemovePlayerHandling(w, s, p, u), v)
  {
  }

  lemma VehicleModsUntouched(w: World, s: State, u: uint16, entries: seq<Attrib>, v: uint16)
    requires v in w.vehicles && v in s.ptr && v in s.vehicleH && v !in s.applied && u != v
    ensures Untouched(w, s, ProcessVehicleMods(w, s, u, entries), v)
  {
  }

  lemma NeutralUntouched(w: World, s: State, op: Op, v: uint16)
    requires v in w.vehicles && v in s.ptr && v in s.vehicleH && v !in s.applied && Neutral(op, v)
    ensures Untouched(w, s, Step(w, s, op), v)
  {
    hide Untouched, ProcessVehicleMods, ProcessModelMods, ProcessPlayerMods, ApplyPlayerHandling, RemovePlayerHandling,
         ResetVehicle, ResetModel, ResetPlayerHandling;
    match op
    case ModelMods(m) => ModelModsUntouched(w, s, m, v);
    case PlayerMods(p, at) => PlayerModsUntouched(w, s, p, at, v);
    case ApplyPlayer(p, u) => ApplyPlayerUntouched(w, s, p, u, v);
    case RemovePlayer(p, u) => RemovePlayerUntouched(w, s, p, u, v);
    case VehicleMods(u, entries) => VehicleModsUntouched(w, s, u, entries, v);
  }

  lemma NeutralStands(w: World, s: State, op: Op, v: uint16, f: Fate)
    requires Sane(w) && v in w.vehicles && StandsAs(w, s, v, f) && Neutral(op, v)
    ensures StandsAs(w, Step(w, s, op), v, f)
  {
    hide Sane, Right, Step, Untouched;
    if f == Proper {
      StepRight(w, s, op, v);
      RightIsThere(w, Step(w, s, op), v);
    } else {
      NeutralUntouched(w, s, op, v);
      UntouchedStands(w, s, Step(w, s, op), v, f);
    }
  }

  lemma RightIsThere(w: World, s: State, v: uint16)
    requires v in w.vehicles && Right(w, s, v)
    ensures v in s.ptr
  {
  }

  lemma VehicleModsProper(w: World, s: State, v: uint16, entries: seq<Attrib>)
    requires v in w.vehicles
    ensures StandsAs(w, Step(w, s, VehicleMods(v, entries)), v, Proper)
  {
    hide ProcessModelMods, ProcessPlayerMods, ApplyPlayerHandling, RemovePlayerHandling, ResetVehicle, ResetModel,
         ResetPlayerHandling, Fallback;
  }

  lemma StepStands(w: World, s: State, op: Op, v: uint16, f: Fate)
    requires Sane(w) && Owned(s) && v in w.vehicles && StandsAs(w, s, v, f)
    ensures StandsAs(w, Step(w, s, op), v, FateAfter(w, s, v, op, f))
  {
    hide Sane, Owned, StandsAs, Step;
    match op
    case ResetP(p) => ResetPlayerStands(w, s, p, v, f);
    case VehicleMods(u, entries) =>
      if u == v {
        VehicleModsProper(w, s, v, entries);
      } else {
        NeutralStands(w, s, op, v, f);
      }
    case ResetV(u) => ResetVehicleStands(w, s, u, v, f);
    case ResetM(m) => ResetModelStands(w, s, m, v, f);
    case _ => NeutralStands(w, s, op, v, f);
  }

  lemma {:induction false} RunStands(w: World, v: uint16, ops: seq<Op>)
    requires Sane(w) && v in w.vehicles
    ensures StandsAs(w, Run(w, Initial(w), ops), v, RunFate(w, v, ops))
  {
    hide Step, StandsAs, FateAfter, Owned, Known, Right;
    if ops == [] {
      InitialInv(w);
      StartsProper(w, v);
    } else {
      var front := ops[..|ops| - 1];
      RunStands(w, v, front);
      RunLoose(w, front);
      StepStands(w, Run(w, Initial(w), front), ops[|ops| - 1], v, RunFate(w, v, front));
    }
  }

  lemma StartsProper(w: World, v: uint16)
    requires Sane(w) && v in w.vehicles
    ensures StandsAs(w, Initial(w), v, Proper)
  {
  }

  lemma FateShows(w: World, s: State, v: uint16, f: Fate)
    requires Sane(w) && Owned(s) && v in w.vehicles && StandsAs(w, s, v, f)
    ensures Right(w, s, v) <==> f == Proper
    ensures s.ptr[v] in s.freed <==> f == OnErased
  {
    var m := w.vehicles[v];
    assert v in s.vehicleH ==> AddrAt(s, OfVehicle(v)) == Some(s.vehicleH[v]);
    assert v in s.applied ==> AddrAt(s, OfApplied(v)) == Some(s.applied[v].addr);
    assert m in s.modelH ==> AddrAt(s, OfModel(m)) == Some(s.modelH[m]);
  }

  /** In every run whatever: the pointer of a vehicle is the first present of vehicle, player, model and
      default exactly when its fate is Proper, and it is on an erased record exactly when its fate is
      OnErased: a player reset met it with an override of its own, one applied by that player, and one
      of its model, its model was reset after that, and the vehicle has not been modified or reset
      itself since. */
  lemma PointerIsErasedIff(w: World, v: uint16, ops: seq<Op>)
    requires Sane(w) && v in w.vehicles
    ensures
      var s, f := Run(w, Initial(w), ops), RunFate(w, v, ops);
      && v in s.ptr
      && (Right(w, s, v) <==> f == Proper)
      && (s.ptr[v] in s.freed <==> f == OnErased)
  {
    hide Run, RunFate, Owned, Known, Right;
    RunLoose(w, ops);
    RunStands(w, v, ops);
    FateShows(w, Run(w, Initial(w), ops), v, RunFate(w, v, ops));
  }
}
