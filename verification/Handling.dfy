/** HandlingManager: the override maps as fields, updated by the handlers and their loops. */
module Handling {
  import opened Common
  import opened HandlingState
  import opened HandlingPrecedence
  import opened HandlingFates

  class HandlingManager {
    const w: World
    var vehicleH: map<uint16, Addr>
    var modelH: map<uint16, Addr>
    var playerH: map<uint16, Addr>
    var applied: map<uint16, Applied>
    var pending: map<uint16, seq<Attrib>>
    var ptr: map<uint16, Addr>
    var next: nat
    var freed: set<Addr>

    constructor (w: World)
      requires Sane(w)
      ensures this.w == w && View() == Initial(w)
    {
      this.w := w;
      vehicleH, modelH, playerH, applied, pending := map[], map[], map[], map[], map[];
      ptr, next, freed := map v | v in w.vehicles :: Static(w.infos[w.vehicles[v]]), 0, {};
    }

    function View(): State
      reads this
    {
      State(vehicleH, modelH, playerH, applied, pending, ptr, next, freed)
    }

    method New() returns (a: Addr)
      modifies this`next
      ensures a == Heap(old(next)) && next == old(next) + 1
    {
      a := Heap(next);
      next := next + 1;
    }

    method ProcessVehicleMods(v: uint16, entries: seq<Attrib>)
      modifies this
      ensures View() == HandlingState.ProcessVehicleMods(w, old(View()), v, entries)
    {
      if v !in w.vehicles {
        if v !in pending {
          pending := pending[v := []];
        }
        pending := pending[v := pending[v] + entries];
        return;
      }
      if v !in vehicleH {
        var a := New();
        vehicleH := vehicleH[v := a];
      }
      ptr := ptr[v := vehicleH[v]];
    }

    // The pool loop of ApplyModelToVehicles and RevertModelToOriginal.
    method PointModel(m: uint16, a: Addr)
      requires Sane(w)
      modifies this`ptr
      ensures ptr == Repointed(w, old(View()), m, a)
    {
      hide Repointed;
      ghost var s := View();
      for id := 1 to MAX_SAMP_VEHICLES
        invariant ptr == RepointedUpTo(w, s, m, a, id)
      {
        if id in w.vehicles && id in ptr && w.vehicles[id] == m {
          if id !in vehicleH && id !in applied {
            ptr := ptr[id := a];
          }
        }
        RepointOne(w, s, m, a, id);
      }
      RepointedAll(w, s, m, a);
    }

    method ProcessModelMods(m: uint16)
      requires Sane(w)
      modifies this
      ensures View() == HandlingState.ProcessModelMods(w, old(View()), m)
    {
      hide Repointed;
      if m !in w.infos {
        return;
      }
      ghost var s := View();
      if m !in modelH {
        var a := New();
        modelH := modelH[m := a];
      }
      RepointedReads(w, s, View(), m, modelH[m]);
      PointModel(m, modelH[m]);
    }

    method ApplyPlayerHandling(p: uint16, v: uint16)
      modifies this
      ensures View() == HandlingState.ApplyPlayerHandling(w, old(View()), p, v)
    {
      if v !in w.vehicles || v in vehicleH || v in applied || p !in playerH {
        return;
      }
      var a := New();
      ptr := ptr[v := a];
      applied := applied[v := Applied(p, a)];
    }

    method RemovePlayerHandling(p: uint16, v: uint16)
      requires Sane(w)
      modifies this
      ensures View() == HandlingState.RemovePlayerHandling(w, old(View()), p, v)
    {
      if v !in w.vehicles || v !in applied || applied[v].player != p {
        return;
      }
      if v in vehicleH {
        ptr := ptr[v := vehicleH[v]];
      } else {
        var fallback := Static(w.infos[w.vehicles[v]]);
        if w.vehicles[v] in modelH {
          fallback := modelH[w.vehicles[v]];
        }
        ptr := ptr[v := fallback];
      }
      freed := freed + {applied[v].addr};
      applied := applied - {v};
    }

    method ProcessPlayerMods(p: uint16, at: Option<uint16>)
      modifies this
      ensures View() == HandlingState.ProcessPlayerMods(w, old(View()), p, at)
    {
      hide HandlingState.ApplyPlayerHandling;
      if p !in playerH {
        var a := New();
        playerH := playerH[p := a];
      }
      if at.Some? {
        ApplyPlayerHandling(p, at.value);
      }
    }

    method ResetVehicle(v: uint16)
      modifies this
      ensures View() == HandlingState.ResetVehicle(w, old(View()), v)
    {
      pending := pending - {v};
      if v !in vehicleH {
        return;
      }
      if v in w.vehicles {
        var m := w.vehicles[v];
        var fallback;
        if v in applied {
          fallback := applied[v].addr;
        } else if m in modelH {
          fallback := modelH[m];
        } else if m in w.infos && w.infos[m] < HANDLING_IDS {
          fallback := Static(w.infos[m]);
        } else {
          fallback := Static(0);
        }
        ptr := ptr[v := fallback];
      }
      freed := freed + {vehicleH[v]};
      vehicleH := vehicleH - {v};
    }

    method ResetModel(m: uint16)
      requires Sane(w)
      modifies this
      ensures View() == HandlingState.ResetModel(w, old(View()), m)
    {
      hide Repointed;
      if m !in modelH {
        return;
      }
      if m in w.infos {
        PointModel(m, Static(w.infos[m]));
      }
      freed := freed + {modelH[m]};
      modelH := modelH - {m};
    }

    method ResetPlayerHandling(p: uint16)
      requires Sane(w)
      modifies this
      ensures View() == HandlingState.ResetPlayerHandling(w, old(View()), p)
    {
      hide PlayerGone, HandlingState.ResetPlayerHandling;
      if p !in playerH {
        assert HandlingState.ResetPlayerHandling(w, View(), p) == View() by { NoSuchPlayer(w, View(), p); }
        return;
      }
      ghost var s := View();
      NobodyGone(w, s, p);
      var todo := applied.Keys;
      ghost var done: set<uint16> := {};
      while todo != {}
        invariant todo !! done && todo + done == s.applied.Keys
        invariant View() == PlayerGone(w, s, p, done)
      {
        var v :| v in todo;
        PlayerGoneOne(w, s, p, done, v);
        if applied[v].player == p {
          if v in w.vehicles && v in ptr {
            var m := w.vehicles[v];
            ptr := ptr[v := if m in modelH then modelH[m] else Static(w.infos[m])];
          }
          freed := freed + {applied[v].addr};
          applied := applied - {v};
        }
        todo, done := todo - {v}, done + {v};
      }
      assert done == s.applied.Keys;
      PlayerGoneAll(w, s, p);
      freed := freed + {playerH[p]};
      playerH := playerH - {p};
    }

    /** ACTION_RESET_ALL, in any state a run can lead to: it terminates with no override left, every
        vehicle on its model's own handling, also one that pointed at an erased record, and every
        record that was owned erased. */
    method ResetAll()
      requires Sane(w) && Loose(w, View())
      modifies this
      ensures vehicleH == map[] && modelH == map[] && playerH == map[] && applied == map[] && pending == map[]
      ensures Inv(w, View())
      ensures forall v :: v in w.vehicles ==> v in ptr && ptr[v] == Static(w.infos[w.vehicles[v]])
      ensures next == old(next) && freed == old(freed + Live(View()))
    {
      hide Inv, Loose, Live, HandlingState.ResetVehicle, HandlingState.ResetModel, HandlingState.ResetPlayerHandling;
      ghost var all := freed + Live(View());
      pending := map[];
      PendingIsFree(w, old(View()), View());
      while vehicleH != map[]
        invariant Loose(w, View()) && pending == map[] && next == old(next) && freed + Live(View()) == all
        decreases vehicleH.Keys
      {
        var v :| v in vehicleH;
        ResetVehicleShrinks(w, View(), v);
        ResetVehicle(v);
      }
      LooseIsInv(w, View());
      while modelH != map[]
        invariant Inv(w, View()) && pending == map[] && next == old(next) && freed + Live(View()) == all
        invariant vehicleH == map[]
        decreases modelH.Keys
      {
        var m :| m in modelH;
        ResetModelShrinks(w, View(), m);
        ResetModel(m);
      }
      while playerH != map[]
        invariant Inv(w, View()) && pending == map[] && next == old(next) && freed + Live(View()) == all
        invariant vehicleH == map[] && modelH == map[]
        decreases playerH.Keys
      {
        var p :| p in playerH;
        ResetPlayerShrinks(w, View(), p);
        ResetPlayerHandling(p);
      }
      NothingLeft(w, View());
    }
  }

  // ---- the pool loop ----

  function RepointedUpTo(w: World, s: State, m: uint16, a: Addr, n: nat): map<uint16, Addr> {
    map v | v in s.ptr ::
      if v < n && v in w.vehicles && w.vehicles[v] == m && v !in s.vehicleH && v !in s.applied then a else s.ptr[v]
  }

  lemma RepointOne(w: World, s: State, m: uint16, a: Addr, id: uint16)
    ensures
      var before := RepointedUpTo(w, s, m, a, id);
      RepointedUpTo(w, s, m, a, id + 1) ==
        if id in w.vehicles && id in s.ptr && w.vehicles[id] == m && id !in s.vehicleH && id !in s.applied
        then before[id := a] else before
  {
  }

  lemma RepointedAll(w: World, s: State, m: uint16, a: Addr)
    requires Sane(w)
    ensures RepointedUpTo(w, s, m, a, MAX_SAMP_VEHICLES) == Repointed(w, s, m, a)
  {
  }

  lemma RepointedReads(w: World, s: State, s': State, m: uint16, a: Addr)
    requires s'.ptr == s.ptr && s'.vehicleH == s.vehicleH && s'.applied == s.applied
    ensures Repointed(w, s', m, a) == Repointed(w, s, m, a)
  {
  }

  // ---- the loop over a player's vehicles ----

  // The vehicles of `done` have been looked at.
  function PlayerGone(w: World, s: State, p: uint16, done: set<uint16>): State {
    var vs := AppliedBy(s, p) * done;
    s.(ptr := SentBack(w, s, vs), applied := s.applied - vs, freed := s.freed + AddrsOf(s, vs))
  }

  function SentBack(w: World, s: State, vs: set<uint16>): map<uint16, Addr> {
    map v | v in s.ptr :: if v in vs && v in w.vehicles then ModelOrDefault(w, s, w.vehicles[v]) else s.ptr[v]
  }

  function AddrsOf(s: State, vs: set<uint16>): set<Addr> {
    set v | v in vs && v in s.applied :: s.applied[v].addr
  }

  lemma SentBackOne(w: World, s: State, vs: set<uint16>, v: uint16)
    ensures SentBack(w, s, vs + {v}) ==
              if v in w.vehicles && v in s.ptr
              then SentBack(w, s, vs)[v := ModelOrDefault(w, s, w.vehicles[v])] else SentBack(w, s, vs)
  {
    hide ModelOrDefault;
  }

  lemma AddrsOfOne(s: State, vs: set<uint16>, v: uint16)
    requires v in s.applied
    ensures AddrsOf(s, vs + {v}) == AddrsOf(s, vs) + {s.applied[v].addr}
  {
  }

  lemma NobodyGone(w: World, s: State, p: uint16)
    ensures PlayerGone(w, s, p, {}) == s
  {
    assert AppliedBy(s, p) * {} == {};
  }

  lemma PlayerGoneOne(w: World, s: State, p: uint16, done: set<uint16>, v: uint16)
    requires Sane(w) && v in s.applied && v !in done
    ensures
      var t, t' := PlayerGone(w, s, p, done), PlayerGone(w, s, p, done + {v});
      && v in t.applied && t.applied[v] == s.applied[v] && t.modelH == s.modelH
      && t' == if s.applied[v].player != p then t
               else t.(ptr := if v in w.vehicles && v in t.ptr
                              then t.ptr[v := ModelOrDefault(w, t, w.vehicles[v])] else t.ptr,
                       applied := t.applied - {v}, freed := t.freed + {s.applied[v].addr})
  {
    hide ModelOrDefault, SentBack, AddrsOf, Sane;
    var vs, vs' := AppliedBy(s, p) * done, AppliedBy(s, p) * (done + {v});
    var t := PlayerGone(w, s, p, done);
    assert v !in vs && v in t.applied;
    assert v in t.ptr <==> v in s.ptr by { SentBackKeys(w, s, vs); }
    if s.applied[v].player == p {
      assert vs' == vs + {v};
      assert s.applied - vs' == s.applied - vs - {v};
      SentBackOne(w, s, vs, v);
      AddrsOfOne(s, vs, v);
      SameModels(w, s, t);
    } else {
      assert vs' == vs;
    }
  }

  lemma SentBackKeys(w: World, s: State, vs: set<uint16>)
    ensures SentBack(w, s, vs).Keys == s.ptr.Keys
  {
  }

  lemma SameModels(w: World, s: State, t: State)
    requires t.modelH == s.modelH
    ensures forall m :: ModelOrDefault(w, t, m) == ModelOrDefault(w, s, m)
  {
  }

  lemma PlayerGoneAll(w: World, s: State, p: uint16)
    requires p in s.playerH
    ensures PlayerGone(w, s, p, s.applied.Keys).playerH == s.playerH
    ensures HandlingState.ResetPlayerHandling(w, s, p) ==
      var t := PlayerGone(w, s, p, s.applied.Keys);
      t.(playerH := s.playerH - {p}, freed := t.freed + {s.playerH[p]})
  {
    hide ModelOrDefault;
    assert AppliedBy(s, p) * s.applied.Keys == AppliedBy(s, p);
  }

  // ---- reset-all ----

  // The records that some map owns.
  ghost function Live(s: State): set<Addr> {
    s.vehicleH.Values + s.modelH.Values + s.playerH.Values + set v | v in s.applied :: s.applied[v].addr
  }

  lemma PendingIsFree(w: World, s: State, s': State)
    requires Loose(w, s) && s' == s.(pending := map[])
    ensures Loose(w, s') && Live(s') == Live(s)
  {
    hide Owned;
    SameOwned(s, s');
    assert forall v :: v in w.vehicles ==> Chosen(w, s', v) == Chosen(w, s, v);
  }

  lemma ValuesWithout(m: map<uint16, Addr>, k: uint16)
    requires k in m
    ensures (m - {k}).Values + {m[k]} == m.Values
  {
    forall a | a in m.Values
      ensures a in (m - {k}).Values + {m[k]}
    {
      var j :| j in m && m[j] == a;
      assert j == k || (j in m - {k} && (m - {k})[j] == a);
    }
  }

  lemma ResetVehicleShrinks(w: World, s: State, v: uint16)
    requires Sane(w) && Loose(w, s) && v in s.vehicleH
    ensures
      var s' := HandlingState.ResetVehicle(w, s, v);
      && Loose(w, s')
      && s'.vehicleH.Keys < s.vehicleH.Keys && s'.modelH == s.modelH && s'.next == s.next
      && s'.pending == s.pending - {v}
      && s'.freed + Live(s') == s.freed + Live(s)
  {
    hide Loose;
    StepLoose(w, s, ResetV(v));
    ValuesWithout(s.vehicleH, v);
    assert v !in HandlingState.ResetVehicle(w, s, v).vehicleH;
  }

  lemma ResetModelShrinks(w: World, s: State, m: uint16)
    requires Sane(w) && Inv(w, s) && m in s.modelH
    ensures
      var s' := HandlingState.ResetModel(w, s, m);
      && Inv(w, s')
      && s'.modelH.Keys < s.modelH.Keys && s'.vehicleH == s.vehicleH && s'.next == s.next
      && s'.pending == s.pending
      && s'.freed + Live(s') == s.freed + Live(s)
  {
    hide Inv, Repointed;
    StepKeeps(w, s, ResetM(m));
    ValuesWithout(s.modelH, m);
    assert m !in HandlingState.ResetModel(w, s, m).modelH;
  }

  lemma ResetPlayerShrinks(w: World, s: State, p: uint16)
    requires Sane(w) && Inv(w, s) && p in s.playerH && s.vehicleH == map[]
    ensures
      var s' := HandlingState.ResetPlayerHandling(w, s, p);
      && Inv(w, s')
      && s'.playerH.Keys < s.playerH.Keys && s'.vehicleH == s.vehicleH && s'.modelH == s.modelH
      && s'.next == s.next && s'.pending == s.pending
      && s'.freed + Live(s') == s.freed + Live(s)
  {
    hide Inv, ModelOrDefault;
    var s' := HandlingState.ResetPlayerHandling(w, s, p);
    StepKeeps(w, s, ResetP(p));
    ValuesWithout(s.playerH, p);
    assert p !in s'.playerH;
    forall a | a in Live(s)
      ensures a in s'.freed + Live(s')
    {
      if v :| v in s.applied && s.applied[v].addr == a {
        assert v in AppliedBy(s, p) || (v in s'.applied && s'.applied[v].addr == a);
      }
    }
  }

  lemma NothingLeft(w: World, s: State)
    requires Sane(w) && Inv(w, s) && s.vehicleH == map[] && s.modelH == map[] && s.playerH == map[]
    ensures s.applied == map[] && Live(s) == {}
    ensures forall v :: v in w.vehicles ==> v in s.ptr && s.ptr[v] == Static(w.infos[w.vehicles[v]])
  {
    hide Owned;
    assert forall v :: v !in s.applied;
    assert forall v :: v in w.vehicles ==> Right(w, s, v);
  }
}
