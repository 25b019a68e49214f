/** The custom-model operations as they run: maps, the engine's table and the queue updated in
    place. */
module Lifetime {
  import opened Common
  import opened LifetimeState
  import LifetimeTheorems

  class CustomModels {
    var bindings: map<uint16, uint32>
    var uses: map<uint32, int>
    var cached: map<nat, uint16>
    var models: map<uint32, Entry>
    const table: array<Option<nat>>
    var queue: seq<uint32>
    var nextInfo: nat

    constructor (table: array<Option<nat>>)
      requires table.Length == TABLE_SIZE
      ensures this.table == table && View() == Initial(table[..])
    {
      this.table := table;
      bindings, uses, cached, models, queue, nextInfo := map[], map[], map[], map[], [], 0;
    }

    function View(): State
      reads this, table
    {
      State(bindings, uses, cached, models, table[..], queue, nextInfo)
    }

    // ---- use counts ----

    method IncrementModelUse(m: uint32)
      modifies this`uses
      ensures uses == Increment(old(uses), m)
    {
      if m !in uses {
        uses := uses[m := 0];
      }
      uses := uses[m := uses[m] + 1];
    }

    method DecrementModelUse(m: uint32)
      modifies this`uses
      ensures uses == Decrement(old(uses), m)
    {
      if m in uses {
        uses := uses[m := uses[m] - 1];
        if uses[m] == 0 {
          uses := uses - {m};
          assert uses == old(uses) - {m};
        }
      }
    }

    method CacheVehicleSAMPId(vehicle: nat, id: uint16, model: uint32)
      modifies this`uses, this`cached
      ensures View() == CacheVehicle(old(View()), vehicle, id, model)
    {
      if vehicle in cached {
        return;
      }
      cached := cached[vehicle := id];
      IncrementModelUse(model);
    }

    method RemoveVehicleFromCache(vehicle: nat, valid: bool, model: uint32)
      modifies this`uses, this`cached
      ensures View() == UncacheVehicle(old(View()), vehicle, valid, model)
    {
      if vehicle !in cached {
        return;
      }
      if valid && model in uses {
        if uses[model] > 1 {
          uses := uses[model := uses[model] - 1];
        } else {
          uses := uses - {model};
        }
      }
      cached := cached - {vehicle};
    }

    // ---- bindings ----

    method Bind(v: uint16, m: uint32)
      modifies this`bindings, this`uses
      ensures View() == LifetimeState.Bind(old(View()), v, m)
    {
      hide Increment, Decrement;
      if v in bindings {
        if bindings[v] == m {
          return;
        }
        if bindings[v] > 0 {
          DecrementModelUse(bindings[v]);
        }
      }
      bindings := bindings[v := m];
      IncrementModelUse(m);
    }

    method Unbind(v: uint16)
      modifies this`bindings, this`uses
      ensures View() == LifetimeState.Unbind(old(View()), v)
    {
      if v !in bindings {
        return;
      }
      DecrementModelUse(bindings[v]);
      bindings := bindings - {v};
    }

    // m_bindings[v], as the setters write it
    method Touch(v: uint16)
      modifies this`bindings
      ensures View() == LifetimeState.Touch(old(View()), v)
    {
      if v !in bindings {
        bindings := bindings[v := 0];
      }
    }

    method ClearBindings()
      modifies this`bindings, this`uses
      ensures View() == LifetimeState.ClearBindings(old(View()))
    {
      hide BoundTo, Decrement, DecrementAll;
      ghost var before := uses;
      var todo := bindings;
      ghost var done: Bindings := map[];
      assert uses == DecrementAll(before, map[]) by { DecrementNone(before); }
      while todo != map[]
        invariant done.Keys !! todo.Keys && done + todo == bindings
        invariant uses == DecrementAll(before, done)
        invariant bindings == old(bindings) && cached == old(cached) && models == old(models)
        invariant table[..] == old(table[..]) && queue == old(queue) && nextInfo == old(nextInfo)
        decreases todo.Keys
      {
        var v :| v in todo;
        DecrementOneMore(before, done, v, todo[v]);
        DecrementModelUse(todo[v]);
        done, todo := done[v := todo[v]], todo - {v};
      }
      assert done == bindings;
      bindings := map[];
    }

    method IsModelInUse(m: uint32) returns (found: bool)
      ensures found <==> exists v :: v in bindings && bindings[v] == m
    {
      var todo := bindings.Keys;
      while todo != {}
        invariant todo <= bindings.Keys
        invariant forall v :: v in bindings && v !in todo ==> bindings[v] != m
      {
        var v :| v in todo;
        if bindings[v] == m {
          return true;
        }
        todo := todo - {v};
      }
      return false;
    }

    // ---- slots ----

    method AlreadyClaimed(slot: nat) returns (claimed: bool)
      ensures claimed <==> Claimed(models, slot)
    {
      var todo := models.Keys;
      while todo != {}
        invariant todo <= models.Keys
        invariant forall id :: id in models && id !in todo ==> models[id].slot != slot
      {
        var id :| id in todo;
        if models[id].slot == slot {
          return true;
        }
        todo := todo - {id};
      }
      return false;
    }

    method TryRange(rangeStart: nat, rangeEnd: nat) returns (found: Option<nat>)
      requires rangeStart <= rangeEnd <= table.Length
      ensures found == FirstFree(View(), rangeStart, rangeEnd)
    {
      hide Claimed;
      for slot := rangeStart to rangeEnd
        invariant FirstFree(View(), rangeStart, rangeEnd) == FirstFree(View(), slot, rangeEnd)
      {
        if table[slot] == None {
          var claimed := AlreadyClaimed(slot);
          if !claimed {
            return Some(slot);
          }
        }
      }
      return None;
    }

    method AllocateGtaModelSlot() returns (slot: Option<nat>)
      requires table.Length == TABLE_SIZE
      ensures slot == AllocateSlot(View())
    {
      hide FirstFree;
      slot := TryRange(PREFERRED_BASE, TABLE_SIZE);
      if slot.None? {
        slot := TryRange(0, PREFERRED_BASE);
      }
    }

    // ---- models ----

    method CreateCustomModel(id: uint32, base: bool)
      requires table.Length == TABLE_SIZE
      modifies this, table
      ensures View() == CreateModel(old(View()), id, base)
    {
      if id in models || !base {
        return;
      }
      var slot := AllocateGtaModelSlot();
      if slot.None? {
        return;
      }
      SlotInTable(View());
      hide AllocateSlot;
      models := models[id := Entry(slot.value, nextInfo)];
      table[slot.value] := Some(nextInfo);
      nextInfo := nextInfo + 1;
    }

    method PushDestructionCommand(id: uint32)
      modifies this`queue
      ensures View() == PushDestruction(old(View()), id)
    {
      queue := queue + [id];
    }

    method DestroyCustomModel(id: uint32, slotsInWorld: set<nat>)
      modifies this, table
      ensures View() == DestroyModel(old(View()), id, slotsInWorld)
    {
      if id !in models {
        return;
      }
      var slot := models[id].slot;
      if (id in uses && uses[id] > 0) || slot in slotsInWorld {
        PushDestructionCommand(id);
        return;
      }
      if slot < table.Length {
        table[slot] := None;
      }
      models := models - {id};
    }

    method IsCustomModelCurrentlyInUse(id: uint32, slotsInWorld: set<nat>) returns (inUse: bool)
      ensures inUse <==> InUse(View(), id, slotsInWorld)
    {
      if id in uses && uses[id] > 0 {
        return true;
      }
      if id in models {
        return models[id].slot in slotsInWorld;
      }
      return false;
    }

    method ProcessPendingDestructions(spawned: bool, slotsInWorld: set<nat>)
      modifies this, table
      ensures View() == ProcessDestructions(old(View()), spawned, slotsInWorld)
    {
      hide InUse, DestroyModel, PushDestruction;
      if !spawned || queue == [] {
        return;
      }
      var localQueue := queue;
      queue := [];
      ghost var start, all := View(), localQueue;
      ghost var n := 0;
      while localQueue != []
        invariant n <= |all| && localQueue == all[n..]
        invariant View() == Drain(start, all[..n], slotsInWorld)
        decreases |localQueue|
      {
        var id := localQueue[0];
        assert all[..n + 1][..n] == all[..n];
        localQueue := localQueue[1..];
        n := n + 1;
        var inUse := IsCustomModelCurrentlyInUse(id, slotsInWorld);
        if !inUse {
          DestroyCustomModel(id, slotsInWorld);
        } else {
          PushDestructionCommand(id);
        }
      }
      assert all[..n] == all;
    }

    method ClearAllCustomModels(slotsInWorld: set<nat>)
      modifies this, table
      ensures View() == ClearModels(old(View()), slotsInWorld)
    {
      hide Kept, ClearedTable;
      ghost var s := View();
      var todo := models;
      ghost var done: map<uint32, Entry> := map[];
      models := map[];
      NothingCleared(s.table, slotsInWorld);
      while todo != map[]
        invariant done.Keys !! todo.Keys && done + todo == s.models
        invariant models == Kept(done, slotsInWorld) && table[..] == ClearedTable(s.table, done, slotsInWorld)
        invariant bindings == s.bindings && uses == s.uses && cached == s.cached
        invariant queue == s.queue && nextInfo == s.nextInfo
        decreases todo.Keys
      {
        var id :| id in todo;
        var entry := todo[id];
        ClearedOneMore(s.table, done, slotsInWorld, id, entry);
        if entry.slot in slotsInWorld {
          models := models[id := entry];
        } else if entry.slot < table.Length {
          table[entry.slot] := None;
        }
        done, todo := done[id := entry], todo - {id};
      }
      assert done == s.models;
    }

    method ProcessPendingClearAll(pending: bool, slotsInWorld: set<nat>)
      modifies this, table
      ensures View() == if pending then ClearAll(old(View()), slotsInWorld) else old(View())
    {
      hide LifetimeState.ClearBindings, ClearModels;
      if pending {
        ClearBindings();
        ClearAllCustomModels(slotsInWorld);
      }
    }
  }

  // ---- the loop over the bindings ----

  lemma DecrementNone(uses: Uses)
    ensures DecrementAll(uses, map[]) == uses
  {
    assert forall m :: BoundTo(map[], m) == {};
  }

  lemma DecrementOneMore(uses: Uses, done: Bindings, v: uint16, m: uint32)
    requires v !in done
    ensures DecrementAll(uses, done[v := m]) == Decrement(DecrementAll(uses, done), m)
  {
    hide BoundTo;
    var more := done[v := m];
    forall k: uint32
      ensures |BoundTo(more, k)| == |BoundTo(done, k)| + if k == m then 1 else 0
    {
      LifetimeTheorems.BoundAdd(done, v, m, k);
    }
  }

  // ---- slots ----

  lemma SlotInTable(s: State)
    ensures AllocateSlot(s).Some? ==> AllocateSlot(s).value < |s.table|
  {
    FoundInTable(s, PREFERRED_BASE, TABLE_SIZE);
    FoundInTable(s, 0, PREFERRED_BASE);
    hide FirstFree;
  }

  lemma {:induction false} FoundInTable(s: State, from: nat, end: nat)
    ensures FirstFree(s, from, end).Some? ==> FirstFree(s, from, end).value < |s.table|
    decreases end - from
  {
    if from < end {
      FoundInTable(s, from + 1, end);
    }
  }

  lemma NothingCleared(table: Table, slots: set<nat>)
    ensures ClearedTable(table, map[], slots) == table && Kept(map[], slots) == map[]
  {
    assert forall i | 0 <= i < |table| :: ClearedTable(table, map[], slots)[i] == table[i];
    assert forall id :: id !in Kept(map[], slots);
  }

  lemma ClearedOneMore(table: Table, done: map<uint32, Entry>, slots: set<nat>, id: uint32, e: Entry)
    requires id !in done
    ensures
      var before := ClearedTable(table, done, slots);
      ClearedTable(table, done[id := e], slots)
        == if e.slot !in slots && e.slot < |before| then before[e.slot := None] else before
    ensures Kept(done[id := e], slots) == if e.slot in slots then Kept(done, slots)[id := e] else Kept(done, slots)
  {
    hide Claimed;
    ClaimedOneMore(done, id, e);
    var before, after := ClearedTable(table, done, slots), ClearedTable(table, done[id := e], slots);
    forall i | 0 <= i < |table|
      ensures after[i] == if i == e.slot && i !in slots then None else before[i]
    {
      assert Claimed(done[id := e], i) <==> Claimed(done, i) || i == e.slot;
      assert before[i] == if i !in slots && Claimed(done, i) then None else table[i];
      assert after[i] == if i !in slots && Claimed(done[id := e], i) then None else table[i];
    }
  }

  lemma ClaimedOneMore(models: map<uint32, Entry>, id: uint32, e: Entry)
    requires id !in models
    ensures forall i: nat :: Claimed(models[id := e], i) <==> Claimed(models, i) || i == e.slot
  {
    var more := models[id := e];
    forall i: nat
      ensures Claimed(more, i) <==> Claimed(models, i) || i == e.slot
    {
      assert id in more && more[id] == e;
      assert forall j :: j in models ==> j in more && more[j] == models[j];
    }
  }
}
