/** CollisionLoader's loaded_ map and the engine's collision pointers, updated in place. */
module CollisionLoading {
  import opened Common
  import opened CollisionState

  class CollisionLoader {
    const w: World
    var loaded: map<uint32, Handle>
    var ptr: map<int, Option<Col>>
    var lod: map<int, bool>
    var next: nat
    var freed: set<nat>

    constructor (w: World, original: map<int, Option<Col>>, lod: map<int, bool>)
      ensures this.w == w && View() == Initial(original, lod)
    {
      this.w := w;
      loaded, ptr, this.lod, next, freed := map[], original, lod, 0, {};
    }

    function View(): State
      reads this
    {
      State(loaded, ptr, lod, next, freed)
    }

    // CBaseModelInfo::SetColModel, then SetIsLod
    method SetColModel(t: int, col: Option<Col>, isLod: bool)
      modifies this`ptr, this`lod
      ensures ptr == old(ptr)[t := col] && lod == old(lod)[t := isLod]
    {
      ptr, lod := ptr[t := col], lod[t := isLod];
    }

    method Load(id: uint32, t: int, file: Result, accepted: bool) returns (r: Result)
      modifies this
      ensures (View(), r) == CollisionState.Load(w, old(View()), id, t, file, accepted)
    {
      if !w.initialized {
        return NotInitialized;
      }
      if id in loaded {
        return AlreadyLoaded;
      }
      if t < 0 || t >= GTA_MODEL_INFO_COUNT || t !in w.targets || t !in ptr {
        return TargetModelNotFound;
      }
      if !w.targets[t].fits {
        return TargetWrongType;
      }
      if ptr[t].Some? && w.targets[t].owned {
        return TargetAlreadyOwned;
      }
      if file != Success {
        return file;
      }
      var collision := next;
      next := next + 1;
      var handle := Handle(t, collision, ptr[t], w.targets[t].owned, 0);
      // m_pColModel is the new collision only if the engine took it.
      SetColModel(t, if accepted then Some(Ours(collision)) else handle.previous, true);
      if !accepted {
        SetColModel(t, handle.previous, handle.previousOwned);
        freed := freed + {collision};
        assert ptr == old(ptr) && lod == old(lod)[t := handle.previousOwned];
        return AttachFailed;
      }
      loaded := loaded[id := handle.(references := 1)];
      return Success;
    }

    method AddReference(id: uint32) returns (ok: bool)
      modifies this`loaded
      ensures View() == CollisionState.AddReference(old(View()), id) && ok == (id in old(loaded))
    {
      if id !in loaded {
        return false;
      }
      loaded := loaded[id := loaded[id].(references := loaded[id].references + 1)];
      return true;
    }

    method RemoveReference(id: uint32) returns (ok: bool)
      modifies this`loaded
      ensures View() == CollisionState.RemoveReference(old(View()), id)
      ensures ok == (id in old(loaded) && old(loaded)[id].references > 0)
    {
      if id !in loaded {
        return false;
      }
      if loaded[id].references == 0 {
        return false;
      }
      loaded := loaded[id := loaded[id].(references := loaded[id].references - 1)];
      return true;
    }

    method Release(id: uint32) returns (r: Result)
      modifies this
      ensures (View(), r) == CollisionState.Release(w, old(View()), id)
    {
      if id !in loaded {
        return NotLoaded;
      }
      if loaded[id].references > 0 {
        loaded := loaded[id := loaded[id].(references := loaded[id].references - 1)];
      }
      var handle := loaded[id];
      if handle.references != 0 {
        return Success;
      }
      if handle.target !in w.targets {
        return TargetModelNotFound;
      }
      if handle.target in ptr && ptr[handle.target] == Some(Ours(handle.collision)) {
        SetColModel(handle.target, handle.previous, handle.previousOwned);
      } else {
        return DetachFailed;
      }
      freed := freed + {handle.collision};
      loaded := loaded - {id};
      assert loaded == old(loaded) - {id};
      return Success;
    }

    method Unload(id: uint32) returns (r: Result)
      modifies this
      ensures (View(), r) == CollisionState.Unload(w, old(View()), id)
    {
      if id !in loaded {
        return NotLoaded;
      }
      var handle := loaded[id];
      if handle.references > 0 {
        return ReferenceStillActive;
      }
      if handle.target !in w.targets {
        return TargetModelNotFound;
      }
      if handle.target !in ptr || ptr[handle.target] != Some(Ours(handle.collision)) {
        return DetachFailed;
      }
      SetColModel(handle.target, handle.previous, handle.previousOwned);
      freed := freed + {handle.collision};
      loaded := loaded - {id};
      return Success;
    }
  }
}
