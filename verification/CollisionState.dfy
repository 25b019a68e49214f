/** CollisionLoader's installed collisions: who is attached to which engine model, and what each
    attachment replaced. Each operation as a function of the state. Reading, parsing and selecting
    the file has an outcome of its own, which is a parameter. */
module CollisionState {
  import opened Common

  const GTA_MODEL_INFO_COUNT: nat := 20000

  // A collision of the engine, or the n-th this loader allocated.
  datatype Col = Engine(id: nat) | Ours(n: nat)

  datatype Result =
    | Success | NotInitialized | AlreadyLoaded | NotLoaded | TargetModelNotFound | TargetWrongType
    | TargetAlreadyOwned | FileError | AttachFailed | DetachFailed | ReferenceStillActive

  datatype Handle = Handle(target: int, collision: nat, previous: Option<Col>, previousOwned: bool, references: nat)

  // What the engine knows of a model that does not change here.
  datatype Target = Target(fits: bool, owned: bool)

  datatype World = World(initialized: bool, targets: map<int, Target>)

  datatype State = State(
    loaded: map<uint32, Handle>,
    ptr: map<int, Option<Col>>,   // m_pColModel
    lod: map<int, bool>,
    next: nat,                    // collisions allocated so far
    freed: set<nat>)

  // ---- operations ----

  // What Load reports without touching anything, if it does.
  function Refusal(w: World, s: State, id: uint32, t: int, file: Result): Option<Result> {
    if !w.initialized then Some(NotInitialized)
    else if id in s.loaded then Some(AlreadyLoaded)
    else if t < 0 || t >= GTA_MODEL_INFO_COUNT || t !in w.targets || t !in s.ptr then Some(TargetModelNotFound)
    else if !w.targets[t].fits then Some(TargetWrongType)
    else if s.ptr[t].Some? && w.targets[t].owned then Some(TargetAlreadyOwned)
    else if file != Success then Some(file)
    else None
  }

  // `file`: reading, parsing, selecting and loading the record; `accepted`: the engine took the pointer
  function Load(w: World, s: State, id: uint32, t: int, file: Result, accepted: bool): (State, Result) {
    match Refusal(w, s, id, t, file)
    case Some(r) => (s, r)
    case None =>
      if t !in s.ptr || t !in w.targets then (s, TargetModelNotFound)
      else if !accepted then
        (s.(next := s.next + 1, freed := s.freed + {s.next}, lod := s.lod[t := w.targets[t].owned]), AttachFailed)
      else
        (s.(next := s.next + 1, ptr := s.ptr[t := Some(Ours(s.next))], lod := s.lod[t := true],
            loaded := s.loaded[id := Handle(t, s.next, s.ptr[t], w.targets[t].owned, 1)]),
         Success)
  }

  function AddReference(s: State, id: uint32): State {
    if id !in s.loaded then s
    else s.(loaded := s.loaded[id := s.loaded[id].(references := s.loaded[id].references + 1)])
  }

  function RemoveReference(s: State, id: uint32): State {
    if id !in s.loaded || s.loaded[id].references == 0 then s
    else s.(loaded := s.loaded[id := s.loaded[id].(references := s.loaded[id].references - 1)])
  }

  predicate OnTop(s: State, id: uint32) {
    id in s.loaded && s.loaded[id].target in s.ptr
      && s.ptr[s.loaded[id].target] == Some(Ours(s.loaded[id].collision))
  }

  function Removed(s: State, id: uint32): State
    requires id in s.loaded
  {
    var h := s.loaded[id];
    s.(ptr := s.ptr[h.target := h.previous], lod := s.lod[h.target := h.previousOwned],
       freed := s.freed + {h.collision}, loaded := s.loaded - {id})
  }

  function Release(w: World, s: State, id: uint32): (State, Result) {
    if id !in s.loaded then (s, NotLoaded)
    else
      var s1 := RemoveReference(s, id);
      if s1.loaded[id].references != 0 then (s1, Success)
      else if s.loaded[id].target !in w.targets then (s1, TargetModelNotFound)
      else if !OnTop(s, id) then (s1, DetachFailed)
      else (Removed(s, id), Success)
  }

  function Unload(w: World, s: State, id: uint32): (State, Result) {
    if id !in s.loaded then (s, NotLoaded)
    else if s.loaded[id].references > 0 then (s, ReferenceStillActive)
    else if s.loaded[id].target !in w.targets then (s, TargetModelNotFound)
    else if !OnTop(s, id) then (s, DetachFailed)
    else (Removed(s, id), Success)
  }

  // ---- runs ----

  datatype Op =
    | LoadOp(id: uint32, target: int, file: Result, accepted: bool)
    | AddRef(id: uint32)
    | RemoveRef(id: uint32)
    | ReleaseOp(id: uint32)
    | UnloadOp(id: uint32)

  function Step(w: World, s: State, op: Op): State {
    match op
    case LoadOp(id, t, file, accepted) => Load(w, s, id, t, file, accepted).0
    case AddRef(id) => AddReference(s, id)
    case RemoveRef(id) => RemoveReference(s, id)
    case ReleaseOp(id) => Release(w, s, id).0
    case UnloadOp(id) => Unload(w, s, id).0
  }

  function Run(w: World, s: State, ops: seq<Op>): State {
    if ops == [] then s else Step(w, Run(w, s, ops[..|ops| - 1]), ops[|ops| - 1])
  }

  function Initial(original: map<int, Option<Col>>, lod: map<int, bool>): State { State(map[], original, lod, 0, {}) }
}
