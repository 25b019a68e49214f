/** How many references a collision holds, what it took to install it, and what becomes of every
    collision made, over whole runs. */
module CollisionHistory {
  import opened Common
  import opened CollisionState
  import opened CollisionTheorems

  // ---- references ----

  // References since the load that installed id: one, and those added less those taken, not below none.
  function RunReferences(w: World, s: State, ops: seq<Op>, id: uint32): nat {
    if ops == [] then 0
    else
      var front, op := ops[..|ops| - 1], ops[|ops| - 1];
      var n := RunReferences(w, s, front, id);
      match op
      case LoadOp(j, _, _, _) => if j == id && id !in Run(w, s, front).loaded then 1 else n
      case AddRef(j) => if j == id then n + 1 else n
      case RemoveRef(j) => if j == id && n > 0 then n - 1 else n
      case ReleaseOp(j) => if j == id && n > 0 then n - 1 else n
      case UnloadOp(_) => n
  }

  lemma LoadReferences(w: World, s: State, op: Op, id: uint32)
    requires op.LoadOp?
    ensures
      var s' := Step(w, s, op);
      id in s'.loaded ==>
        if id in s.loaded then s'.loaded[id] == s.loaded[id] else op.id == id && s'.loaded[id].references == 1
  {
  }

  lemma OtherReferences(w: World, s: State, op: Op, id: uint32)
    requires !op.LoadOp?
    ensures
      var s' := Step(w, s, op);
      id in s'.loaded ==>
        && id in s.loaded
        && s'.loaded[id].references ==
             (if op == AddRef(id) then s.loaded[id].references + 1
              else if (op == RemoveRef(id) || op == ReleaseOp(id)) && s.loaded[id].references > 0
              then s.loaded[id].references - 1
              else s.loaded[id].references)
  {
    hide OnTop;
  }

  /** Over every run, a loaded collision holds one reference for its load, plus those added less those taken
      since. */
  lemma {:induction false} ReferencesAreCounted(w: World, original: map<int, Option<Col>>, lod: map<int, bool>,
                                                ops: seq<Op>, id: uint32)
    ensures
      var s := Run(w, Initial(original, lod), ops);
      id in s.loaded ==> s.loaded[id].references == RunReferences(w, Initial(original, lod), ops, id)
  {
    hide Step;
    if ops != [] {
      var front, op := ops[..|ops| - 1], ops[|ops| - 1];
      ReferencesAreCounted(w, original, lod, front, id);
      var s := Run(w, Initial(original, lod), front);
      if op.LoadOp? {
        LoadReferences(w, s, op, id);
      } else {
        OtherReferences(w, s, op, id);
      }
    }
  }

  function Times(op: Op, n: nat): seq<Op> { if n == 0 then [] else Times(op, n - 1) + [op] }

  lemma OneMore(w: World, s: State, op: Op, n: nat)
    requires n > 0
    ensures Run(w, s, Times(op, n)) == Step(w, Run(w, s, Times(op, n - 1)), op)
  {
    assert Times(op, n)[..|Times(op, n)| - 1] == Times(op, n - 1);
  }

  function WithReferences(s: State, id: uint32, n: nat): State
    requires id in s.loaded
  {
    s.(loaded := s.loaded[id := s.loaded[id].(references := n)])
  }

  lemma OneTaken(w: World, s: State, id: uint32, n: nat)
    requires id in s.loaded && n > 1
    ensures Step(w, WithReferences(s, id, n), ReleaseOp(id)) == WithReferences(s, id, n - 1)
  {
  }

  lemma OneAdded(w: World, s: State, id: uint32, n: nat)
    requires id in s.loaded
    ensures Step(w, WithReferences(s, id, n), AddRef(id)) == WithReferences(s, id, n + 1)
  {
  }

  lemma SameReferences(s: State, id: uint32)
    requires id in s.loaded
    ensures WithReferences(s, id, s.loaded[id].references) == s
  {
    assert s.loaded[id := s.loaded[id]] == s.loaded;
  }

  lemma {:induction false} TakenTimes(w: World, s: State, id: uint32, n: nat)
    requires id in s.loaded && n < s.loaded[id].references
    ensures Run(w, s, Times(ReleaseOp(id), n)) == WithReferences(s, id, s.loaded[id].references - n)
  {
    hide Step, WithReferences;
    if n == 0 {
      SameReferences(s, id);
    } else {
      hide Run;
      TakenTimes(w, s, id, n - 1);
      OneMore(w, s, ReleaseOp(id), n);
      OneTaken(w, s, id, s.loaded[id].references - n + 1);
    }
  }

  lemma {:induction false} AddedTimes(w: World, s: State, id: uint32, n: nat)
    requires id in s.loaded
    ensures Run(w, s, Times(AddRef(id), n)) == WithReferences(s, id, s.loaded[id].references + n)
  {
    hide Step, WithReferences;
    if n == 0 {
      SameReferences(s, id);
    } else {
      hide Run;
      AddedTimes(w, s, id, n - 1);
      OneMore(w, s, AddRef(id), n);
      OneAdded(w, s, id, s.loaded[id].references + n - 1);
    }
  }

  /** A collision with one reference, to which n are added, is as it was after n releases; the next one unloads
      it, unless another lies on top. */
  lemma AddedReferencesTakeAsManyReleases(w: World, s: State, id: uint32, n: nat)
    requires id in s.loaded && s.loaded[id].references == 1
    ensures
      var s' := Run(w, Run(w, s, Times(AddRef(id), n)), Times(ReleaseOp(id), n));
      && s' == s
      && Step(w, s', ReleaseOp(id)) == Unload(w, RemoveReference(s, id), id).0
      && (OnTop(s, id) && s.loaded[id].target in w.targets ==> id !in Step(w, s', ReleaseOp(id)).loaded)
  {
    AddedTimes(w, s, id, n);
    var s1 := Run(w, s, Times(AddRef(id), n));
    TakenTimes(w, s1, id, n);
    assert s1.loaded[id := s.loaded[id]] == s.loaded;
    hide Run;
    ReleaseIsUnloadAtTheLastReference(w, s, id);
  }

  // ---- what it takes to load ----

  /** A load succeeds exactly when the loader is initialised, the id is not loaded yet, the target is a known
      model of a fitting type that does not own a collision of its own, the file is read and parsed, and the
      engine takes the pointer. Then the collision is on the model, holding one reference: unloading it at
      once is refused, and so is loading it again. */
  lemma LoadSucceedsIff(w: World, s: State, id: uint32, t: int, file: Result, accepted: bool)
    ensures
      var (s', r) := Load(w, s, id, t, file, accepted);
      && (r == Success <==>
            && w.initialized && id !in s.loaded && 0 <= t < GTA_MODEL_INFO_COUNT && t in w.targets && t in s.ptr
            && w.targets[t].fits && !(s.ptr[t].Some? && w.targets[t].owned) && file == Success && accepted)
      && (r != Success ==> s'.loaded == s.loaded && s'.ptr == s.ptr)
      && (r == Success ==>
            && OnTop(s', id) && s'.loaded[id].target == t && s'.loaded[id].references == 1
            && Unload(w, s', id) == (s', ReferenceStillActive)
            && Load(w, s', id, t, file, accepted) == (s', AlreadyLoaded))
  {
  }

  // The load in this run that installed the id with this handle.
  ghost predicate InstalledAt(w: World, s0: State, ops: seq<Op>, i: nat, id: uint32, t: int) {
    && i < |ops| && ops[i] == LoadOp(id, t, Success, true)
    && id !in Run(w, s0, ops[..i]).loaded
    && forall j | i < j <= |ops| :: id in Run(w, s0, ops[..j]).loaded
  }

  /** Over every run, each loaded collision was installed by a load of its id onto its model that the engine took,
      of a file that was read and parsed, and has been loaded ever since; and its model fits. */
  lemma {:induction false} LoadedWasInstalled(w: World, original: map<int, Option<Col>>, lod: map<int, bool>,
                                              ops: seq<Op>, id: uint32) returns (i: nat)
    requires id in Run(w, Initial(original, lod), ops).loaded
    ensures
      var s := Run(w, Initial(original, lod), ops);
      InstalledAt(w, Initial(original, lod), ops, i, id, s.loaded[id].target)
      && w.initialized && s.loaded[id].target in w.targets && w.targets[s.loaded[id].target].fits
  {
    hide Step;
    var s0 := Initial(original, lod);
    var front, op := ops[..|ops| - 1], ops[|ops| - 1];
    var s := Run(w, s0, front);
    assert ops[..|ops|] == ops && ops[..|front|] == front;
    if id in s.loaded {
      i := LoadedWasInstalled(w, original, lod, front, id);
      SameTarget(w, s, op, id);
      assert ops[..i] == front[..i];
      forall j | i < j <= |ops|
        ensures id in Run(w, s0, ops[..j]).loaded
      {
        assert j <= |front| ==> ops[..j] == front[..j];
      }
    } else {
      i := |front|;
      NewlyLoaded(w, s, op, id);
    }
  }

  lemma SameTarget(w: World, s: State, op: Op, id: uint32)
    requires id in s.loaded && id in Step(w, s, op).loaded
    ensures Step(w, s, op).loaded[id].target == s.loaded[id].target
  {
    hide OnTop;
  }

  lemma NewlyLoaded(w: World, s: State, op: Op, id: uint32)
    requires id !in s.loaded && id in Step(w, s, op).loaded
    ensures op.LoadOp? && op == LoadOp(id, Step(w, s, op).loaded[id].target, Success, true)
    ensures w.initialized && op.target in w.targets && w.targets[op.target].fits
  {
    hide OnTop;
  }

  // ---- what becomes of every collision ----

  ghost predicate InUse(s: State, n: nat) { exists id :: id in s.loaded && s.loaded[id].collision == n }

  // Each collision made so far is in use or freed.
  ghost predicate Leakless(s: State) { forall n: nat :: n < s.next ==> n in s.freed || InUse(s, n) }

  lemma StepLeakless(w: World, s: State, op: Op)
    requires Leakless(s)
    ensures Leakless(Step(w, s, op))
  {
    hide OnTop;
    var s' := Step(w, s, op);
    forall n: nat | n < s'.next
      ensures n in s'.freed || InUse(s', n)
    {
      if n < s.next && n !in s.freed {
        var id :| id in s.loaded && s.loaded[id].collision == n;
        Survives(w, s, op, id);
      } else if n == s.next {
        NewIsUsed(w, s, op);
      } else {
        FreedStays(w, s, op, n);
      }
    }
  }

  lemma Survives(w: World, s: State, op: Op, id: uint32)
    requires id in s.loaded
    ensures
      var s' := Step(w, s, op);
      s.loaded[id].collision in s'.freed || (id in s'.loaded && s'.loaded[id].collision == s.loaded[id].collision)
  {
    hide OnTop;
  }

  lemma NewIsUsed(w: World, s: State, op: Op)
    ensures
      var s' := Step(w, s, op);
      && s.next <= s'.next <= s.next + 1
      && (s'.next > s.next ==>
            s.next in s'.freed || (op.LoadOp? && op.id in s'.loaded && s'.loaded[op.id].collision == s.next))
  {
    hide OnTop;
  }

  lemma FreedStays(w: World, s: State, op: Op, n: nat)
    ensures n in s.freed ==> n in Step(w, s, op).freed
    ensures n > s.next ==> n >= Step(w, s, op).next
  {
    hide OnTop;
  }

  lemma {:induction false} RunLeakless(w: World, s: State, ops: seq<Op>)
    requires Leakless(s)
    ensures Leakless(Run(w, s, ops))
  {
    hide Leakless, Step;
    if ops != [] {
      RunLeakless(w, s, ops[..|ops| - 1]);
      StepLeakless(w, Run(w, s, ops[..|ops| - 1]), ops[|ops| - 1]);
    }
  }

  /** Over every run, a collision made so far is freed exactly when no loaded id holds it: none leaks, and none
      in use is freed. */
  lemma CollisionsDoNotLeak(w: World, original: map<int, Option<Col>>, lod: map<int, bool>, ops: seq<Op>, n: nat)
    requires EngineOnly(original) && (forall m :: m in w.targets <==> m in original)
    ensures
      var s := Run(w, Initial(original, lod), ops);
      n < s.next ==> (n in s.freed <==> !InUse(s, n))
  {
    hide Run, EngineOnly, Stacked;
    var s0 := Initial(original, lod);
    NothingMade(original, lod);
    RunLeakless(w, s0, ops);
    StartsStacked(w, original, lod);
    RunStacked(w, s0, NoStacks(original), original, ops);
    StackedIsFresh(w, Run(w, s0, ops), RunStacks(w, s0, NoStacks(original), ops), original);
  }

  lemma NothingMade(original: map<int, Option<Col>>, lod: map<int, bool>)
    ensures Leakless(Initial(original, lod))
  {
  }

  lemma StackedIsFresh(w: World, s: State, stacks: Stacks, original: map<int, Option<Col>>)
    requires Stacked(w, s, stacks, original)
    ensures Fresh(s)
  {
  }
}
