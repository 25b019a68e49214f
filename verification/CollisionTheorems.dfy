/** The collisions installed on a model form a stack, and removing them all puts the original back. */
module CollisionTheorems {
  import opened Common
  import opened CollisionState

  type Stacks = map<int, seq<uint32>>

  // The stacks of installed ids, bottom first, after one more operation.
  function Tracked(w: World, s: State, stacks: Stacks, op: Op): Stacks {
    var s' := Step(w, s, op);
    if op.LoadOp? && op.id !in s.loaded && op.id in s'.loaded && op.target in stacks
    then stacks[op.target := stacks[op.target] + [op.id]]
    else if op.id in s.loaded && op.id !in s'.loaded && s.loaded[op.id].target in stacks
            && stacks[s.loaded[op.id].target] != []
    then
      var t := s.loaded[op.id].target;
      stacks[t := stacks[t][..|stacks[t]| - 1]]
    else stacks
  }

  // What lies below position i: the collision of the id below, or the original.
  function Below(s: State, stack: seq<uint32>, original: Option<Col>, i: nat): Option<Col>
    requires i <= |stack|
  {
    if i == 0 then original
    else if stack[i - 1] in s.loaded then Some(Ours(s.loaded[stack[i - 1]].collision))
    else None
  }

  predicate StackAt(s: State, t: int, stack: seq<uint32>, original: Option<Col>) {
    && t in s.ptr && s.ptr[t] == Below(s, stack, original, |stack|)
    && (forall i | 0 <= i < |stack| ::
          && stack[i] in s.loaded
          && s.loaded[stack[i]].target == t
          && s.loaded[stack[i]].previous == Below(s, stack, original, i))
    && (forall i, j | 0 <= i < |stack| && 0 <= j < |stack| :: stack[i] == stack[j] ==> i == j)
  }

  // Our collisions are distinct and none of the installed ones is freed.
  ghost predicate Fresh(s: State) {
    && (forall id :: id in s.loaded ==> s.loaded[id].collision < s.next && s.loaded[id].collision !in s.freed)
    && (forall i, j :: i in s.loaded && j in s.loaded && s.loaded[i].collision == s.loaded[j].collision ==> i == j)
    && (forall n :: n in s.freed ==> n < s.next)
  }

  // All these maps speak of the same models.
  ghost predicate Domains(w: World, s: State, stacks: Stacks, original: map<int, Option<Col>>) {
    forall t ::
      (t in original <==> t in stacks) && (t in original <==> t in s.ptr) && (t in original <==> t in w.targets)
  }

  ghost predicate AllStacks(s: State, stacks: Stacks, original: map<int, Option<Col>>) {
    forall t :: t in original && t in stacks ==> StackAt(s, t, stacks[t], original[t])
  }

  ghost predicate Members(s: State, stacks: Stacks) {
    forall id :: id in s.loaded ==> MemberAt(s.loaded[id], stacks, id)
  }

  predicate MemberAt(h: Handle, stacks: Stacks, id: uint32) { h.target in stacks && id in stacks[h.target] }

  ghost predicate Stacked(w: World, s: State, stacks: Stacks, original: map<int, Option<Col>>) {
    Fresh(s) && Domains(w, s, stacks, original) && AllStacks(s, stacks, original) && Members(s, stacks)
  }

  ghost predicate EngineOnly(original: map<int, Option<Col>>) {
    forall t :: t in original ==> original[t].None? || original[t].value.Engine?
  }

  // ---- what the top is ----

  // Only the last id of a stack has its collision on the model.
  lemma OnTopIff(w: World, s: State, stacks: Stacks, original: map<int, Option<Col>>, id: uint32)
    requires Stacked(w, s, stacks, original) && EngineOnly(original) && id in s.loaded
    ensures
      var t := s.loaded[id].target;
      && t in original && t in stacks && t in s.ptr && t in w.targets
      && stacks[t] != [] && (OnTop(s, id) <==> stacks[t][|stacks[t]| - 1] == id)
  {
    hide StackAt;
    var t := s.loaded[id].target;
    assert MemberAt(s.loaded[id], stacks, id);
    assert StackAt(s, t, stacks[t], original[t]);
    TopOf(s, t, stacks[t], original[t], id);
  }

  lemma TopOf(s: State, t: int, stack: seq<uint32>, original: Option<Col>, id: uint32)
    requires Fresh(s) && StackAt(s, t, stack, original) && stack != []
    requires id in s.loaded && s.loaded[id].target == t
    ensures OnTop(s, id) <==> stack[|stack| - 1] == id
  {
    assert stack[|stack| - 1] in s.loaded;
  }

  // ---- one stack ----

  lemma LoadedStackAt(s: State, s': State, id: uint32, h: Handle, t: int, stack: seq<uint32>, original: Option<Col>)
    requires StackAt(s, t, stack, original)
    requires id !in s.loaded && s'.loaded == s.loaded[id := h]
    requires h.target in s.ptr && h.previous == s.ptr[h.target]
    requires s'.ptr == s.ptr[h.target := Some(Ours(h.collision))]
    ensures StackAt(s', t, if h.target == t then stack + [id] else stack, original)
  {
    assert id !in stack;
    var stack' := if h.target == t then stack + [id] else stack;
    forall i | 0 <= i <= |stack|
      ensures Below(s', stack', original, i) == Below(s, stack, original, i)
    {
    }
  }

  // What lies below does not depend on ids that are not in the stack.
  lemma BelowWithout(s: State, s': State, id: uint32, stack: seq<uint32>, original: Option<Col>, i: nat)
    requires i <= |stack| && id !in stack[..i]
    requires s'.loaded == s.loaded - {id}
    ensures Below(s', stack[..i], original, i) == Below(s, stack, original, i)
  {
    assert i > 0 ==> stack[..i][i - 1] == stack[i - 1];
  }

  lemma RemovedStackAt(s: State, s': State, id: uint32, t: int, stack: seq<uint32>, original: Option<Col>)
    requires StackAt(s, t, stack, original) && id in s.loaded
    requires s.loaded[id].target == t ==> stack != [] && stack[|stack| - 1] == id
    requires s'.loaded == s.loaded - {id} && s'.ptr == s.ptr[s.loaded[id].target := s.loaded[id].previous]
    ensures StackAt(s', t, if s.loaded[id].target == t then stack[..|stack| - 1] else stack, original)
  {
    var n := if s.loaded[id].target == t then |stack| - 1 else |stack|;
    assert stack[..|stack|] == stack;
    assert id !in stack[..n] by {
      assert forall j | 0 <= j < n :: stack[j] != id;
    }
    forall i | 0 <= i <= n
      ensures Below(s', stack[..n], original, i) == Below(s, stack, original, i)
    {
      assert stack[..n][..i] == stack[..i];
      BelowWithout(s, s', id, stack, original, i);
      BelowWithout(s', s', id, stack[..n], original, i);
    }
    hide Below;
  }

  // Only reference counts differ.
  ghost predicate SameHandles(s: State, s': State) {
    && (forall id :: id in s.loaded <==> id in s'.loaded)
    && (forall id :: id in s.loaded ==> s'.loaded[id] == s.loaded[id].(references := s'.loaded[id].references))
  }

  lemma SameStackAt(s: State, s': State, t: int, stack: seq<uint32>, original: Option<Col>)
    requires StackAt(s, t, stack, original) && SameHandles(s, s') && s'.ptr == s.ptr
    ensures StackAt(s', t, stack, original)
  {
    forall i | 0 <= i <= |stack|
      ensures Below(s', stack, original, i) == Below(s, stack, original, i)
    {
      assert i > 0 ==> stack[i - 1] in s.loaded;
    }
  }

  // ---- steps ----

  lemma LoadStacked(w: World, s: State, stacks: Stacks, original: map<int, Option<Col>>, op: Op)
    requires Stacked(w, s, stacks, original) && op.LoadOp?
    ensures Stacked(w, Step(w, s, op), Tracked(w, s, stacks, op), original)
  {
    hide StackAt, Fresh;
    var s', stacks' := Step(w, s, op), Tracked(w, s, stacks, op);
    if op.id !in s.loaded && op.id in s'.loaded {
      LoadFresh(w, s, op);
      forall t | t in original
        ensures StackAt(s', t, stacks'[t], original[t])
      {
        LoadedStackAt(s, s', op.id, s'.loaded[op.id], t, stacks[t], original[t]);
      }
      forall id | id in s'.loaded
        ensures MemberAt(s'.loaded[id], stacks', id)
      {
        assert id in s.loaded ==> MemberAt(s.loaded[id], stacks, id);
      }
    } else {
      SameStacked(w, s, s', stacks, original);
    }
  }

  lemma LoadFresh(w: World, s: State, op: Op)
    requires Fresh(s) && op.LoadOp?
    ensures Fresh(Step(w, s, op))
  {
  }

  lemma SameStacked(w: World, s: State, s': State, stacks: Stacks, original: map<int, Option<Col>>)
    requires Stacked(w, s, stacks, original)
    requires s'.ptr == s.ptr && SameHandles(s, s') && s.next <= s'.next
    requires forall n :: n in s'.freed ==> n in s.freed || s.next <= n < s'.next
    ensures Stacked(w, s', stacks, original)
  {
    hide StackAt;
    forall t | t in original
      ensures StackAt(s', t, stacks[t], original[t])
    {
      SameStackAt(s, s', t, stacks[t], original[t]);
    }
    forall id | id in s'.loaded
      ensures MemberAt(s'.loaded[id], stacks, id)
    {
      assert MemberAt(s.loaded[id], stacks, id);
    }
  }

  lemma RemovedFresh(s: State, id: uint32)
    requires Fresh(s) && id in s.loaded
    ensures Fresh(Removed(s, id))
  {
  }

  lemma RemovedStacked(w: World, s: State, stacks: Stacks, original: map<int, Option<Col>>, id: uint32)
    requires Stacked(w, s, stacks, original) && EngineOnly(original)
    requires id in s.loaded && OnTop(s, id)
    ensures
      var t := s.loaded[id].target;
      t in stacks && stacks[t] != []
      && Stacked(w, Removed(s, id), stacks[t := stacks[t][..|stacks[t]| - 1]], original)
  {
    hide StackAt, Fresh, OnTop, EngineOnly;
    OnTopIff(w, s, stacks, original, id);
    RemovedFresh(s, id);
    var u := s.loaded[id].target;
    var s', stacks' := Removed(s, id), stacks[u := stacks[u][..|stacks[u]| - 1]];
    forall t | t in original
      ensures StackAt(s', t, stacks'[t], original[t])
    {
      RemovedStackAt(s, s', id, t, stacks[t], original[t]);
    }
    forall j | j in s'.loaded
      ensures MemberAt(s'.loaded[j], stacks', j)
    {
      assert MemberAt(s.loaded[j], stacks, j);
      assert stacks[u] == stacks[u][..|stacks[u]| - 1] + [id];
    }
  }

  lemma StepStacked(w: World, s: State, stacks: Stacks, original: map<int, Option<Col>>, op: Op)
    requires Stacked(w, s, stacks, original) && EngineOnly(original)
    ensures Stacked(w, Step(w, s, op), Tracked(w, s, stacks, op), original)
  {
    hide Stacked, EngineOnly, OnTop, Load, Removed;
    if op.LoadOp? {
      LoadStacked(w, s, stacks, original, op);
    } else {
      KnownTargets(w, s, stacks, original, op.id);
      if op.id in s.loaded && OnTop(s, op.id) {
        RemovedStacked(w, s, stacks, original, op.id);
        RemovedForgets(s, op.id);
      }
      CountStacked(w, s, stacks, original, op.id);
    }
  }

  lemma KnownTargets(w: World, s: State, stacks: Stacks, original: map<int, Option<Col>>, id: uint32)
    requires Stacked(w, s, stacks, original)
    ensures id in s.loaded ==> s.loaded[id].target in w.targets && s.loaded[id].target in stacks
  {
    assert id in s.loaded ==> MemberAt(s.loaded[id], stacks, id);
  }

  lemma RemovedForgets(s: State, id: uint32)
    requires id in s.loaded
    ensures id !in Removed(s, id).loaded
  {
  }

  lemma CountStacked(w: World, s: State, stacks: Stacks, original: map<int, Option<Col>>, id: uint32)
    requires Stacked(w, s, stacks, original)
    ensures Stacked(w, AddReference(s, id), stacks, original) && Stacked(w, RemoveReference(s, id), stacks, original)
  {
    hide Stacked, AddReference, RemoveReference;
    CountsOnly(s, id);
    SameStacked(w, s, AddReference(s, id), stacks, original);
    SameStacked(w, s, RemoveReference(s, id), stacks, original);
  }

  lemma CountsOnly(s: State, id: uint32)
    ensures
      forall s' :: s' == AddReference(s, id) || s' == RemoveReference(s, id) ==>
        SameHandles(s, s') && s' == s.(loaded := s'.loaded)
  {
  }

  // ---- whole runs ----

  function RunStacks(w: World, s: State, stacks: Stacks, ops: seq<Op>): Stacks {
    if ops == [] then stacks
    else
      var front := ops[..|ops| - 1];
      Tracked(w, Run(w, s, front), RunStacks(w, s, stacks, front), ops[|ops| - 1])
  }

  function NoStacks(original: map<int, Option<Col>>): Stacks { map t | t in original :: [] }

  lemma {:induction false} RunStacked(w: World, s: State, stacks: Stacks, original: map<int, Option<Col>>, ops: seq<Op>)
    requires Stacked(w, s, stacks, original) && EngineOnly(original)
    ensures Stacked(w, Run(w, s, ops), RunStacks(w, s, stacks, ops), original)
  {
    hide Stacked, EngineOnly, Step, Tracked;
    if ops != [] {
      var front := ops[..|ops| - 1];
      RunStacked(w, s, stacks, original, front);
      StepStacked(w, Run(w, s, front), RunStacks(w, s, stacks, front), original, ops[|ops| - 1]);
    }
  }

  /** Over any run of loads, reference changes, releases and unloads, with failures of every kind,
      the ids installed on a model form a stack: each one's previous collision is that of the one
      below, the lowest one's is the original, and the model points to the topmost, or to the
      original when there is none. So it never points to a freed collision. */
  lemma InstalledCollisionsFormAStack(w: World, original: map<int, Option<Col>>, lod: map<int, bool>, ops: seq<Op>,
                                      t: int)
    requires EngineOnly(original) && (forall m :: m in w.targets <==> m in original) && t in original
    ensures
      var s := Run(w, Initial(original, lod), ops);
      var stacks := RunStacks(w, Initial(original, lod), NoStacks(original), ops);
      && t in stacks && StackAt(s, t, stacks[t], original[t])
      && (forall id :: id in s.loaded && s.loaded[id].target == t ==> id in stacks[t])
      && (s.ptr[t] == None || s.ptr[t].value.Engine? || s.ptr[t].value.n !in s.freed)
      && ((forall id :: id in s.loaded ==> s.loaded[id].target != t) ==> s.ptr[t] == original[t])
  {
    hide Run, RunStacks;
    var s0, stacks0 := Initial(original, lod), NoStacks(original);
    StartsStacked(w, original, lod);
    RunStacked(w, s0, stacks0, original, ops);
    var s, stacks := Run(w, s0, ops), RunStacks(w, s0, stacks0, ops);
    assert StackAt(s, t, stacks[t], original[t]);
    assert forall id :: id in s.loaded ==> MemberAt(s.loaded[id], stacks, id);
  }

  lemma StartsStacked(w: World, original: map<int, Option<Col>>, lod: map<int, bool>)
    requires forall m :: m in w.targets <==> m in original
    ensures Stacked(w, Initial(original, lod), NoStacks(original), original)
  {
  }

  /** A collision without references is removed exactly when it is on top of its model's stack, and
      then the model points to what lay below; otherwise removal fails and the pointers stay. */
  lemma RemovalIffOnTop(w: World, s: State, stacks: Stacks, original: map<int, Option<Col>>, id: uint32)
    requires Stacked(w, s, stacks, original) && EngineOnly(original)
    requires id in s.loaded && s.loaded[id].references == 0
    ensures
      var (s', r) := Unload(w, s, id);
      var stack := stacks[s.loaded[id].target];
      && stack != [] && Release(w, s, id) == (s', r)
      && (r == Success <==> stack[|stack| - 1] == id)
      && (r == Success <==> id !in s'.loaded)
      && (r == Success ==>
            s'.ptr[s.loaded[id].target] == Below(s, stack, original[s.loaded[id].target], |stack| - 1))
      && (r != Success ==> r == DetachFailed && s' == s)
  {
    OnTopIff(w, s, stacks, original, id);
    var t := s.loaded[id].target;
    assert StackAt(s, t, stacks[t], original[t]);
  }

  /** Release takes one reference; the last one unloads. So a collision loaded once and referenced n
      more times goes with the n-th release after that. */
  lemma ReleaseIsUnloadAtTheLastReference(w: World, s: State, id: uint32)
    requires id in s.loaded
    ensures Release(w, s, id) ==
      if s.loaded[id].references > 1 then (RemoveReference(s, id), Success) else Unload(w, RemoveReference(s, id), id)
  {
    var s1 := RemoveReference(s, id);
    assert s1.loaded - {id} == s.loaded - {id};
  }

  // ---- references ----

  // References to id added less those taken.
  function Balance(id: uint32, ops: seq<Op>): int {
    if ops == [] then 0
    else
      var op := ops[|ops| - 1];
      Balance(id, ops[..|ops| - 1]) +
      if op == AddRef(id) then 1 else if op == RemoveRef(id) || op == ReleaseOp(id) then -1 else 0
  }

  lemma StepCounts(w: World, s: State, id: uint32, op: Op)
    requires id in s.loaded && s.loaded[id].references > 0
    requires s.loaded[id].references + Balance(id, [op]) > 0
    ensures
      var s' := Step(w, s, op);
      id in s'.loaded && s'.loaded[id] == s.loaded[id].(references := s.loaded[id].references + Balance(id, [op]))
  {
    hide OnTop;
    assert [op][..0] == [];
  }

  /** As long as no more references are taken than were there, a collision stays loaded as it is,
      whatever is done with the others: its count is what it was plus those added less those taken. */
  lemma {:induction false} ReferencedStaysLoaded(w: World, s: State, id: uint32, ops: seq<Op>)
    requires id in s.loaded
    requires forall n | 0 <= n <= |ops| :: s.loaded[id].references + Balance(id, ops[..n]) > 0
    ensures
      var s' := Run(w, s, ops);
      && id in s'.loaded && s.loaded[id].references + Balance(id, ops) > 0
      && s'.loaded[id] == s.loaded[id].(references := s.loaded[id].references + Balance(id, ops))
  {
    hide Step;
    assert ops[..|ops|] == ops;
    if ops != [] {
      var front, op := ops[..|ops| - 1], ops[|ops| - 1];
      assert forall n | 0 <= n <= |front| :: front[..n] == ops[..n];
      ReferencedStaysLoaded(w, s, id, front);
      assert [op][..0] == [];
      StepCounts(w, Run(w, s, front), id, op);
    }
  }
}
