/** The level-of-detail flag that Load sets and a removal puts back: it follows the last thing done to
    the model, not the stack of collisions installed on it. */
module CollisionFlag {
  import opened Common
  import opened CollisionState
  import opened CollisionTheorems

  // What was last done to a model: a collision installed on it, an installation undone because the
  // engine did not take the pointer, or a collision removed.
  datatype Touch = Untouched | Installed | Undone | Removal

  function TouchOf(w: World, s: State, op: Op, t: int, last: Touch): Touch {
    var s' := Step(w, s, op);
    if op.LoadOp? && op.target == t && Refusal(w, s, op.id, t, op.file) == None then
      if op.accepted then Installed else Undone
    else if op.id in s.loaded && op.id !in s'.loaded && s.loaded[op.id].target == t then Removal
    else last
  }

  function LastTouch(w: World, s: State, ops: seq<Op>, t: int): Touch {
    if ops == [] then Untouched
    else
      var front := ops[..|ops| - 1];
      TouchOf(w, Run(w, s, front), ops[|ops| - 1], t, LastTouch(w, s, front, t))
  }

  // The flag the model has after that; `was`: the one it had at first, `owned`: whether the engine owns its collision.
  predicate FlagIs(lod: map<int, bool>, t: int, last: Touch, was: bool, owned: bool) {
    t in lod && lod[t] == match last case Untouched => was case Installed => true case _ => owned
  }

  // What every run keeps of the model t. A model that owns its collision takes one installation at most.
  ghost predicate Flagged(w: World, s: State, stack: seq<uint32>, t: int, last: Touch, was: bool) {
    && t in w.targets
    && (forall id :: id in s.loaded && s.loaded[id].target == t ==> s.loaded[id].previousOwned == w.targets[t].owned)
    && FlagIs(s.lod, t, last, was, w.targets[t].owned)
    && (last == Installed ==> stack != []) && (last == Untouched ==> stack == [])
    && (w.targets[t].owned && stack != [] ==> |stack| == 1 && last == Installed)
  }

  // ---- steps ----

  lemma LoadFlagged(w: World, s: State, stacks: Stacks, original: map<int, Option<Col>>, op: Op, t: int, last: Touch,
                    was: bool)
    requires Stacked(w, s, stacks, original) && t in stacks && Flagged(w, s, stacks[t], t, last, was)
    requires op.LoadOp?
    ensures
      t in Tracked(w, s, stacks, op)
      && Flagged(w, Step(w, s, op), Tracked(w, s, stacks, op)[t], t, TouchOf(w, s, op, t, last), was)
  {
    hide Fresh, Members;
    assert StackAt(s, t, stacks[t], original[t]);
    assert stacks[t] != [] ==> s.ptr[t].Some?;
  }

  lemma RemovedFlagged(w: World, s: State, stack: seq<uint32>, id: uint32, t: int, last: Touch, was: bool)
    requires id in s.loaded && Flagged(w, s, stack, t, last, was)
    requires s.loaded[id].target == t ==> stack != []
    ensures
      if s.loaded[id].target == t then Flagged(w, Removed(s, id), stack[..|stack| - 1], t, Removal, was)
      else Flagged(w, Removed(s, id), stack, t, last, was)
  {
  }

  lemma CountFlagged(w: World, s: State, stack: seq<uint32>, id: uint32, t: int, last: Touch, was: bool)
    requires Flagged(w, s, stack, t, last, was)
    ensures Flagged(w, AddReference(s, id), stack, t, last, was)
    ensures Flagged(w, RemoveReference(s, id), stack, t, last, was)
  {
  }

  // What a step other than a load comes to.
  lemma OtherSteps(w: World, s: State, op: Op)
    requires !op.LoadOp? && (op.id in s.loaded ==> s.loaded[op.id].target in w.targets)
    ensures
      var s' := Step(w, s, op);
      || s' == s || s' == AddReference(s, op.id) || s' == RemoveReference(s, op.id)
      || (op.id in s.loaded && OnTop(s, op.id) && s' == Removed(s, op.id))
  {
    hide OnTop, Removed;
  }

  lemma StepFlagged(w: World, s: State, stacks: Stacks, original: map<int, Option<Col>>, op: Op, t: int, last: Touch,
                    was: bool)
    requires Stacked(w, s, stacks, original) && EngineOnly(original)
    requires t in stacks && Flagged(w, s, stacks[t], t, last, was)
    ensures
      t in Tracked(w, s, stacks, op)
      && Flagged(w, Step(w, s, op), Tracked(w, s, stacks, op)[t], t, TouchOf(w, s, op, t, last), was)
  {
    hide Flagged, Stacked, EngineOnly, OnTop, Removed, AddReference, RemoveReference, Step, Refusal;
    if op.LoadOp? {
      LoadFlagged(w, s, stacks, original, op, t, last, was);
    } else {
      KnownTargets(w, s, stacks, original, op.id);
      OtherSteps(w, s, op);
      CountFlagged(w, s, stacks[t], op.id, t, last, was);
      CountKeeps(s, op.id);
      if op.id in s.loaded {
        OnTopIff(w, s, stacks, original, op.id);
        RemovedFlagged(w, s, stacks[t], op.id, t, last, was);
        RemovedForgets(s, op.id);
      }
    }
  }

  lemma CountKeeps(s: State, id: uint32)
    ensures id in s.loaded ==> id in AddReference(s, id).loaded && id in RemoveReference(s, id).loaded
  {
  }

  // ---- whole runs ----

  lemma {:induction false} RunFlagged(w: World, original: map<int, Option<Col>>, lod: map<int, bool>, ops: seq<Op>,
                                      t: int)
    requires EngineOnly(original) && (forall m :: m in w.targets <==> m in original) && t in original && t in lod
    ensures
      var s0, stacks0 := Initial(original, lod), NoStacks(original);
      var stacks := RunStacks(w, s0, stacks0, ops);
      && Stacked(w, Run(w, s0, ops), stacks, original)
      && t in stacks && Flagged(w, Run(w, s0, ops), stacks[t], t, LastTouch(w, s0, ops, t), lod[t])
  {
    hide Stacked, Flagged, EngineOnly, Step, Tracked, TouchOf;
    var s0, stacks0 := Initial(original, lod), NoStacks(original);
    StartsStacked(w, original, lod);
    if ops == [] {
      StartsFlagged(w, original, lod, t);
    } else {
      var front, op := ops[..|ops| - 1], ops[|ops| - 1];
      RunFlagged(w, original, lod, front, t);
      var s, stacks := Run(w, s0, front), RunStacks(w, s0, stacks0, front);
      StepStacked(w, s, stacks, original, op);
      StepFlagged(w, s, stacks, original, op, t, LastTouch(w, s0, front, t), lod[t]);
    }
  }

  lemma StartsFlagged(w: World, original: map<int, Option<Col>>, lod: map<int, bool>, t: int)
    requires t in w.targets && t in lod
    ensures Flagged(w, Initial(original, lod), [], t, Untouched, lod[t])
  {
  }

  /** When the flag is right, over every run. While a collision is installed on the model the flag is
      set exactly when the last thing done to the model was to install one; with none installed it is
      the model's own again exactly when nothing was ever done to it, or its own flag happens to equal
      its ownership of its collision, which is what Load takes down and a removal puts back. */
  lemma FlagIsRightIff(w: World, original: map<int, Option<Col>>, lod: map<int, bool>, ops: seq<Op>, t: int)
    requires EngineOnly(original) && (forall m :: m in w.targets <==> m in original) && t in original && t in lod
    ensures
      var s0 := Initial(original, lod);
      var s, last := Run(w, s0, ops), LastTouch(w, s0, ops, t);
      && t in s.lod
      && ((exists id :: id in s.loaded && s.loaded[id].target == t) ==> (s.lod[t] <==> last == Installed))
      && ((forall id :: id in s.loaded ==> s.loaded[id].target != t) ==>
            (s.lod[t] == lod[t] <==> last == Untouched || w.targets[t].owned == lod[t]))
  {
    hide Run, RunStacks, LastTouch, EngineOnly, Fresh, Below;
    RunFlagged(w, original, lod, ops, t);
    var s0, stacks0 := Initial(original, lod), NoStacks(original);
    var s, stacks := Run(w, s0, ops), RunStacks(w, s0, stacks0, ops);
    assert StackAt(s, t, stacks[t], original[t]);
    assert stacks[t] != [] ==> stacks[t][0] in s.loaded && s.loaded[stacks[t][0]].target == t;
    assert forall id :: id in s.loaded ==> MemberAt(s.loaded[id], stacks, id);
  }

  /** Two collisions on one model, the upper one released: the lower one is on the model again, but
      the flag that was set for it is gone. */
  lemma ReleasingTheUpperOneClearsTheFlag(w: World, original: map<int, Option<Col>>, lod: map<int, bool>, a: uint32,
                                          b: uint32, t: int)
    requires w.initialized && a != b && 0 <= t < GTA_MODEL_INFO_COUNT && t in w.targets && t in original
    requires w.targets[t] == Target(true, false)
    ensures
      var ops := [LoadOp(a, t, Success, true)] + [LoadOp(b, t, Success, true)] + [ReleaseOp(b)];
      var s := Run(w, Initial(original, lod), ops);
      OnTop(s, a) && b !in s.loaded && t in s.lod && !s.lod[t]
  {
    hide Step, Removed, OnTop;
    var s0, one, two := Initial(original, lod), LoadOp(a, t, Success, true), LoadOp(b, t, Success, true);
    var s1 := Step(w, s0, one);
    var s2 := Step(w, s1, two);
    assert ([one] + [two] + [ReleaseOp(b)])[..2] == [one] + [two] && ([one] + [two])[..1] == [one] && [one][..0] == [];
    assert Run(w, s0, []) == s0;
    assert Run(w, s0, [one]) == s1;
    assert Run(w, s0, [one] + [two]) == s2;
    assert Run(w, s0, [one] + [two] + [ReleaseOp(b)]) == Step(w, s2, ReleaseOp(b));
    TwoAndOne(w, s0, a, b, t);
  }

  lemma TwoAndOne(w: World, s0: State, a: uint32, b: uint32, t: int)
    requires Refusal(w, s0, a, t, Success) == None && a != b && b !in s0.loaded && !w.targets[t].owned
    ensures
      var s2 := Step(w, Step(w, s0, LoadOp(a, t, Success, true)), LoadOp(b, t, Success, true));
      var s3 := Step(w, s2, ReleaseOp(b));
      OnTop(s3, a) && b !in s3.loaded && t in s3.lod && !s3.lod[t]
  {
    var s1 := Step(w, s0, LoadOp(a, t, Success, true));
    assert OnTop(s1, a) && a in s1.loaded && s1.lod[t];
    var s2 := Step(w, s1, LoadOp(b, t, Success, true));
    assert OnTop(s2, b) && s2.loaded[b].previous == s1.ptr[t] && !s2.loaded[b].previousOwned;
    assert Step(w, s2, ReleaseOp(b)) == Removed(s2, b);
  }
}
