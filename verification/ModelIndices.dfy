/** The server's VehicleRegistry: indices of base and custom vehicle models. */
module ModelIndices {
  import opened Common

  const BASE_START: nat := 400
  const BASE_END: nat := 611
  const BASE_COUNT: nat := 212

  datatype Registry = Registry(indices: map<uint32, uint32>, next: uint32)

  const EMPTY := Registry(map[], BASE_COUNT)

  predicate IsBase(m: uint32) { BASE_START <= m <= BASE_END }

  function Register(r: Registry, m: uint32): Registry {
    if IsBase(m) || m in r.indices then r
    else Registry(r.indices[m := r.next], (r.next + 1) % TWO32)
  }

  function Unregister(r: Registry, m: uint32): Registry { r.(indices := r.indices - {m}) }

  predicate IsValid(r: Registry, m: uint32) { IsBase(m) || m in r.indices }

  function GetModelIndex(r: Registry, m: uint32): Option<uint32> {
    if IsBase(m) then Some(m - BASE_START) else if m in r.indices then Some(r.indices[m]) else None
  }

  class VehicleRegistry {
    var indices: map<uint32, uint32>
    var next: uint32

    constructor ()
      ensures View() == EMPTY
    {
      indices, next := map[], BASE_COUNT;
    }

    function View(): Registry
      reads this
    {
      Registry(indices, next)
    }

    method RegisterCustomModel(m: uint32) returns (index: uint32)
      modifies this
      ensures View() == Register(old(View()), m) && GetModelIndex(View(), m) == Some(index)
    {
      if BASE_START <= m <= BASE_END {
        return m - BASE_START;
      }
      if m in indices {
        return indices[m];
      }
      index := next;
      next := (next + 1) % TWO32;
      indices := indices[m := index];
    }

    method UnregisterCustomModel(m: uint32)
      modifies this`indices
      ensures View() == Unregister(old(View()), m)
    {
      indices := indices - {m};
    }
  }

  // ---- runs ----

  datatype Op = Add(m: uint32) | Remove(m: uint32)

  function Step(r: Registry, op: Op): Registry {
    match op
    case Add(m) => Register(r, m)
    case Remove(m) => Unregister(r, m)
  }

  function Run(ops: seq<Op>): Registry { if ops == [] then EMPTY else Step(Run(ops[..|ops| - 1]), ops[|ops| - 1]) }

  // The operation takes a new index off the counter.
  predicate Allocates(r: Registry, op: Op) { op.Add? && !IsValid(r, op.m) }

  function Allocations(ops: seq<Op>): nat {
    if ops == [] then 0
    else
      var front, op := ops[..|ops| - 1], ops[|ops| - 1];
      Allocations(front) + if Allocates(Run(front), op) then 1 else 0
  }

  // The counter has not run over.
  predicate InRange(ops: seq<Op>) { Allocations(ops) < TWO32 - BASE_COUNT }

  // The model each custom index was first given to, over the whole run.
  function Given(ops: seq<Op>): map<uint32, uint32> {
    if ops == [] then map[]
    else
      var front, op := ops[..|ops| - 1], ops[|ops| - 1];
      var r := Run(front);
      if Allocates(r, op) && r.next !in Given(front) then Given(front)[r.next := op.m] else Given(front)
  }

  // Every index in use is the one its model was given, and new ones are above all of them.
  lemma {:induction false} RunFollowsGiven(ops: seq<Op>)
    requires InRange(ops)
    ensures
      var r, given := Run(ops), Given(ops);
      && r.next == BASE_COUNT + Allocations(ops)
      && (forall m :: m in r.indices ==> !IsBase(m) && r.indices[m] in given && given[r.indices[m]] == m)
      && (forall i :: i in given ==> BASE_COUNT <= i < r.next)
  {
    if ops != [] {
      var front, op := ops[..|ops| - 1], ops[|ops| - 1];
      RunFollowsGiven(front);
      var r := Run(front);
      assert r.next !in Given(front);
      if Allocates(r, op) {
        assert (r.next + 1) % TWO32 == r.next + 1;
      }
      var r' := Step(r, op);
      assert Run(ops) == r';
      assert forall m :: m in r.indices ==> r.indices[m] != r.next;
      forall m | m in r'.indices
        ensures !IsBase(m) && r'.indices[m] in Given(ops) && Given(ops)[r'.indices[m]] == m
      {
        assert m in r.indices || (op == Add(m) && !IsValid(r, m));
      }
    }
  }

  /** Over every run in which the 32-bit counter does not run over: no two valid models share an
      index, base models take indices below 212 and custom ones lie above. */
  lemma IndicesAreDistinct(ops: seq<Op>, a: uint32, b: uint32)
    requires InRange(ops)
    ensures
      var r := Run(ops);
      && (GetModelIndex(r, a).Some? <==> IsValid(r, a))
      && (IsValid(r, a) ==> (GetModelIndex(r, a).value < BASE_COUNT <==> IsBase(a)))
      && (IsValid(r, a) && GetModelIndex(r, a) == GetModelIndex(r, b) ==> a == b)
  {
    RunFollowsGiven(ops);
  }

  lemma BaseIndicesAreOnto(r: Registry, i: uint32)
    requires i < BASE_COUNT
    ensures IsBase(BASE_START + i) && GetModelIndex(r, BASE_START + i) == Some(i)
  {
  }

  lemma {:induction false} GivenGrows(ops: seq<Op>, n: nat, i: uint32)
    requires n <= |ops| && i in Given(ops[..n])
    ensures i in Given(ops) && Given(ops)[i] == Given(ops[..n])[i]
  {
    if n == |ops| {
      assert ops[..n] == ops;
    } else {
      assert ops[..|ops| - 1][..n] == ops[..n];
      GivenGrows(ops[..|ops| - 1], n, i);
    }
  }

  lemma {:induction false} AllocationsGrow(ops: seq<Op>, n: nat)
    requires n <= |ops|
    ensures Allocations(ops[..n]) <= Allocations(ops)
  {
    if n == |ops| {
      assert ops[..n] == ops;
    } else {
      assert ops[..|ops| - 1][..n] == ops[..n];
      AllocationsGrow(ops[..|ops| - 1], n);
    }
  }

  /** An index stays its first model's for good: whichever model has it later in the run, even after
      unregistering, is the same one. */
  lemma IndicesAreNotReused(ops: seq<Op>, n: nat, a: uint32, b: uint32)
    requires InRange(ops) && n <= |ops|
    requires a in Run(ops[..n]).indices && b in Run(ops).indices
    requires Run(ops[..n]).indices[a] == Run(ops).indices[b]
    ensures a == b
  {
    AllocationsGrow(ops, n);
    RunFollowsGiven(ops[..n]);
    RunFollowsGiven(ops);
    GivenGrows(ops, n, Run(ops[..n]).indices[a]);
  }

  /** So a model registered again after it was unregistered gets another index, one that no model
      had before. */
  lemma RegisteringAgainGivesANewIndex(ops: seq<Op>, m: uint32)
    requires InRange(ops) && m in Run(ops).indices
    ensures
      var r := Run(ops);
      var r' := Register(Unregister(r, m), m);
      && GetModelIndex(Unregister(r, m), m) == None
      && GetModelIndex(r', m).Some? && GetModelIndex(r', m) != GetModelIndex(r, m)
      && GetModelIndex(r', m).value !in Given(ops)
  {
    RunFollowsGiven(ops);
  }

  // ---- which models are registered ----

  // It was added last, and not removed since.
  ghost predicate AddedLast(ops: seq<Op>, m: uint32) {
    exists i | 0 <= i < |ops| :: ops[i] == Add(m) && forall j | i < j < |ops| :: ops[j] != Remove(m)
  }

  lemma AddedLastSnoc(ops: seq<Op>, m: uint32)
    requires ops != []
    ensures
      var front, last := ops[..|ops| - 1], ops[|ops| - 1];
      AddedLast(ops, m) <==> last == Add(m) || (AddedLast(front, m) && last != Remove(m))
  {
    var front, last := ops[..|ops| - 1], ops[|ops| - 1];
    if AddedLast(front, m) && last != Remove(m) {
      var i :| 0 <= i < |front| && front[i] == Add(m) && forall j | i < j < |front| :: front[j] != Remove(m);
      assert ops[i] == Add(m) && forall j | i < j < |front| :: ops[j] == front[j];
    }
    if AddedLast(ops, m) {
      var i :| 0 <= i < |ops| && ops[i] == Add(m) && forall j | i < j < |ops| :: ops[j] != Remove(m);
      assert i < |front| ==> front[i] == Add(m);
      assert forall j | i < j < |front| :: ops[j] == front[j];
    }
  }

  /** Over every run, a custom model has an index exactly when it was added and not removed since. */
  lemma {:induction false} RegisteredIff(ops: seq<Op>, m: uint32)
    requires !IsBase(m)
    ensures m in Run(ops).indices <==> AddedLast(ops, m)
  {
    if ops != [] {
      RegisteredIff(ops[..|ops| - 1], m);
      AddedLastSnoc(ops, m);
    }
  }

  lemma {:induction false} RunKeepsIndex(ops: seq<Op>, more: seq<Op>, m: uint32)
    requires m in Run(ops).indices && forall j | 0 <= j < |more| :: more[j] != Remove(m)
    ensures m in Run(ops + more).indices && Run(ops + more).indices[m] == Run(ops).indices[m]
  {
    if more == [] {
      assert ops + more == ops;
    } else {
      var front := more[..|more| - 1];
      RunKeepsIndex(ops, front, m);
      assert (ops + more)[..|ops + more| - 1] == ops + front;
    }
  }

  /** And it keeps that index until it is removed, whatever happens to the others. */
  lemma IndexStays(ops: seq<Op>, more: seq<Op>, m: uint32)
    requires GetModelIndex(Run(ops), m).Some? && forall j | 0 <= j < |more| :: more[j] != Remove(m)
    ensures GetModelIndex(Run(ops + more), m) == GetModelIndex(Run(ops), m)
  {
    if !IsBase(m) {
      RunKeepsIndex(ops, more, m);
    }
  }

  // ---- past the range ----

  // No two valid models share an index.
  ghost predicate Distinct(r: Registry) {
    forall a: uint32, b: uint32 ::
      IsValid(r, a) && IsValid(r, b) && GetModelIndex(r, a) == GetModelIndex(r, b) ==> a == b
  }

  /** Registering keeps the indices distinct exactly when the model is valid already, or the counter
      stands at no base index and at no index in use. */
  lemma RegisterKeepsDistinctIff(r: Registry, m: uint32)
    requires Distinct(r)
    ensures Distinct(Register(r, m)) <==>
      IsValid(r, m) || (r.next >= BASE_COUNT && forall a :: a in r.indices && !IsBase(a) ==> r.indices[a] != r.next)
  {
    var r' := Register(r, m);
    if !IsValid(r, m) {
      assert GetModelIndex(r', m) == Some(r.next);
      if r.next < BASE_COUNT {
        var b: uint32 := BASE_START + r.next;
        assert GetModelIndex(r', b) == GetModelIndex(r', m) && IsValid(r', b) && IsValid(r', m) && b != m;
      }
      if a :| a in r.indices && !IsBase(a) && r.indices[a] == r.next {
        assert GetModelIndex(r', a) == GetModelIndex(r', m) && IsValid(r', a) && a != m;
      }
      forall a: uint32, b: uint32 | IsValid(r', a) && IsValid(r', b) && GetModelIndex(r', a) == GetModelIndex(r', b)
        ensures r.next >= BASE_COUNT && (forall c :: c in r.indices && !IsBase(c) ==> r.indices[c] != r.next) ==> a == b
      {
        assert a != m && b != m ==> IsValid(r, a) && IsValid(r, b) && GetModelIndex(r, a) == GetModelIndex(r, b);
      }
    }
  }

  // One custom model, registered and unregistered n times.
  function Churn(m: uint32, n: nat): seq<Op> { if n == 0 then [] else Churn(m, n - 1) + [Add(m)] + [Remove(m)] }

  lemma {:induction false} ChurnCounts(m: uint32, n: nat)
    requires !IsBase(m)
    ensures Run(Churn(m, n)) == Registry(map[], (BASE_COUNT + n) % TWO32)
  {
    if n > 0 {
      ChurnCounts(m, n - 1);
      var front := Churn(m, n - 1);
      assert (front + [Add(m)])[..|front|] == front;
      assert (front + [Add(m)] + [Remove(m)])[..|front| + 1] == front + [Add(m)];
      var r := Run(front);
      assert Register(r, m).indices - {m} == map[];
    }
  }

  /** The counter does come round: after 2^32 - 212 allocations it is zero, and the next model shares
      its index with base model 400. */
  lemma CounterComesRound(m: uint32)
    requires !IsBase(m)
    ensures
      var r := Run(Churn(m, TWO32 - BASE_COUNT));
      && r.next == 0 && Distinct(r)
      && GetModelIndex(Register(r, m), m) == GetModelIndex(Register(r, m), 400)
      && !Distinct(Register(r, m))
  {
    ChurnCounts(m, TWO32 - BASE_COUNT);
    hide Run, Churn;
    RegisterKeepsDistinctIff(Run(Churn(m, TWO32 - BASE_COUNT)), m);
  }
}
