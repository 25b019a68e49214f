/** MainThreadQueue: tasks pushed by any thread, run in batches by the main thread. A step is one
    push, the swap that starts a drain, or one task run to its end or to an exception. */
module TaskQueue {
  import opened Common

  type Task = nat

  datatype Outcome = Ran | Threw | Dropped

  // A task taken off for good, the number of the drain that took it, and what became of it.
  datatype Settled = Settled(task: Task, batch: nat, outcome: Outcome)

  // batch: drains started so far
  datatype Queue = Queue(pushed: seq<Task>, settled: seq<Settled>, running: seq<Task>, pending: seq<Task>, batch: nat)

  const EMPTY := Queue([], [], [], [], 0)

  datatype Op = Push(task: Task) | Swap | RunFirst(throws: bool)

  function Drop(tasks: seq<Task>, batch: nat): (r: seq<Settled>)
    ensures |r| == |tasks| && forall i | 0 <= i < |r| :: r[i] == Settled(tasks[i], batch, Dropped)
  {
    seq(|tasks|, i requires 0 <= i < |tasks| => Settled(tasks[i], batch, Dropped))
  }

  // What one task of a batch settles: itself, and if it throws all those after it.
  function Settle(tasks: seq<Task>, batch: nat, throws: bool): seq<Settled>
    requires tasks != []
  {
    if throws then [Settled(tasks[0], batch, Threw)] + Drop(tasks[1..], batch) else [Settled(tasks[0], batch, Ran)]
  }

  function Step(q: Queue, op: Op): Queue {
    match op
    case Push(task) => q.(pushed := q.pushed + [task], pending := q.pending + [task])
    case Swap => if q.running != [] then q else q.(running := q.pending, pending := [], batch := q.batch + 1)
    case RunFirst(throws) =>
      if q.running == [] then q
      else
        q.(settled := q.settled + Settle(q.running, q.batch, throws), running := if throws then [] else q.running[1..])
  }

  function Run(q: Queue, ops: seq<Op>): Queue {
    if ops == [] then q else Step(Run(q, ops[..|ops| - 1]), ops[|ops| - 1])
  }

  lemma RunSnoc(q: Queue, ops: seq<Op>, op: Op)
    ensures Run(q, ops + [op]) == Step(Run(q, ops), op)
  {
    assert (ops + [op])[..|ops|] == ops;
  }

  // ---- no task is lost, doubled or overtaken ----

  function Tasks(settled: seq<Settled>): (r: seq<Task>)
    ensures |r| == |settled| && forall i | 0 <= i < |r| :: r[i] == settled[i].task
  {
    seq(|settled|, i requires 0 <= i < |settled| => settled[i].task)
  }

  predicate InOrder(q: Queue) { q.pushed == Tasks(q.settled) + q.running + q.pending }

  // Running the first task settles tasks from the front of the batch only.
  lemma RunSettles(q: Queue, throws: bool)
    requires q.running != []
    ensures
      var q' := Step(q, RunFirst(throws));
      Tasks(q'.settled) + q'.running == Tasks(q.settled) + q.running
  {
    var more := Settle(q.running, q.batch, throws);
    assert Tasks(q.settled + more) == Tasks(q.settled) + Tasks(more);
    assert Tasks(more) == if throws then q.running else [q.running[0]];
    assert q.running == [q.running[0]] + q.running[1..];
  }

  lemma StepInOrder(q: Queue, op: Op)
    requires InOrder(q)
    ensures InOrder(Step(q, op))
  {
    hide Tasks, Settle;
    if op.RunFirst? && q.running != [] {
      RunSettles(q, op.throws);
    }
  }

  // ---- which tasks are lost ----

  // An earlier task of the same batch threw.
  predicate AfterAThrow(settled: seq<Settled>, i: nat)
    requires i < |settled|
  {
    exists j :: 0 <= j < i && settled[j].batch == settled[i].batch && settled[j].outcome == Threw
  }

  // Exactly the tasks after one that threw are dropped; in a batch that is still running none has thrown.
  predicate Explained(q: Queue) {
    && (forall i | 0 <= i < |q.settled| :: q.settled[i].outcome == Dropped <==> AfterAThrow(q.settled, i))
    && (forall i | 0 <= i < |q.settled| :: q.settled[i].batch <= q.batch)
    && (q.running != [] ==>
          forall i | 0 <= i < |q.settled| :: q.settled[i].batch == q.batch ==> q.settled[i].outcome == Ran)
  }

  lemma StepExplained(q: Queue, op: Op)
    requires Explained(q)
    ensures Explained(Step(q, op))
  {
    var q' := Step(q, op);
    if op.RunFirst? && q.running != [] {
      var s, s', n := q.settled, q'.settled, |q.settled|;
      forall i | 0 <= i < |s'|
        ensures s'[i].outcome == Dropped <==> AfterAThrow(s', i)
      {
        if i < n {
          assert forall j | 0 <= j <= i :: s'[j] == s[j];
          assert AfterAThrow(s, i) <==> AfterAThrow(s', i);
        } else if i > n {
          assert s'[n].outcome == Threw && s'[n].batch == s'[i].batch;
        }
      }
    }
  }

  /** Over any interleaving of pushes and drains, every pushed task is settled once, in the order of
      the pushes; and a settled task never ran exactly when an earlier task of its batch threw. */
  lemma {:induction false} TasksRunOnceInOrder(ops: seq<Op>)
    ensures
      var q := Run(EMPTY, ops);
      && InOrder(q) && Explained(q)
      && (forall i | 0 <= i < |q.settled| :: q.settled[i].outcome == Dropped <==> AfterAThrow(q.settled, i))
  {
    if ops != [] {
      hide InOrder, AfterAThrow, Step;
      var front := ops[..|ops| - 1];
      TasksRunOnceInOrder(front);
      StepInOrder(Run(EMPTY, front), ops[|ops| - 1]);
      StepExplained(Run(EMPTY, front), ops[|ops| - 1]);
    }
  }

  predicate NoSwap(ops: seq<Op>) { forall i | 0 <= i < |ops| :: ops[i] != Swap }

  /** A task pushed while a drain is running waits for the next one: until another swap, the tasks
      that settle are those the drain started with. */
  lemma {:induction false} PushedDuringADrainWaits(q: Queue, ops: seq<Op>)
    requires InOrder(q) && NoSwap(ops)
    ensures
      var q' := Run(q, ops);
      && InOrder(q') && q.pending <= q'.pending && q'.batch == q.batch
      && Tasks(q'.settled) + q'.running == Tasks(q.settled) + q.running
  {
    if ops != [] {
      hide Tasks, Settle;
      var front, op := ops[..|ops| - 1], ops[|ops| - 1];
      assert forall i | 0 <= i < |front| :: front[i] == ops[i];
      PushedDuringADrainWaits(q, front);
      var m := Run(q, front);
      StepInOrder(m, op);
      if op.RunFirst? && m.running != [] {
        RunSettles(m, op.throws);
      }
    }
  }

  // ---- one drain ----

  // What becomes of the k-th task of a batch.
  predicate ThrownBefore(throws: nat -> bool, k: nat) { exists j: nat :: j < k && throws(j) }

  function OutcomeAt(throws: nat -> bool, k: nat): Outcome {
    if ThrownBefore(throws, k) then Dropped else if throws(k) then Threw else Ran
  }

  function Outcomes(tasks: seq<Task>, batch: nat, throws: nat -> bool): (r: seq<Settled>)
    ensures |r| == |tasks| && forall k | 0 <= k < |r| :: r[k] == Settled(tasks[k], batch, OutcomeAt(throws, k))
  {
    seq(|tasks|, k requires 0 <= k < |tasks| => Settled(tasks[k], batch, OutcomeAt(throws, k)))
  }

  // What is pushed while the first n tasks run, by them or by other threads.
  function Arrived(arrivals: nat -> seq<Task>, n: nat): seq<Task> {
    if n == 0 then [] else Arrived(arrivals, n - 1) + arrivals(n - 1)
  }

  // The first n tasks of the batch start: the last of them throws, or n is all of them.
  predicate Starts(throws: nat -> bool, size: nat, n: nat) {
    n <= size && (forall j: nat :: j + 1 < n ==> !throws(j)) && (n < size ==> n > 0 && throws(n - 1))
  }

  class MainThreadQueue {
    var pending: seq<Task>

    constructor ()
      ensures pending == []
    {
      pending := [];
    }

    method PushTask(task: Task)
      modifies this
      ensures pending == old(pending) + [task]
    {
      pending := pending + [task];
    }

    /** `arrivals` says what all threads push while the i-th task of the batch runs, `throws` whether
        that task throws. The drain is a run of the machine above with a single swap; `q` is the
        machine's state when it starts. */
    method DrainOnMainThread(arrivals: nat -> seq<Task>, throws: nat -> bool, ghost q: Queue)
      returns (ghost ops: seq<Op>, ghost started: nat)
      requires q.running == [] && q.pending == pending
      modifies this
      ensures Starts(throws, |old(pending)|, started)
      ensures pending == Arrived(arrivals, started)
      ensures Run(q, ops).pending == pending && Run(q, ops).running == []
      ensures Run(q, ops).settled == q.settled + Outcomes(old(pending), q.batch + 1, throws)
      ensures ops != [] && ops[0] == Swap && NoSwap(ops[1..])
    {
      hide Reaches, Outcomes, OutcomeAt, Arrived, Settle, NoSwap;
      var toRun := pending;
      pending := [];
      ops := [Swap];
      ReachesSwap(q);
      ghost var all := Outcomes(toRun, q.batch + 1, throws);
      var i := 0;
      assert toRun[0..] == toRun && q.settled + all[..0] == q.settled;
      ArrivedGrows(arrivals, 0);
      while i < |toRun|
        invariant 0 <= i <= |toRun|
        invariant forall j: nat :: j < i ==> !throws(j)
        invariant pending == Arrived(arrivals, i)
        invariant Reaches(q, ops, toRun[i..], pending, q.settled + all[..i])
      {
        ArrivedGrows(arrivals, i);
        Settling(toRun, q.batch + 1, throws, i, q.settled);
        ops := PushEach(arrivals(i), q, ops, toRun[i..], q.settled + all[..i]);
        ReachesRun(q, ops, toRun[i..], pending, q.settled + all[..i], throws(i));
        ops := ops + [RunFirst(throws(i))];
        i := i + 1;
        if throws(i - 1) {
          started := i;
          ReachesMeans(q, ops, [], pending, q.settled + all);
          return;
        }
        assert toRun[i - 1..][1..] == toRun[i..];
      }
      started := i;
      assert all[..i] == all && toRun[i..] == [];
      ReachesMeans(q, ops, [], pending, q.settled + all);
    }

    // What arrives while a task runs.
    method PushEach(more: seq<Task>, ghost q: Queue, ghost before: seq<Op>, ghost running: seq<Task>,
                    ghost settled: seq<Settled>) returns (ghost ops: seq<Op>)
      requires Reaches(q, before, running, pending, settled)
      modifies this
      ensures pending == old(pending) + more && Reaches(q, ops, running, pending, settled)
    {
      hide Reaches;
      ops := before;
      for j := 0 to |more|
        invariant pending == old(pending) + more[..j] && Reaches(q, ops, running, pending, settled)
      {
        ReachesPush(q, ops, running, pending, settled, more[j]);
        ops := ops + [Push(more[j])];
        PushTask(more[j]);
      }
    }
  }

  lemma ArrivedGrows(arrivals: nat -> seq<Task>, n: nat)
    ensures Arrived(arrivals, 0) == [] && Arrived(arrivals, n + 1) == Arrived(arrivals, n) + arrivals(n)
  {
  }

  // While none has thrown, the task at the front settles as its place in the batch says.
  lemma Settling(tasks: seq<Task>, batch: nat, throws: nat -> bool, i: nat, before: seq<Settled>)
    requires i < |tasks| && forall j: nat :: j < i ==> !throws(j)
    ensures
      var all := Outcomes(tasks, batch, throws);
      before + all[..i] + Settle(tasks[i..], batch, throws(i)) == before + if throws(i) then all else all[..i + 1]
  {
    var all := Outcomes(tasks, batch, throws);
    assert !ThrownBefore(throws, i) && all[i].outcome == if throws(i) then Threw else Ran;
    if throws(i) {
      forall k | i < k < |tasks|
        ensures all[k].outcome == Dropped
      {
        assert ThrownBefore(throws, k);
      }
    }
    assert Settle(tasks[i..], batch, throws(i)) == if throws(i) then all[i..] else [all[i]];
    assert all == all[..i] + all[i..];
  }

  // One swap, and after it these steps, lead from q to a machine that stands like this.
  predicate Reaches(q: Queue, ops: seq<Op>, running: seq<Task>, pending: seq<Task>, settled: seq<Settled>) {
    && ops != [] && ops[0] == Swap && NoSwap(ops[1..])
    && Run(q, ops).running == running && Run(q, ops).pending == pending && Run(q, ops).settled == settled
    && Run(q, ops).batch == q.batch + 1
  }

  lemma ReachesMeans(q: Queue, ops: seq<Op>, running: seq<Task>, pending: seq<Task>, settled: seq<Settled>)
    requires Reaches(q, ops, running, pending, settled)
    ensures ops != [] && ops[0] == Swap && NoSwap(ops[1..])
    ensures Run(q, ops).running == running && Run(q, ops).pending == pending && Run(q, ops).settled == settled
  {
  }

  lemma ReachesSwap(q: Queue)
    requires q.running == []
    ensures Reaches(q, [Swap], q.pending, [], q.settled)
  {
    RunSnoc(q, [], Swap);
    assert [] + [Swap] == [Swap] && Run(q, []) == q;
  }

  lemma ReachesPush(q: Queue, ops: seq<Op>, running: seq<Task>, pending: seq<Task>, settled: seq<Settled>, task: Task)
    requires Reaches(q, ops, running, pending, settled)
    ensures Reaches(q, ops + [Push(task)], running, pending + [task], settled)
  {
    RunSnoc(q, ops, Push(task));
    assert (ops + [Push(task)])[1..] == ops[1..] + [Push(task)];
    hide Run;
  }

  lemma ReachesRun(q: Queue, ops: seq<Op>, running: seq<Task>, pending: seq<Task>, settled: seq<Settled>, throws: bool)
    requires Reaches(q, ops, running, pending, settled) && running != []
    ensures Reaches(q, ops + [RunFirst(throws)], if throws then [] else running[1..], pending,
                    settled + Settle(running, q.batch + 1, throws))
  {
    hide Settle;
    RunSnoc(q, ops, RunFirst(throws));
    assert (ops + [RunFirst(throws)])[1..] == ops[1..] + [RunFirst(throws)];
    hide Run;
  }
}
