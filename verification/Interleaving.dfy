/** Any number of workers on one run: every transaction of _handle_job, the claim, the sweeper, a
    worker crash and a cancellation are single steps, and any interleaving of them is an execution
    (services/workflow-worker/app/main.py). */
module Interleaving {
  import opened Json
  import opened Dag
  import opened RunStore

  /** Where a worker is in _handle_job, between two transactions. */
  datatype Phase =
    | Claimed                              // holds a row, nothing read yet
    | Skipping                             // saw a cancelled run, about to delete the row
    | Rejecting                            // node undeclared or agent missing, about to finalise
    | Admitted                             // about to mark the node running
    | Starting                             // about to mark the run running
    | Executing                            // the agent is running
    | Reporting                            // finalised failed, about to mark the run failed
    | Finished(outputs: seq<Entry>)        // finalised succeeded
    | Scheduling(todo: seq<NodeId>)        // enqueueing the ready successors one by one
    | Closing                              // about to mark the run succeeded

  datatype Worker = Worker(job: Job, phase: Phase)

  /** One committed finalisation. */
  datatype Final = Final(job: Job, status: Status)

  /** `log` lists the finalisations so far, oldest first. */
  datatype Sys = Sys(db: Db, workers: map<nat, Worker>, nextWorker: nat, log: seq<Final>)

  datatype Step =
    | ClaimStep(id: nat, name: string, now: int, ttl: int)
    | FetchStep(w: nat, agentFound: bool)
    | DiscardStep(w: nat)
    | RejectStep(w: nat)
    | StartNodeStep(w: nat)
    | StartRunStep(w: nat)
    | FailStep(w: nat)
    | SucceedStep(w: nat, outputs: seq<Entry>)
    | ReportStep(w: nat)
    | AdvanceStep(w: nat, now: int)
    | EnqueueStep(w: nat, now: int)
    | CloseStep(w: nat)
    | SweepStep(now: int)
    | CrashStep(w: nat)
    | CancelStep

  function Start(dag: Dag, now: int): Sys { Sys(Submit(dag.entry, now), map[], 0, []) }

  predicate At(s: Sys, w: nat, phase: Phase) { w in s.workers && s.workers[w].phase == phase }

  /** A claim may take any claimable row: earlier ones may be locked by another worker whose claim is open, which
      SKIP LOCKED passes over, and if that worker dies they stay unclaimed. The times of the steps are not tied
      together, since rows and leases are compared with the time of their own step only. */
  predicate Enabled(dag: Dag, s: Sys, step: Step) {
    match step
    case ClaimStep(id, _, now, _) => id in s.db.queue && Claimable(s.db.queue[id], now)
    case FetchStep(w, _) => At(s, w, Claimed)
    case DiscardStep(w) => At(s, w, Skipping)
    case RejectStep(w) => At(s, w, Rejecting)
    case StartNodeStep(w) => At(s, w, Admitted)
    case StartRunStep(w) => At(s, w, Starting)
    case FailStep(w) => At(s, w, Executing)
    case SucceedStep(w, _) => At(s, w, Executing)
    case ReportStep(w) => At(s, w, Reporting)
    case AdvanceStep(w, _) => w in s.workers && s.workers[w].phase.Finished? && Declared(dag, s.workers[w].job.node)
    case EnqueueStep(w, _) => w in s.workers && s.workers[w].phase.Scheduling? && s.workers[w].phase.todo != []
    case CloseStep(w) => At(s, w, Closing)
    case SweepStep(_) => true
    case CrashStep(w) => w in s.workers
    case CancelStep => true
  }

  function GoTo(s: Sys, w: nat, phase: Phase): Sys
    requires w in s.workers
  {
    s.(workers := s.workers[w := s.workers[w].(phase := phase)])
  }

  function Leave(s: Sys, w: nat): Sys { s.(workers := s.workers - {w}) }

  function FinalizeBy(s: Sys, w: nat, status: Status, phase: Phase): Sys
    requires w in s.workers
  {
    var job := s.workers[w].job;
    GoTo(s.(db := Finalize(s.db, job, status), log := s.log + [Final(job, status)]), w, phase)
  }

  /** Re-enqueue the node for its next iteration. */
  function LoopBy(s: Sys, w: nat, now: int): Sys
    requires w in s.workers
  {
    var job := s.workers[w].job;
    Leave(s.(db := Enqueue(s.db, job.node, job.iteration + 1, now)), w)
  }

  /** The snapshot of iteration 0 and the choice it leads to. */
  function SnapshotBy(dag: Dag, s: Sys, w: nat, outputs: seq<Entry>): Sys
    requires w in s.workers
  {
    var n := s.workers[w].job.node;
    var ready := ReadySuccessors(dag, n, NodeState(s.db), outputs);
    if ready != [] then GoTo(s, w, Scheduling(ready))
    else if IsTerminal(dag, n) && AllDone(dag, NodeState(s.db)) then GoTo(s, w, Closing)
    else Leave(s, w)
  }

  function AdvanceBy(dag: Dag, s: Sys, w: nat, now: int): Sys
    requires w in s.workers && s.workers[w].phase.Finished? && Declared(dag, s.workers[w].job.node)
  {
    var Worker(job, Finished(outputs)) := s.workers[w];
    if ShouldLoop(FindNode(dag.nodes, job.node).value, outputs, job.iteration) then LoopBy(s, w, now)
    else SnapshotBy(dag, s, w, outputs)
  }

  function EnqueueBy(s: Sys, w: nat, now: int): Sys
    requires w in s.workers && s.workers[w].phase.Scheduling? && s.workers[w].phase.todo != []
  {
    var todo := s.workers[w].phase.todo;
    var s' := s.(db := Enqueue(s.db, todo[0], 0, now));
    if |todo| == 1 then Leave(s', w) else GoTo(s', w, Scheduling(todo[1..]))
  }

  function Apply(dag: Dag, s: Sys, step: Step): Sys
    requires Enabled(dag, s, step)
  {
    match step
    case ClaimStep(id, name, now, ttl) =>
      var row := s.db.queue[id];
      Sys(ClaimRow(s.db, id, name, now, ttl),
          s.workers[s.nextWorker := Worker(Job(id, row.node, row.iteration), Claimed)],
          s.nextWorker + 1, s.log)
    case FetchStep(w, agentFound) =>
      GoTo(s, w,
           if s.db.status == Cancelled then Skipping
           else if Declared(dag, s.workers[w].job.node) && agentFound then Admitted
           else Rejecting)
    case DiscardStep(w) => Leave(s.(db := Discard(s.db, s.workers[w].job.id)), w)
    case RejectStep(w) => FinalizeBy(s, w, Failed, Reporting)
    case StartNodeStep(w) =>
      GoTo(s.(db := SetNode(s.db, s.workers[w].job.node, s.workers[w].job.iteration, Running)), w, Starting)
    case StartRunStep(w) => GoTo(s.(db := StartRun(s.db)), w, Executing)
    case FailStep(w) => FinalizeBy(s, w, Failed, Reporting)
    case SucceedStep(w, outputs) => FinalizeBy(s, w, Succeeded, Finished(outputs))
    case ReportStep(w) => Leave(s.(db := MarkFinished(s.db, Failed)), w)
    case AdvanceStep(w, now) => AdvanceBy(dag, s, w, now)
    case EnqueueStep(w, now) => EnqueueBy(s, w, now)
    case CloseStep(w) => Leave(s.(db := MarkFinished(s.db, Succeeded)), w)
    case SweepStep(now) => s.(db := RunStore.Sweep(s.db, now))
    case CrashStep(w) => Leave(s, w)
    case CancelStep => s.(db := Cancel(s.db))
  }

  /** The state after `steps`, if each of them was enabled when it was taken. */
  function Exec(dag: Dag, s: Sys, steps: seq<Step>): Option<Sys>
    decreases |steps|
  {
    if steps == [] then Some(s)
    else
      match Exec(dag, s, steps[..|steps| - 1])
      case None => None
      case Some(m) => if Enabled(dag, m, steps[|steps| - 1]) then Some(Apply(dag, m, steps[|steps| - 1])) else None
  }

  ghost predicate Execution(dag: Dag, now: int, steps: seq<Step>, s: Sys) {
    Exec(dag, Start(dag, now), steps) == Some(s)
  }

  /** The step before last of a nonempty execution. */
  lemma LastStep(dag: Dag, now: int, steps: seq<Step>, s: Sys) returns (m: Sys)
    requires Execution(dag, now, steps, s) && steps != []
    ensures Execution(dag, now, steps[..|steps| - 1], m)
    ensures Enabled(dag, m, steps[|steps| - 1]) && s == Apply(dag, m, steps[|steps| - 1])
  {
    m := Exec(dag, Start(dag, now), steps[..|steps| - 1]).value;
  }

  lemma {:induction false} ExecAppend(dag: Dag, s: Sys, a: seq<Step>, b: seq<Step>)
    requires Exec(dag, s, a).Some?
    ensures Exec(dag, s, a + b) == Exec(dag, Exec(dag, s, a).value, b)
    decreases |b|
  {
    if b == [] {
      assert a + b == a;
    } else {
      ExecAppend(dag, s, a, b[..|b| - 1]);
      assert (a + b)[..|a + b| - 1] == a + b[..|b| - 1];
    }
  }

  // ---- predecessors first -------------------------------------------------

  /** The nodes whose iteration 0 has ever been finalised succeeded. */
  ghost function EverSucceeded(log: seq<Final>): set<NodeId> {
    set i | 0 <= i < |log| && log[i].status == Succeeded && log[i].job.iteration == 0 :: log[i].job.node
  }

  ghost predicate Grounded(dag: Dag, log: seq<Final>, n: NodeId) {
    forall p | HasEdge(dag.edges, p, n) :: p in EverSucceeded(log)
  }

  /** n has left a trace in the run: a row in either table, or a finalisation. */
  ghost predicate Present(s: Sys, n: NodeId) {
    || (exists id :: id in s.db.queue && s.db.queue[id].node == n)
    || (exists i :: (n, i) in s.db.runNodes)
    || (exists k :: 0 <= k < |s.log| && s.log[k].job.node == n)
  }

  ghost predicate Ordered(dag: Dag, s: Sys) {
    && (forall id | id in s.db.queue :: (s.db.queue[id].node, s.db.queue[id].iteration) in s.db.runNodes)
    && (forall key | key in s.db.runNodes :: Grounded(dag, s.log, key.0))
    && (forall n | (n, 0) in s.db.runNodes && s.db.runNodes[(n, 0)] == Succeeded :: n in EverSucceeded(s.log))
    && (forall w | w in s.workers ::
          && (s.workers[w].job.node, s.workers[w].job.iteration) in s.db.runNodes
          && (s.workers[w].phase.Scheduling? ==>
                forall i | 0 <= i < |s.workers[w].phase.todo| :: Grounded(dag, s.log, s.workers[w].phase.todo[i])))
    && (forall k | 0 <= k < |s.log| :: (s.log[k].job.node, s.log[k].job.iteration) in s.db.runNodes)
  }

  lemma LogGrows(dag: Dag, log: seq<Final>, f: Final, n: NodeId)
    ensures EverSucceeded(log) <= EverSucceeded(log + [f])
    ensures Grounded(dag, log, n) ==> Grounded(dag, log + [f], n)
    ensures f.status == Succeeded && f.job.iteration == 0 ==> f.job.node in EverSucceeded(log + [f])
  {
    forall m | m in EverSucceeded(log) ensures m in EverSucceeded(log + [f]) {
      var i :| 0 <= i < |log| && log[i].status == Succeeded && log[i].job.iteration == 0 && log[i].job.node == m;
      assert (log + [f])[i] == log[i];
    }
    assert (log + [f])[|log|] == f;
  }

  lemma OrderedFinalize(dag: Dag, s: Sys, w: nat, status: Status, phase: Phase)
    requires Ordered(dag, s) && w in s.workers && !phase.Scheduling?
    ensures Ordered(dag, FinalizeBy(s, w, status, phase))
  {
    var s' := FinalizeBy(s, w, status, phase);
    var f := Final(s.workers[w].job, status);
    forall n ensures Grounded(dag, s.log, n) ==> Grounded(dag, s'.log, n) {
      LogGrows(dag, s.log, f, n);
    }
    LogGrows(dag, s.log, f, f.job.node);
  }

  lemma OrderedSnapshot(dag: Dag, s: Sys, w: nat, outputs: seq<Entry>)
    requires Ordered(dag, s) && w in s.workers
    ensures Ordered(dag, SnapshotBy(dag, s, w, outputs))
  {
    var n := s.workers[w].job.node;
    var ready := ReadySuccessors(dag, n, NodeState(s.db), outputs);
    forall i | 0 <= i < |ready| ensures Grounded(dag, s.log, ready[i]) {
      ReadyIsSuccessor(dag, n, NodeState(s.db), outputs, ready[i]);
    }
  }

  /** Enqueueing a grounded node keeps the order; the worker may leave or shorten its list. */
  lemma OrderedEnqueue(dag: Dag, s: Sys, n: NodeId, iteration: nat, now: int)
    requires Ordered(dag, s) && Grounded(dag, s.log, n)
    ensures Ordered(dag, s.(db := Enqueue(s.db, n, iteration, now)))
  {}

  lemma OrderedEnqueueStep(dag: Dag, s: Sys, w: nat, now: int)
    requires Ordered(dag, s) && Enabled(dag, s, EnqueueStep(w, now))
    ensures Ordered(dag, EnqueueBy(s, w, now))
  {
    var todo := s.workers[w].phase.todo;
    OrderedEnqueue(dag, s, todo[0], 0, now);
    var s' := s.(db := Enqueue(s.db, todo[0], 0, now));
    assert forall i | 0 <= i < |todo[1..]| :: todo[1..][i] == todo[i + 1];
  }

  lemma OrderedClaim(dag: Dag, s: Sys, step: Step)
    requires Ordered(dag, s) && Enabled(dag, s, step) && step.ClaimStep?
    ensures Ordered(dag, Apply(dag, s, step))
  {}

  lemma OrderedRest(dag: Dag, s: Sys, step: Step)
    requires Ordered(dag, s) && Enabled(dag, s, step)
    requires step.FetchStep? || step.DiscardStep? || step.StartNodeStep? || step.StartRunStep? || step.ReportStep? ||
             step.CloseStep? || step.SweepStep? || step.CrashStep? || step.CancelStep?
    ensures Ordered(dag, Apply(dag, s, step))
  {}

  lemma OrderedStep(dag: Dag, s: Sys, step: Step)
    requires Ordered(dag, s) && Enabled(dag, s, step)
    ensures Ordered(dag, Apply(dag, s, step))
  {
    match step
    case ClaimStep(_, _, _, _) => OrderedClaim(dag, s, step);
    case RejectStep(w) => OrderedFinalize(dag, s, w, Failed, Reporting);
    case FailStep(w) => OrderedFinalize(dag, s, w, Failed, Reporting);
    case SucceedStep(w, outputs) => OrderedFinalize(dag, s, w, Succeeded, Finished(outputs));
    case EnqueueStep(w, now) => OrderedEnqueueStep(dag, s, w, now);
    case AdvanceStep(w, now) =>
      OrderedSnapshot(dag, s, w, s.workers[w].phase.outputs);
      OrderedEnqueue(dag, s, s.workers[w].job.node, s.workers[w].job.iteration + 1, now);
    case _ => OrderedRest(dag, s, step);
  }

  lemma {:induction false} OrderedAlways(dag: Dag, now: int, steps: seq<Step>, s: Sys)
    requires Predecessors(dag.edges, dag.entry) == []
    requires Execution(dag, now, steps, s)
    ensures Ordered(dag, s)
    decreases |steps|
  {
    if steps == [] {
      forall p ensures !HasEdge(dag.edges, p, dag.entry) {
        PredecessorsMeaning(dag.edges, p, dag.entry);
      }
    } else {
      var m := LastStep(dag, now, steps, s);
      OrderedAlways(dag, now, steps[..|steps| - 1], m);
      OrderedStep(dag, m, steps[|steps| - 1]);
    }
  }

  /** In every interleaving, crash, sweep and re-execution included: a node that has any row has all
      its ancestors already finalised succeeded at iteration 0. */
  lemma AncestorsFirst(dag: Dag, now: int, steps: seq<Step>, s: Sys, n: NodeId, a: NodeId)
    requires Predecessors(dag.edges, dag.entry) == []
    requires Execution(dag, now, steps, s)
    requires Present(s, n) && Connected(dag.edges, a, n)
    ensures a in EverSucceeded(s.log)
  {
    OrderedAlways(dag, now, steps, s);
    var p :| IsPath(dag.edges, p) && p[0] == a && p[|p| - 1] == n;
    AncestorsAlong(dag, s, p);
  }

  lemma {:induction false} AncestorsAlong(dag: Dag, s: Sys, p: seq<NodeId>)
    requires Ordered(dag, s) && IsPath(dag.edges, p) && Present(s, p[|p| - 1])
    ensures p[0] in EverSucceeded(s.log)
    decreases |p|
  {
    var m := p[|p| - 2];
    assert HasEdge(dag.edges, m, p[|p| - 2 + 1]);
    assert m in EverSucceeded(s.log);
    if |p| > 2 {
      AncestorsAlong(dag, s, p[..|p| - 1]);
    }
  }

  // ---- iterations stay bounded ---------------------------------------------

  function MaxInt(a: int, b: int): int { if a < b then b else a }

  /** The last iteration a node can be given: 0 unless its loop is enabled. */
  function LastIteration(dag: Dag, n: NodeId): int {
    match FindNode(dag.nodes, n)
    case Some(node) => if LoopEnabled(node.loop) then MaxInt(0, MaxIterations(node.loop) - 1) else 0
    case None => 0
  }

  ghost predicate Bounded(dag: Dag, s: Sys) {
    && (forall key | key in s.db.runNodes :: key.1 <= LastIteration(dag, key.0))
    && (forall id | id in s.db.queue :: s.db.queue[id].iteration <= LastIteration(dag, s.db.queue[id].node))
  }

  lemma {:induction false} IterationsBounded(dag: Dag, now: int, steps: seq<Step>, s: Sys)
    requires Execution(dag, now, steps, s)
    ensures Bounded(dag, s)
    decreases |steps|
  {
    if steps != [] {
      var m := LastStep(dag, now, steps, s);
      IterationsBounded(dag, now, steps[..|steps| - 1], m);
      BoundedStep(dag, m, steps[|steps| - 1]);
    }
  }

  lemma BoundedStep(dag: Dag, s: Sys, step: Step)
    requires Bounded(dag, s) && Enabled(dag, s, step)
    ensures Bounded(dag, Apply(dag, s, step))
  {
    if step.AdvanceStep? { BoundedAdvance(dag, s, step.w, step.now); }
  }

  lemma BoundedAdvance(dag: Dag, s: Sys, w: nat, now: int)
    requires Bounded(dag, s) && Enabled(dag, s, AdvanceStep(w, now))
    ensures Bounded(dag, AdvanceBy(dag, s, w, now))
  {
    var job := s.workers[w].job;
    if ShouldLoop(FindNode(dag.nodes, job.node).value, s.workers[w].phase.outputs, job.iteration) {
      assert job.iteration + 1 <= LastIteration(dag, job.node);
    }
  }
}
