/** While the sweeper leaves live workers alone, every row is finalised at most once and a weight
    bounds the number of jobs a run can ever take (services/workflow-worker/app/main.py). */
module Termination {
  import opened Json
  import opened Dag
  import opened RunStore
  import opened Interleaving

  // ---- sums over tables keyed by a sequence number --------------------------

  ghost function Total(m: map<nat, nat>, k: nat): nat {
    if k == 0 then 0 else Total(m, k - 1) + (if k - 1 in m then m[k - 1] else 0)
  }

  ghost function EntryOf(m: map<nat, nat>, id: nat): nat { if id in m then m[id] else 0 }

  lemma {:induction false} TotalSet(m: map<nat, nat>, k: nat, id: nat, v: nat)
    ensures Total(m[id := v], k) == if id < k then Total(m, k) - EntryOf(m, id) + v else Total(m, k)
  {
    if k > 0 {
      TotalSet(m, k - 1, id, v);
    }
  }

  lemma {:induction false} TotalRemove(m: map<nat, nat>, k: nat, id: nat)
    requires id < k
    ensures Total(m - {id}, k) == Total(m, k) - EntryOf(m, id)
  {
    if id < k - 1 {
      TotalRemove(m, k - 1, id);
    } else {
      TotalAgree(m - {id}, m, k - 1);
    }
  }

  lemma {:induction false} TotalAgree(a: map<nat, nat>, b: map<nat, nat>, k: nat)
    requires forall i | 0 <= i < k :: EntryOf(a, i) == EntryOf(b, i)
    ensures Total(a, k) == Total(b, k)
  {
    if k > 0 {
      assert EntryOf(a, k - 1) == EntryOf(b, k - 1);
      TotalAgree(a, b, k - 1);
    }
  }

  // ---- the weight of a row ----------------------------------------------------

  /** One job, plus the costlier of what it may enqueue: its own next iteration, or every successor. */
  ghost function Weight(dag: Dag, n: NodeId, iteration: nat): nat
    requires Acyclic(dag.edges)
    decreases Rank(dag.edges, n), 1, LastIteration(dag, n) - iteration
  {
    var again := if iteration < LastIteration(dag, n) then Weight(dag, n, iteration + 1) else 0;
    1 + (if again < Fan(dag, n, 0) then Fan(dag, n, 0) else again)
  }

  /** The weights of the targets of n's edges from position k on, one summand per edge. */
  ghost function Fan(dag: Dag, n: NodeId, k: nat): nat
    requires Acyclic(dag.edges) && k <= |dag.edges|
    decreases Rank(dag.edges, n), 0, |dag.edges| - k
  {
    if k == |dag.edges| then 0
    else if dag.edges[k].src == n then
      RankFalls(dag.edges, n, dag.edges[k].dst);
      Weight(dag, dag.edges[k].dst, 0) + Fan(dag, n, k + 1)
    else Fan(dag, n, k + 1)
  }

  /** A weight for every row, as the bookkeeping below takes it. */
  type Weighing = (NodeId, nat) -> nat

  ghost function WeighingOf(dag: Dag): Weighing
    requires Acyclic(dag.edges)
  {
    (n: NodeId, iteration: nat) => Weight(dag, n, iteration)
  }

  ghost function ListWeight(wt: Weighing, nodes: seq<NodeId>): nat {
    if nodes == [] then 0 else wt(nodes[0], 0) + ListWeight(wt, nodes[1..])
  }

  /** A row outweighs whatever its job can enqueue: the next iteration, or all ready successors. */
  ghost predicate Dominates(dag: Dag, wt: Weighing) {
    && (forall n, i :: wt(n, i) >= 1)
    && (forall n, i: nat | i < LastIteration(dag, n) :: wt(n, i + 1) < wt(n, i))
    && (forall n, i, state, outputs :: ListWeight(wt, ReadySuccessors(dag, n, state, outputs)) < wt(n, i))
  }

  lemma {:induction false} FiringWeight(dag: Dag, n: NodeId, outputs: seq<Entry>, k: nat)
    requires Acyclic(dag.edges) && k <= |dag.edges|
    ensures ListWeight(WeighingOf(dag), FiringTargets(dag.edges[k..], n, outputs)) <= Fan(dag, n, k)
    decreases |dag.edges| - k
  {
    if k < |dag.edges| {
      FiringWeight(dag, n, outputs, k + 1);
      var rest := FiringTargets(dag.edges[k + 1..], n, outputs);
      assert dag.edges[k..][1..] == dag.edges[k + 1..];
      if Fires(dag.edges[k], n, outputs) {
        assert ([dag.edges[k].dst] + rest)[1..] == rest;
      } else {
        assert [] + rest == rest;
      }
    }
  }

  lemma {:induction false} UnblockedWeight(edges: seq<Edge>, wt: Weighing, candidates: seq<NodeId>,
                                           state: map<NodeId, Status>)
    ensures ListWeight(wt, Unblocked(edges, candidates, state)) <= ListWeight(wt, candidates)
  {
    if candidates != [] {
      UnblockedWeight(edges, wt, candidates[1..], state);
      var rest := Unblocked(edges, candidates[1..], state);
      assert ([candidates[0]] + rest)[1..] == rest && [] + rest == rest;
    }
  }

  /** A row outweighs all that the completion of its job may start. */
  lemma SuccessorsWeighLess(dag: Dag, n: NodeId, i: nat, state: map<NodeId, Status>, outputs: seq<Entry>)
    requires Acyclic(dag.edges)
    ensures ListWeight(WeighingOf(dag), ReadySuccessors(dag, n, state, outputs)) < WeighingOf(dag)(n, i)
  {
    assert dag.edges[0..] == dag.edges;
    FiringWeight(dag, n, outputs, 0);
    UnblockedWeight(dag.edges, WeighingOf(dag), FiringTargets(dag.edges, n, outputs), state);
  }

  lemma WeightDominates(dag: Dag)
    requires Acyclic(dag.edges)
    ensures Dominates(dag, WeighingOf(dag))
  {
    var wt := WeighingOf(dag);
    forall n, i: nat, state, outputs ensures ListWeight(wt, ReadySuccessors(dag, n, state, outputs)) < wt(n, i) {
      SuccessorsWeighLess(dag, n, i, state, outputs);
    }
  }

  // ---- who holds a row ----------------------------------------------------------

  predicate Holding(phase: Phase) {
    phase.Claimed? || phase.Skipping? || phase.Rejecting? || phase.Admitted? || phase.Starting? || phase.Executing?
  }

  ghost predicate Holds(s: Sys, w: nat, id: nat) {
    w in s.workers && Holding(s.workers[w].phase) && s.workers[w].job.id == id
  }

  /** Every worker that has not finalised yet holds a claimed row of its own, and no row that was
      finalised is in the queue or finalised again. */
  ghost predicate Exclusive(s: Sys) {
    && (forall id | id in s.db.queue :: id < s.db.nextId)
    && (forall w | w in s.workers :: w < s.nextWorker)
    && (forall w | w in s.workers && Holding(s.workers[w].phase) ::
          var job := s.workers[w].job;
          job.id in s.db.queue && s.db.queue[job.id].claim.Some? &&
          s.db.queue[job.id].node == job.node && s.db.queue[job.id].iteration == job.iteration)
    && (forall v, w | v in s.workers && w in s.workers && v != w &&
          Holding(s.workers[v].phase) && Holding(s.workers[w].phase) :: s.workers[v].job.id != s.workers[w].job.id)
    && (forall k | 0 <= k < |s.log| :: s.log[k].job.id < s.db.nextId && s.log[k].job.id !in s.db.queue)
    && (forall j, k | 0 <= j < k < |s.log| :: s.log[j].job.id != s.log[k].job.id)
  }

  /** The step reclaims no row that a live worker still holds. */
  ghost predicate Spares(s: Sys, step: Step) {
    step.SweepStep? ==>
      forall w | w in s.workers && Holding(s.workers[w].phase) && s.workers[w].job.id in s.db.queue ::
        !Stale(s.db.queue[s.workers[w].job.id], step.now)
  }

  /** No lease runs out under a live worker anywhere in the execution. */
  ghost predicate Leased(dag: Dag, now: int, steps: seq<Step>) {
    forall k | 0 <= k < |steps| ::
      var m := Exec(dag, Start(dag, now), steps[..k]);
      m.Some? ==> Spares(m.value, steps[k])
  }

  lemma ExclusiveFinalize(s: Sys, w: nat, status: Status, phase: Phase)
    requires Exclusive(s) && w in s.workers && Holding(s.workers[w].phase) && !Holding(phase)
    ensures Exclusive(FinalizeBy(s, w, status, phase))
  {
    var s' := FinalizeBy(s, w, status, phase);
    var id := s.workers[w].job.id;
    assert s'.log[|s.log|].job.id == id;
    forall j, k | 0 <= j < k < |s'.log| ensures s'.log[j].job.id != s'.log[k].job.id {
      assert s'.log[j] == s.log[j];
    }
    forall v | v in s'.workers && Holding(s'.workers[v].phase)
      ensures s'.workers[v] == s.workers[v] && s.workers[v].job.id != id
    {}
  }

  lemma ExclusiveSnapshot(dag: Dag, s: Sys, w: nat, outputs: seq<Entry>)
    requires Exclusive(s) && w in s.workers && !Holding(s.workers[w].phase)
    ensures Exclusive(SnapshotBy(dag, s, w, outputs))
  {
    var s' := SnapshotBy(dag, s, w, outputs);
    assert forall v | v in s'.workers :: v in s.workers && (v != w ==> s'.workers[v] == s.workers[v]);
    assert w in s'.workers ==> !Holding(s'.workers[w].phase);
  }

  lemma ExclusiveLoop(s: Sys, w: nat, now: int)
    requires Exclusive(s) && w in s.workers
    ensures Exclusive(LoopBy(s, w, now))
  {}

  lemma ExclusiveClaim(dag: Dag, s: Sys, step: Step)
    requires Exclusive(s) && Enabled(dag, s, step) && step.ClaimStep?
    ensures Exclusive(Apply(dag, s, step))
  {
    var s' := Apply(dag, s, step);
    assert forall w | w in s.workers && Holding(s.workers[w].phase) :: s.workers[w].job.id != step.id;
    assert forall w | w in s'.workers && w != s.nextWorker :: w in s.workers && s'.workers[w] == s.workers[w];
  }

  lemma ExclusiveDiscard(dag: Dag, s: Sys, w: nat)
    requires Exclusive(s) && Enabled(dag, s, DiscardStep(w))
    ensures Exclusive(Apply(dag, s, DiscardStep(w)))
  {
    var s' := Apply(dag, s, DiscardStep(w));
    assert forall v | v in s'.workers :: v in s.workers && v != w && s'.workers[v] == s.workers[v];
  }

  lemma ExclusiveEnqueue(dag: Dag, s: Sys, w: nat, now: int)
    requires Exclusive(s) && Enabled(dag, s, EnqueueStep(w, now))
    ensures Exclusive(Apply(dag, s, EnqueueStep(w, now)))
  {
    var s' := Apply(dag, s, EnqueueStep(w, now));
    assert forall v | v in s'.workers && Holding(s'.workers[v].phase) ::
        v in s.workers && s'.workers[v] == s.workers[v];
  }

  lemma ExclusiveGoTo(s: Sys, w: nat, phase: Phase)
    requires Exclusive(s) && w in s.workers && Holding(s.workers[w].phase)
    ensures Exclusive(GoTo(s, w, phase))
  {
    var s' := GoTo(s, w, phase);
    assert forall v | v in s'.workers :: v in s.workers && s'.workers[v].job == s.workers[v].job;
    assert forall v | v in s'.workers && Holding(s'.workers[v].phase) :: Holding(s.workers[v].phase);
  }

  lemma ExclusiveLeave(s: Sys, w: nat)
    requires Exclusive(s)
    ensures Exclusive(Leave(s, w))
  {}

  /** Exclusivity does not depend on the node rows or on the status of the run. */
  lemma ExclusiveFrame(s: Sys, t: Sys)
    requires Exclusive(s) && t.workers == s.workers && t.nextWorker == s.nextWorker && t.log == s.log
    requires t.db.queue == s.db.queue && t.db.nextId == s.db.nextId
    ensures Exclusive(t)
  {}

  lemma ExclusiveOutcome(dag: Dag, s: Sys, step: Step)
    requires Exclusive(s) && Enabled(dag, s, step) && Spares(s, step)
    requires step.RejectStep? || step.FailStep? || step.SucceedStep?
    ensures Exclusive(Apply(dag, s, step))
  {
    match step
    case SucceedStep(w, outputs) => ExclusiveFinalize(s, w, Succeeded, Finished(outputs));
    case RejectStep(w) => ExclusiveFinalize(s, w, Failed, Reporting);
    case FailStep(w) => ExclusiveFinalize(s, w, Failed, Reporting);
  }

  lemma ExclusiveStart(dag: Dag, s: Sys, step: Step)
    requires Exclusive(s) && Enabled(dag, s, step) && Spares(s, step)
    requires step.StartNodeStep? || step.StartRunStep?
    ensures Exclusive(Apply(dag, s, step))
  {
    var phase := if step.StartNodeStep? then Starting else Executing;
    ExclusiveGoTo(s, step.w, phase);
    ExclusiveFrame(GoTo(s, step.w, phase), Apply(dag, s, step));
  }

  lemma ExclusiveStep(dag: Dag, s: Sys, step: Step)
    requires Exclusive(s) && Enabled(dag, s, step) && Spares(s, step)
    ensures Exclusive(Apply(dag, s, step))
  {
    var t := Apply(dag, s, step);
    match step
    case ClaimStep(_, _, _, _) => ExclusiveClaim(dag, s, step);
    case RejectStep(_) => ExclusiveOutcome(dag, s, step);
    case FailStep(_) => ExclusiveOutcome(dag, s, step);
    case SucceedStep(_, _) => ExclusiveOutcome(dag, s, step);
    case AdvanceStep(w, now) =>
      ExclusiveSnapshot(dag, s, w, s.workers[w].phase.outputs);
      ExclusiveLoop(s, w, now);
    case EnqueueStep(w, now) => ExclusiveEnqueue(dag, s, w, now);
    case DiscardStep(w) => ExclusiveDiscard(dag, s, w);
    case FetchStep(w, _) => ExclusiveGoTo(s, w, t.workers[w].phase);
    case StartNodeStep(_) => ExclusiveStart(dag, s, step);
    case StartRunStep(_) => ExclusiveStart(dag, s, step);
    case ReportStep(w) => ExclusiveLeave(s, w); ExclusiveFrame(Leave(s, w), t);
    case CloseStep(w) => ExclusiveLeave(s, w); ExclusiveFrame(Leave(s, w), t);
    case CrashStep(w) => ExclusiveLeave(s, w);
    case CancelStep => ExclusiveFrame(s, t);
    case SweepStep(now) =>
  }

  // ---- the weight still to be worked off ------------------------------------------

  ghost function RowWeights(wt: Weighing, queue: map<nat, Row>): map<nat, nat> {
    map id | id in queue :: wt(queue[id].node, queue[id].iteration)
  }

  /** What a worker may still enqueue. */
  ghost function Owed(wt: Weighing, worker: Worker): nat {
    match worker.phase
    case Finished(_) => var x := wt(worker.job.node, worker.job.iteration); if x == 0 then 0 else x - 1
    case Scheduling(todo) => ListWeight(wt, todo)
    case _ => 0
  }

  ghost function OwedWeights(wt: Weighing, workers: map<nat, Worker>): map<nat, nat> {
    map w | w in workers :: Owed(wt, workers[w])
  }

  ghost function QueueWeight(wt: Weighing, s: Sys): nat { Total(RowWeights(wt, s.db.queue), s.db.nextId) }

  ghost function WorkerWeight(wt: Weighing, s: Sys): nat { Total(OwedWeights(wt, s.workers), s.nextWorker) }

  ghost function Potential(wt: Weighing, s: Sys): nat { QueueWeight(wt, s) + WorkerWeight(wt, s) }

  lemma GoToWeight(wt: Weighing, s: Sys, w: nat, phase: Phase)
    requires Exclusive(s) && w in s.workers
    ensures WorkerWeight(wt, GoTo(s, w, phase)) ==
            WorkerWeight(wt, s) - Owed(wt, s.workers[w]) + Owed(wt, s.workers[w].(phase := phase))
  {
    var m := OwedWeights(wt, s.workers);
    TotalSet(m, s.nextWorker, w, Owed(wt, s.workers[w].(phase := phase)));
    assert OwedWeights(wt, GoTo(s, w, phase).workers) == m[w := Owed(wt, s.workers[w].(phase := phase))];
  }

  lemma LeaveWeight(wt: Weighing, s: Sys, w: nat)
    requires Exclusive(s) && w in s.workers
    ensures WorkerWeight(wt, Leave(s, w)) == WorkerWeight(wt, s) - Owed(wt, s.workers[w])
  {
    TotalRemove(OwedWeights(wt, s.workers), s.nextWorker, w);
    assert OwedWeights(wt, Leave(s, w).workers) == OwedWeights(wt, s.workers) - {w};
  }

  lemma EnqueueWeight(wt: Weighing, s: Sys, n: NodeId, iteration: nat, now: int)
    requires Exclusive(s)
    ensures QueueWeight(wt, s.(db := Enqueue(s.db, n, iteration, now))) == QueueWeight(wt, s) + wt(n, iteration)
  {
    var m := RowWeights(wt, s.db.queue);
    TotalSet(m, s.db.nextId + 1, s.db.nextId, wt(n, iteration));
    assert RowWeights(wt, Enqueue(s.db, n, iteration, now).queue) == m[s.db.nextId := wt(n, iteration)];
  }

  lemma DiscardWeight(wt: Weighing, s: Sys, id: nat)
    requires Exclusive(s) && id in s.db.queue
    ensures QueueWeight(wt, s.(db := Discard(s.db, id))) ==
            QueueWeight(wt, s) - wt(s.db.queue[id].node, s.db.queue[id].iteration)
  {
    TotalRemove(RowWeights(wt, s.db.queue), s.db.nextId, id);
    assert RowWeights(wt, Discard(s.db, id).queue) == RowWeights(wt, s.db.queue) - {id};
  }

  /** A finalisation uses up at least one unit; what it leaves owed is no more than the rest. */
  lemma FinalizeFalls(dag: Dag, wt: Weighing, s: Sys, w: nat, status: Status, phase: Phase)
    requires Dominates(dag, wt) && Exclusive(s) && w in s.workers && Holding(s.workers[w].phase)
    requires phase == Reporting || phase.Finished?
    ensures Potential(wt, FinalizeBy(s, w, status, phase)) < Potential(wt, s)
  {
    var t := FinalizeBy(s, w, status, phase);
    DiscardWeight(wt, s, s.workers[w].job.id);
    GoToWeight(wt, s, w, phase);
    assert t.workers == GoTo(s, w, phase).workers;
    assert t.db.queue == Discard(s.db, s.workers[w].job.id).queue;
  }

  /** Whatever a worker moves on to, if that owes no more than before. */
  lemma GoToFalls(wt: Weighing, s: Sys, w: nat, phase: Phase)
    requires Exclusive(s) && w in s.workers && Owed(wt, s.workers[w].(phase := phase)) <= Owed(wt, s.workers[w])
    ensures Potential(wt, GoTo(s, w, phase)) <= Potential(wt, s)
  {
    GoToWeight(wt, s, w, phase);
  }

  lemma SnapshotFalls(dag: Dag, wt: Weighing, s: Sys, w: nat, outputs: seq<Entry>)
    requires Dominates(dag, wt) && Exclusive(s) && w in s.workers && s.workers[w].phase == Finished(outputs)
    ensures Potential(wt, SnapshotBy(dag, s, w, outputs)) <= Potential(wt, s)
  {
    var n, i := s.workers[w].job.node, s.workers[w].job.iteration;
    var ready := ReadySuccessors(dag, n, NodeState(s.db), outputs);
    assert ListWeight(wt, ready) < wt(n, i);
    if ready != [] {
      GoToFalls(wt, s, w, Scheduling(ready));
    } else if IsTerminal(dag, n) && AllDone(dag, NodeState(s.db)) {
      GoToFalls(wt, s, w, Closing);
    } else {
      LeaveWeight(wt, s, w);
    }
  }

  lemma LoopFalls(dag: Dag, wt: Weighing, s: Sys, w: nat, now: int)
    requires Dominates(dag, wt) && Exclusive(s) && w in s.workers && s.workers[w].phase.Finished?
    requires s.workers[w].job.iteration < LastIteration(dag, s.workers[w].job.node)
    ensures Potential(wt, LoopBy(s, w, now)) <= Potential(wt, s)
  {
    var job := s.workers[w].job;
    LeaveWeight(wt, s, w);
    EnqueueWeight(wt, s, job.node, job.iteration + 1, now);
    assert wt(job.node, job.iteration + 1) < wt(job.node, job.iteration);
  }

  lemma AdvanceFalls(dag: Dag, wt: Weighing, s: Sys, w: nat, now: int)
    requires Dominates(dag, wt) && Exclusive(s) && Enabled(dag, s, AdvanceStep(w, now))
    ensures Potential(wt, AdvanceBy(dag, s, w, now)) <= Potential(wt, s)
  {
    var Worker(job, Finished(outputs)) := s.workers[w];
    if ShouldLoop(FindNode(dag.nodes, job.node).value, outputs, job.iteration) {
      LoopFalls(dag, wt, s, w, now);
    } else {
      SnapshotFalls(dag, wt, s, w, outputs);
    }
  }

  lemma EnqueueFalls(dag: Dag, wt: Weighing, s: Sys, w: nat, now: int)
    requires Dominates(dag, wt) && Exclusive(s) && Enabled(dag, s, EnqueueStep(w, now))
    ensures Potential(wt, EnqueueBy(s, w, now)) <= Potential(wt, s)
  {
    var todo := s.workers[w].phase.todo;
    EnqueueWeight(wt, s, todo[0], 0, now);
    LeaveWeight(wt, s, w);
    GoToWeight(wt, s, w, Scheduling(todo[1..]));
  }

  lemma ClaimKeeps(dag: Dag, wt: Weighing, s: Sys, step: Step)
    requires Exclusive(s) && Enabled(dag, s, step) && step.ClaimStep?
    ensures Potential(wt, Apply(dag, s, step)) == Potential(wt, s)
  {
    var s' := Apply(dag, s, step);
    assert RowWeights(wt, s'.db.queue) == RowWeights(wt, s.db.queue);
    var m := OwedWeights(wt, s.workers);
    TotalSet(m, s.nextWorker + 1, s.nextWorker, 0);
    assert OwedWeights(wt, s'.workers) == m[s.nextWorker := 0];
  }

  /** Steps that move a worker on or take it out, touching no row. */
  lemma MoveKeeps(dag: Dag, wt: Weighing, s: Sys, step: Step)
    requires Exclusive(s) && Enabled(dag, s, step)
    requires step.FetchStep? || step.StartNodeStep? || step.StartRunStep? || step.ReportStep? || step.CloseStep?
             || step.CrashStep?
    ensures Potential(wt, Apply(dag, s, step)) <= Potential(wt, s)
  {
    LeaveWeight(wt, s, step.w);
    if step.FetchStep? || step.StartNodeStep? || step.StartRunStep? {
      GoToWeight(wt, s, step.w, Apply(dag, s, step).workers[step.w].phase);
    }
  }

  lemma DiscardFalls(dag: Dag, wt: Weighing, s: Sys, w: nat)
    requires Exclusive(s) && Enabled(dag, s, DiscardStep(w))
    ensures Potential(wt, Apply(dag, s, DiscardStep(w))) <= Potential(wt, s)
  {
    DiscardWeight(wt, s, s.workers[w].job.id);
    LeaveWeight(wt, s, w);
  }

  /** No step adds weight, and a finalisation removes some. */
  lemma PotentialStep(dag: Dag, wt: Weighing, s: Sys, step: Step)
    requires Dominates(dag, wt) && Exclusive(s) && Enabled(dag, s, step)
    ensures |Apply(dag, s, step).log| + Potential(wt, Apply(dag, s, step)) <= |s.log| + Potential(wt, s)
  {
    match step
    case ClaimStep(_, _, _, _) => ClaimKeeps(dag, wt, s, step);
    case RejectStep(w) => FinalizeFalls(dag, wt, s, w, Failed, Reporting);
    case FailStep(w) => FinalizeFalls(dag, wt, s, w, Failed, Reporting);
    case SucceedStep(w, outputs) => FinalizeFalls(dag, wt, s, w, Succeeded, Finished(outputs));
    case AdvanceStep(w, now) => AdvanceFalls(dag, wt, s, w, now);
    case EnqueueStep(w, now) => EnqueueFalls(dag, wt, s, w, now);
    case DiscardStep(w) => DiscardFalls(dag, wt, s, w);
    case SweepStep(now) => assert RowWeights(wt, Apply(dag, s, step).db.queue) == RowWeights(wt, s.db.queue);
    case CancelStep =>
    case _ => MoveKeeps(dag, wt, s, step);
  }

  lemma LeasedPrefix(dag: Dag, now: int, steps: seq<Step>, m: Sys)
    requires Leased(dag, now, steps) && steps != []
    ensures Leased(dag, now, steps[..|steps| - 1])
    ensures Execution(dag, now, steps[..|steps| - 1], m) ==> Spares(m, steps[|steps| - 1])
  {
    var last := |steps| - 1;
    assert forall k | 0 <= k < last :: steps[..last][..k] == steps[..k] && steps[..last][k] == steps[k];
  }

  lemma {:induction false} ExclusiveAlways(dag: Dag, now: int, steps: seq<Step>, s: Sys)
    requires Execution(dag, now, steps, s) && Leased(dag, now, steps)
    ensures Exclusive(s)
    decreases |steps|
  {
    if steps != [] {
      var m := LastStep(dag, now, steps, s);
      LeasedPrefix(dag, now, steps, m);
      ExclusiveAlways(dag, now, steps[..|steps| - 1], m);
      ExclusiveStep(dag, m, steps[|steps| - 1]);
    }
  }

  lemma StartWeight(dag: Dag, wt: Weighing, now: int)
    ensures Potential(wt, Start(dag, now)) == wt(dag.entry, 0)
  {
    var s := Start(dag, now);
    var m := RowWeights(wt, s.db.queue);
    assert m == map[0 := wt(dag.entry, 0)];
    assert Total(m, 0) == 0 && Total(m, 1) == m[0];
    assert WorkerWeight(wt, s) == 0;
  }

  lemma {:induction false} PotentialAlways(dag: Dag, wt: Weighing, now: int, steps: seq<Step>, s: Sys)
    requires Dominates(dag, wt) && Execution(dag, now, steps, s) && Leased(dag, now, steps)
    ensures |s.log| + Potential(wt, s) <= wt(dag.entry, 0)
    decreases |steps|
  {
    if steps == [] {
      StartWeight(dag, wt, now);
    } else {
      var m := LastStep(dag, now, steps, s);
      LeasedPrefix(dag, now, steps, m);
      ExclusiveAlways(dag, now, steps[..|steps| - 1], m);
      PotentialAlways(dag, wt, now, steps[..|steps| - 1], m);
      PotentialStep(dag, wt, m, steps[|steps| - 1]);
    }
  }

  /** Workers never share a row, and each row is finalised at most once. */
  lemma RowsAreExclusive(dag: Dag, now: int, steps: seq<Step>, s: Sys)
    requires Execution(dag, now, steps, s) && Leased(dag, now, steps)
    ensures forall v, w, id | Holds(s, v, id) && Holds(s, w, id) :: v == w
    ensures forall j, k | 0 <= j < k < |s.log| :: s.log[j].job.id != s.log[k].job.id
  {
    ExclusiveAlways(dag, now, steps, s);
  }

  /** However the workers interleave or crash, an acyclic run completes at most Weight(entry) jobs,
      and each completed job strictly lowers the weight that is left. */
  lemma JobsBounded(dag: Dag, now: int, steps: seq<Step>, s: Sys)
    requires Acyclic(dag.edges)
    requires Execution(dag, now, steps, s) && Leased(dag, now, steps)
    ensures |s.log| + Potential(WeighingOf(dag), s) <= Weight(dag, dag.entry, 0)
  {
    WeightDominates(dag);
    PotentialAlways(dag, WeighingOf(dag), now, steps, s);
  }

  lemma CompletionFalls(dag: Dag, now: int, steps: seq<Step>, s: Sys, step: Step)
    requires Acyclic(dag.edges)
    requires Execution(dag, now, steps, s) && Leased(dag, now, steps)
    requires Enabled(dag, s, step) && (step.SucceedStep? || step.FailStep? || step.RejectStep?)
    ensures Potential(WeighingOf(dag), Apply(dag, s, step)) < Potential(WeighingOf(dag), s)
  {
    WeightDominates(dag);
    ExclusiveAlways(dag, now, steps, s);
    PotentialStep(dag, WeighingOf(dag), s, step);
    assert |Apply(dag, s, step).log| == |s.log| + 1;
  }
}
