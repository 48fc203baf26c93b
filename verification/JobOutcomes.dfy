/** What handling one job does to the tables, told from the tables, the graph and the agent's outputs alone
    (services/workflow-worker/app/main.py, services/workflow-worker/app/dag.py), and what follows for the
    iterations of whole runs. */
module JobOutcomes {
  import opened Json
  import opened Dag
  import opened RunStore
  import opened Interleaving

  // ---- when a node goes on to its next iteration -------------------------------------------

  /** The loop is switched on and leaves room for one more iteration; without a limit there are ten. */
  ghost predicate LeavesRoom(loop: Loop, iteration: int) {
    ((loop == Flag(true) || loop == Table(true, None)) && iteration < 9)
    || exists m :: loop == Table(true, Some(m)) && iteration < m - 1
  }

  /** The first entry under `_loop_continue` holds something Python takes for true. */
  ghost predicate SaysContinue(outputs: seq<Entry>) {
    exists i: nat :: IsFirst(outputs, i, "_loop_continue") && !IsFalsy(outputs[i].value)
  }

  ghost predicate GoesOn(dag: Dag, n: NodeId, iteration: int, outputs: seq<Entry>) {
    SaysContinue(outputs) && exists i: nat :: IsNode(dag, i, n) && LeavesRoom(dag.nodes[i].loop, iteration)
  }

  lemma ContinueIff(outputs: seq<Entry>, key: string)
    ensures Truthy(Get(outputs, key)) <==> exists i: nat :: IsFirst(outputs, i, key) && !IsFalsy(outputs[i].value)
  {
    TruthyMeaning(Get(outputs, key));
    var i := FirstOrNone(outputs, key);
    if i < |outputs| { GetFinds(outputs, key, i); } else { GetMisses(outputs, key); }
    forall k: nat | IsFirst(outputs, k, key) ensures Get(outputs, key) == outputs[k].value {
      GetFinds(outputs, key, k);
    }
  }

  lemma ShouldLoopIff(dag: Dag, n: NodeId, iteration: int, outputs: seq<Entry>)
    requires Declared(dag, n)
    ensures ShouldLoop(FindNode(dag.nodes, n).value, outputs, iteration) <==> GoesOn(dag, n, iteration, outputs)
  {
    FindNodeMeaning(dag, n);
    ContinueIff(outputs, "_loop_continue");
  }

  // ---- the tables after a job -----------------------------------------------------------------

  /** The row of the job is gone and its node row, if there is one, has that status. */
  function Settled(db: Db, job: Job, nodeStatus: Status, runStatus: Status): Db {
    Db(map key | key in db.runNodes :: if key == (job.node, job.iteration) then nodeStatus else db.runNodes[key],
       map id | id in db.queue && id != job.id :: db.queue[id], db.nextId, runStatus)
  }

  /** A pending run has been started. */
  function StartedStatus(db: Db): Status { if db.status == Pending then Running else db.status }

  predicate IsDeclared(dag: Dag, n: NodeId) { exists i :: 0 <= i < |dag.nodes| && dag.nodes[i].id == n }

  /** The job of a cancelled run is dropped without a trace. */
  lemma CancelledJob(dag: Dag, db: Db, job: Job, outcome: Outcome, now: int)
    requires db.status == Cancelled
    ensures Handle(dag, db, job, outcome, now)
            == Db(db.runNodes, map id | id in db.queue && id != job.id :: db.queue[id], db.nextId, Cancelled)
  {
    assert db.queue - {job.id} == map id | id in db.queue && id != job.id :: db.queue[id];
  }

  /** An undeclared node, an unknown agent and any failure fail the node and the run. */
  lemma FailedJob(dag: Dag, db: Db, job: Job, outcome: Outcome, now: int)
    requires db.status != Cancelled && (!IsDeclared(dag, job.node) || !outcome.Success?)
    ensures Handle(dag, db, job, outcome, now) == Settled(db, job, Failed, Failed)
  {
    FindNodeMeaning(dag, job.node);
    FinalizedIs(db, job, Failed);
    FinalizedIs(StartRun(SetNode(db, job.node, job.iteration, Running)), job, Failed);
    var started := Settled(StartRun(SetNode(db, job.node, job.iteration, Running)), job, Failed, Failed);
    assert started.runNodes == Settled(db, job, Failed, Failed).runNodes;
  }

  lemma FinalizedIs(db: Db, job: Job, status: Status)
    ensures Finalize(db, job, status) == Settled(db, job, status, db.status)
  {
    var f, g := Finalize(db, job, status), Settled(db, job, status, db.status);
    assert f.runNodes == g.runNodes;
    assert f.queue == g.queue;
  }

  lemma SucceededIs(db: Db, job: Job)
    ensures Finalize(StartRun(SetNode(db, job.node, job.iteration, Running)), job, Succeeded)
            == Settled(db, job, Succeeded, StartedStatus(db))
  {
    var started := StartRun(SetNode(db, job.node, job.iteration, Running));
    FinalizedIs(started, job, Succeeded);
    assert Settled(started, job, Succeeded, started.status).runNodes
        == Settled(db, job, Succeeded, StartedStatus(db)).runNodes;
  }

  /** The job succeeds: the run is not cancelled, the node is declared and its agent delivers these outputs. */
  predicate Succeeds(dag: Dag, db: Db, job: Job) { db.status != Cancelled && IsDeclared(dag, job.node) }

  lemma SuccessIs(dag: Dag, db: Db, job: Job, outputs: seq<Entry>, now: int)
    requires Succeeds(dag, db, job)
    ensures Declared(dag, job.node)
    ensures Handle(dag, db, job, Success(outputs), now)
            == Advance(dag, Settled(db, job, Succeeded, StartedStatus(db)), job, outputs, now)
  {
    FindNodeMeaning(dag, job.node);
    SucceededIs(db, job);
  }

  /** A node that goes on gets a row for its next iteration, and nothing else is scheduled. */
  lemma LoopedJob(dag: Dag, db: Db, job: Job, outputs: seq<Entry>, now: int)
    requires Succeeds(dag, db, job) && GoesOn(dag, job.node, job.iteration, outputs)
    ensures var f, db' := Settled(db, job, Succeeded, StartedStatus(db)), Handle(dag, db, job, Success(outputs), now);
            var next := (job.node, job.iteration + 1);
            db' == Db(if next in f.runNodes then f.runNodes else f.runNodes[next := Pending],
                      f.queue[f.nextId := Row(job.node, job.iteration + 1, now, None, 0)], f.nextId + 1, f.status)
  {
    SuccessIs(dag, db, job, outputs, now);
    ShouldLoopIff(dag, job.node, job.iteration, outputs);
  }

  /** The statuses the scheduler consults. */
  lemma StateIs(db: Db, n: NodeId)
    ensures n in NodeState(db) <==> (n, 0) in db.runNodes
    ensures n in NodeState(db) ==> NodeState(db)[n] == db.runNodes[(n, 0)]
  {
    var keys := set key | key in db.runNodes && key.1 == 0 :: key.0;
    if (n, 0) in db.runNodes { assert (n, 0).0 in keys; }
  }

  /** Edge i readies its target: it leaves the node, its condition is met, and the iteration 0 of every node with
      an edge to that target has succeeded. */
  ghost predicate Schedules(dag: Dag, f: Db, n: NodeId, outputs: seq<Entry>, i: int)
    requires 0 <= i < |dag.edges|
  {
    dag.edges[i].src == n && Conditions.Evaluate(dag.edges[i].condition, Dict(outputs))
    && forall j | 0 <= j < |dag.edges| && dag.edges[j].dst == dag.edges[i].dst ::
         (dag.edges[j].src, 0) in f.runNodes && f.runNodes[(dag.edges[j].src, 0)] == Succeeded
  }

  lemma SchedulesIff(dag: Dag, f: Db, n: NodeId, outputs: seq<Entry>, i: nat)
    requires i < |dag.edges|
    ensures Schedules(dag, f, n, outputs, i) <==> Readies(dag, n, NodeState(f), outputs, i)
  {
    forall j | 0 <= j < |dag.edges| && dag.edges[j].dst == dag.edges[i].dst
      ensures dag.edges[j].src in NodeState(f) && NodeState(f)[dag.edges[j].src] == Succeeded
              <==> (dag.edges[j].src, 0) in f.runNodes && f.runNodes[(dag.edges[j].src, 0)] == Succeeded
    {
      StateIs(f, dag.edges[j].src);
    }
  }

  /** These are the positions of all edges that ready a node, in order. */
  ghost predicate Positions(dag: Dag, f: Db, n: NodeId, outputs: seq<Entry>, at: seq<nat>) {
    && (forall i | 0 <= i < |at| :: at[i] < |dag.edges|)
    && (forall i, j | 0 <= i < j < |at| :: at[i] < at[j])
    && (forall i | 0 <= i < |dag.edges| :: i in at <==> Schedules(dag, f, n, outputs, i))
  }

  /** The queue and the node rows after the targets of these edges have been enqueued. */
  ghost predicate Enqueued(dag: Dag, f: Db, at: seq<nat>, now: int, db: Db)
    requires forall i | 0 <= i < |at| :: at[i] < |dag.edges|
  {
    && db.nextId == f.nextId + |at| && db.status == f.status
    && (forall id: nat :: id in db.queue <==> id in f.queue || f.nextId <= id < f.nextId + |at|)
    && (forall id | id in f.queue && id < f.nextId :: db.queue[id] == f.queue[id])
    && (forall i | 0 <= i < |at| :: db.queue[f.nextId + i] == Row(dag.edges[at[i]].dst, 0, now, None, 0))
    && (forall key :: key in db.runNodes <==>
          key in f.runNodes || (key.1 == 0 && exists i :: 0 <= i < |at| && dag.edges[at[i]].dst == key.0))
    && (forall key | key in db.runNodes ::
          db.runNodes[key] == if key in f.runNodes then f.runNodes[key] else Pending)
  }

  lemma {:induction false} EnqueuedRows(db: Db, nodes: seq<NodeId>, now: int)
    ensures var db' := EnqueueAll(db, nodes, now);
            && db'.nextId == db.nextId + |nodes| && db'.status == db.status
            && (forall id: nat :: id in db'.queue <==> id in db.queue || db.nextId <= id < db.nextId + |nodes|)
            && (forall id | id in db.queue && id < db.nextId :: db'.queue[id] == db.queue[id])
            && (forall id: nat | db.nextId <= id < db.nextId + |nodes| ::
                  db'.queue[id] == Row(nodes[id - db.nextId], 0, now, None, 0))
    decreases |nodes|
  {
    if nodes != [] { EnqueuedRows(Enqueue(db, nodes[0], 0, now), nodes[1..], now); }
  }

  lemma {:induction false} EnqueuedNodes(db: Db, nodes: seq<NodeId>, now: int)
    ensures var db' := EnqueueAll(db, nodes, now);
            && (forall key :: key in db'.runNodes <==> key in db.runNodes || (key.1 == 0 && key.0 in nodes))
            && (forall key | key in db'.runNodes ::
                  db'.runNodes[key] == if key in db.runNodes then db.runNodes[key] else Pending)
    decreases |nodes|
  {
    if nodes != [] { EnqueuedNodes(Enqueue(db, nodes[0], 0, now), nodes[1..], now); }
  }

  lemma PicksArePositions(dag: Dag, f: Db, n: NodeId, outputs: seq<Entry>, at: seq<nat>, ready: seq<NodeId>)
    requires Picks(dag, n, NodeState(f), outputs, 0, at, ready)
    ensures Positions(dag, f, n, outputs, at)
    ensures |ready| == |at| && forall i | 0 <= i < |at| :: ready[i] == dag.edges[at[i]].dst
  {
    forall i | 0 <= i < |dag.edges| ensures i in at <==> Schedules(dag, f, n, outputs, i) {
      SchedulesIff(dag, f, n, outputs, i);
    }
  }

  lemma EnqueuedTargets(dag: Dag, f: Db, at: seq<nat>, ready: seq<NodeId>, now: int)
    requires |ready| == |at| && forall i | 0 <= i < |at| :: at[i] < |dag.edges| && ready[i] == dag.edges[at[i]].dst
    ensures Enqueued(dag, f, at, now, EnqueueAll(f, ready, now))
  {
    EnqueuedRows(f, ready, now);
    EnqueuedNodes(f, ready, now);
    forall x ensures x in ready <==> exists i :: 0 <= i < |at| && dag.edges[at[i]].dst == x {
      if i :| 0 <= i < |at| && dag.edges[at[i]].dst == x { assert ready[i] == x; }
    }
  }

  /** No edge leaves the node, and of the declared nodes every one that has a row has succeeded. */
  predicate MayClose(dag: Dag, f: Db, n: NodeId) {
    (forall i | 0 <= i < |dag.edges| :: dag.edges[i].src != n)
    && forall i | 0 <= i < |dag.nodes| :: (dag.nodes[i].id, 0) in f.runNodes ==>
         f.runNodes[(dag.nodes[i].id, 0)] == Succeeded
  }

  lemma MayCloseIff(dag: Dag, f: Db, n: NodeId)
    ensures MayClose(dag, f, n) <==> IsTerminal(dag, n) && AllDone(dag, NodeState(f))
  {
    TerminalIff(dag, n);
    forall i | 0 <= i < |dag.nodes|
      ensures dag.nodes[i].id in NodeState(f) <==> (dag.nodes[i].id, 0) in f.runNodes
      ensures dag.nodes[i].id in NodeState(f) ==>
                NodeState(f)[dag.nodes[i].id] == f.runNodes[(dag.nodes[i].id, 0)]
    {
      StateIs(f, dag.nodes[i].id);
    }
  }

  /** A node that does not go on schedules the targets of the edges that ready one, in order; if there are none
      the run is closed exactly when no edge leaves the node and every declared node that was started has
      succeeded. */
  lemma ScheduledJob(dag: Dag, db: Db, job: Job, outputs: seq<Entry>, now: int) returns (at: seq<nat>)
    requires Succeeds(dag, db, job) && !GoesOn(dag, job.node, job.iteration, outputs)
    ensures var f, db' := Settled(db, job, Succeeded, StartedStatus(db)), Handle(dag, db, job, Success(outputs), now);
            Positions(dag, f, job.node, outputs, at)
            && (at != [] ==> Enqueued(dag, f, at, now, db'))
            && (at == [] ==> db' == if MayClose(dag, f, job.node) then f.(status := Succeeded) else f)
  {
    var f := Settled(db, job, Succeeded, StartedStatus(db));
    SuccessIs(dag, db, job, outputs, now);
    ShouldLoopIff(dag, job.node, job.iteration, outputs);
    at := ReadyInOrder(dag, job.node, NodeState(f), outputs);
    var ready := ReadySuccessors(dag, job.node, NodeState(f), outputs);
    PicksArePositions(dag, f, job.node, outputs, at, ready);
    EnqueuedTargets(dag, f, at, ready, now);
    MayCloseIff(dag, f, job.node);
  }

  /** A row for the next iteration of the job's node has been added. */
  ghost predicate Continued(db: Db, job: Job, db': Db) {
    exists id | id in db'.queue && id >= db.nextId ::
      db'.queue[id].node == job.node && db'.queue[id].iteration == job.iteration + 1
  }

  /** A job enqueues the next iteration of its node exactly when it succeeds, its loop leaves room for one more,
      and the outputs say so. */
  lemma NextIterationIff(dag: Dag, db: Db, job: Job, outcome: Outcome, now: int)
    requires forall id | id in db.queue :: id < db.nextId
    ensures Continued(db, job, Handle(dag, db, job, outcome, now)) <==>
            Succeeds(dag, db, job) && outcome.Success? && GoesOn(dag, job.node, job.iteration, outcome.outputs)
  {
    var db' := Handle(dag, db, job, outcome, now);
    if db.status == Cancelled {
      CancelledJob(dag, db, job, outcome, now);
    } else if !IsDeclared(dag, job.node) || !outcome.Success? {
      FailedJob(dag, db, job, outcome, now);
    } else if GoesOn(dag, job.node, job.iteration, outcome.outputs) {
      LoopedJob(dag, db, job, outcome.outputs, now);
      assert db'.queue[db.nextId] == Row(job.node, job.iteration + 1, now, None, 0);
    } else {
      var at := ScheduledJob(dag, db, job, outcome.outputs, now);
      NothingContinued(dag, db, job, at, now, db');
    }
  }

  lemma NothingContinued(dag: Dag, db: Db, job: Job, at: seq<nat>, now: int, db': Db)
    requires forall id | id in db.queue :: id < db.nextId
    requires forall i | 0 <= i < |at| :: at[i] < |dag.edges|
    requires var f := Settled(db, job, Succeeded, StartedStatus(db));
             (at != [] ==> Enqueued(dag, f, at, now, db')) && (at == [] ==> db'.queue == f.queue)
    ensures !Continued(db, job, db')
  {
    forall id: nat | id in db'.queue && id >= db.nextId ensures db'.queue[id].iteration == 0 {
      var i := id - db.nextId;
      assert at != [] ==> db'.queue[db.nextId + i] == Row(dag.edges[at[i]].dst, 0, now, None, 0);
    }
  }

  // ---- whole runs --------------------------------------------------------------------------------

  /** No agent of the run says that its node is to go on. */
  ghost predicate NeverContinues(steps: seq<Step>) {
    forall i | 0 <= i < |steps| && steps[i].SucceedStep? :: !SaysContinue(steps[i].outputs)
  }

  /** Every row and every job is of the first iteration, and no outputs waiting to be acted on say otherwise. */
  ghost predicate Straight(s: Sys) {
    && (forall key | key in s.db.runNodes :: key.1 == 0)
    && (forall id | id in s.db.queue :: s.db.queue[id].iteration == 0)
    && (forall w | w in s.workers :: s.workers[w].job.iteration == 0)
    && (forall w | w in s.workers && s.workers[w].phase.Finished? :: !SaysContinue(s.workers[w].phase.outputs))
  }

  lemma StraightAdvance(dag: Dag, s: Sys, w: nat, now: int)
    requires Straight(s) && Enabled(dag, s, AdvanceStep(w, now))
    ensures Straight(AdvanceBy(dag, s, w, now))
  {
    ShouldLoopIff(dag, s.workers[w].job.node, s.workers[w].job.iteration, s.workers[w].phase.outputs);
  }

  lemma StraightStep(dag: Dag, s: Sys, step: Step)
    requires Straight(s) && Enabled(dag, s, step)
    requires step.SucceedStep? ==> !SaysContinue(step.outputs)
    ensures Straight(Apply(dag, s, step))
  {
    if step.AdvanceStep? {
      StraightAdvance(dag, s, step.w, step.now);
    } else if step.SucceedStep? || step.FailStep? || step.RejectStep? || step.StartNodeStep? {
      StraightWork(dag, s, step);
    }
  }

  lemma StraightWork(dag: Dag, s: Sys, step: Step)
    requires Straight(s) && Enabled(dag, s, step)
    requires step.SucceedStep? || step.FailStep? || step.RejectStep? || step.StartNodeStep?
    requires step.SucceedStep? ==> !SaysContinue(step.outputs)
    ensures Straight(Apply(dag, s, step))
  {}

  /** In every interleaving, crashes and sweeps included, in which no outputs hold a true value under
      `_loop_continue`, no row is ever of a later iteration than the first, whatever loops the graph declares. */
  lemma {:induction false} NoLaterIteration(dag: Dag, now: int, steps: seq<Step>, s: Sys)
    requires Execution(dag, now, steps, s) && NeverContinues(steps)
    ensures forall key | key in s.db.runNodes :: key.1 == 0
    ensures forall id | id in s.db.queue :: s.db.queue[id].iteration == 0
    ensures Straight(s)
    decreases |steps|
  {
    if steps != [] {
      var m := LastStep(dag, now, steps, s);
      assert forall i | 0 <= i < |steps| - 1 :: steps[..|steps| - 1][i] == steps[i];
      NoLaterIteration(dag, now, steps[..|steps| - 1], m);
      StraightStep(dag, m, steps[|steps| - 1]);
    }
  }

  /** And in every interleaving whatsoever a row is of the first iteration, or one its loop has room for. */
  lemma IterationsHaveRoom(dag: Dag, now: int, steps: seq<Step>, s: Sys, key: (NodeId, nat))
    requires Execution(dag, now, steps, s) && key in s.db.runNodes && key.1 > 0
    ensures exists i: nat :: IsNode(dag, i, key.0) && LeavesRoom(dag.nodes[i].loop, key.1 - 1)
  {
    IterationsBounded(dag, now, steps, s);
    FindNodeMeaning(dag, key.0);
  }
}
