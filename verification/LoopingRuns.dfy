/** Runs of any graph, loops, cycles and parallel edges included, in which one job is handled at a time: what
    closing such a run leaves behind (services/workflow-worker/app/main.py). */
module LoopingRuns {
  import opened Json
  import opened Dag
  import opened RunStore
  import opened SerialRuns

  /** The entry and the ends of all edges are declared nodes; nothing else is asked of the graph. */
  ghost predicate EdgesDeclared(dag: Dag) {
    Declared(dag, dag.entry)
    && forall i | 0 <= i < |dag.edges| :: Declared(dag, dag.edges[i].src) && Declared(dag, dag.edges[i].dst)
  }

  ghost predicate HasRow(db: Db, key: (NodeId, nat)) {
    exists id :: id in db.queue && (db.queue[id].node, db.queue[id].iteration) == key
  }

  /** Every row is of a declared node that has a row for iteration 0. */
  ghost predicate Anchored(dag: Dag, db: Db) {
    (forall id | id in db.queue :: id < db.nextId && (db.queue[id].node, db.queue[id].iteration) in db.runNodes)
    && (forall key | key in db.runNodes :: Declared(dag, key.0) && (key.0, 0) in db.runNodes)
  }

  /** Between jobs no node is running, and what is pending is queued unless the run was cancelled. */
  ghost predicate Resting(db: Db) {
    (forall key | key in db.runNodes ::
       db.runNodes[key] == Succeeded || db.runNodes[key] == Failed || db.runNodes[key] == Pending)
    && (db.status != Cancelled ==> forall key | key in db.runNodes && db.runNodes[key] == Pending :: HasRow(db, key))
  }

  lemma EnqueueKeeps(dag: Dag, db: Db, n: NodeId, iteration: nat, now: int)
    requires Anchored(dag, db) && Resting(db) && Declared(dag, n)
    requires iteration == 0 || (n, 0) in db.runNodes
    ensures Anchored(dag, Enqueue(db, n, iteration, now)) && Resting(Enqueue(db, n, iteration, now))
    ensures Enqueue(db, n, iteration, now).status == db.status
  {
    var m := Enqueue(db, n, iteration, now);
    assert m.queue[db.nextId] == Row(n, iteration, now, None, 0);
    forall key | m.status != Cancelled && key in m.runNodes && m.runNodes[key] == Pending
      ensures HasRow(m, key)
    {
      if key in db.runNodes {
        var id :| id in db.queue && (db.queue[id].node, db.queue[id].iteration) == key;
        assert m.queue[id] == db.queue[id];
      }
    }
  }

  lemma {:induction false} EnqueueAllKeeps(dag: Dag, db: Db, nodes: seq<NodeId>, now: int)
    requires Anchored(dag, db) && Resting(db) && forall n | n in nodes :: Declared(dag, n)
    ensures Anchored(dag, EnqueueAll(db, nodes, now)) && Resting(EnqueueAll(db, nodes, now))
    decreases |nodes|
  {
    if nodes != [] {
      EnqueueKeeps(dag, db, nodes[0], 0, now);
      EnqueueAllKeeps(dag, Enqueue(db, nodes[0], 0, now), nodes[1..], now);
    }
  }

  /** The tables once the job of row `id` has been finalised, before anything is scheduled. */
  function Finalized(db: Db, id: nat, status: Status): Db
    requires id in db.queue
  {
    var job := JobOf(db, id);
    Finalize(StartRun(SetNode(db, job.node, job.iteration, Running)), job, status)
  }

  lemma FinalizedRows(db: Db, id: nat, status: Status)
    requires id in db.queue && (db.queue[id].node, db.queue[id].iteration) in db.runNodes
    ensures Finalized(db, id, status).queue == db.queue - {id}
    ensures Finalized(db, id, status).runNodes == db.runNodes[(db.queue[id].node, db.queue[id].iteration) := status]
  {}

  lemma FinalizedKeeps(dag: Dag, db: Db, id: nat, status: Status)
    requires Anchored(dag, db) && Resting(db) && id in db.queue && db.status != Cancelled
    requires status == Succeeded || status == Failed
    ensures Anchored(dag, Finalized(db, id, status)) && Resting(Finalized(db, id, status))
    ensures Finalized(db, id, status).queue == db.queue - {id}
    ensures Finalized(db, id, status).runNodes == db.runNodes[(db.queue[id].node, db.queue[id].iteration) := status]
  {
    var f := Finalized(db, id, status);
    FinalizedRows(db, id, status);
    forall key | key in f.runNodes && f.runNodes[key] == Pending
      ensures HasRow(f, key)
    {
      var other :| other in db.queue && (db.queue[other].node, db.queue[other].iteration) == key;
      assert other in f.queue && f.queue[other] == db.queue[other];
    }
  }

  lemma FinishedKeeps(dag: Dag, db: Db, status: Status)
    requires Anchored(dag, db) && Resting(db) && (db.status != Cancelled || status == Cancelled)
    ensures Anchored(dag, MarkFinished(db, status)) && Resting(MarkFinished(db, status))
  {
    assert forall key :: HasRow(db, key) ==> HasRow(MarkFinished(db, status), key);
  }

  /** Rejected before it starts or failed after, a job leaves the same tables but for the run's status. */
  lemma RejectedKeeps(dag: Dag, db: Db, id: nat)
    requires Anchored(dag, db) && Resting(db) && id in db.queue && db.status != Cancelled
    ensures Fail(db, JobOf(db, id)) == MarkFinished(Finalized(db, id, Failed), Failed)
    ensures Anchored(dag, Fail(db, JobOf(db, id))) && Resting(Fail(db, JobOf(db, id)))
  {
    FinalizedKeeps(dag, db, id, Failed);
    FinishedKeeps(dag, Finalized(db, id, Failed), Failed);
    var own := (db.queue[id].node, db.queue[id].iteration);
    assert db.runNodes[own := Running][own := Failed] == db.runNodes[own := Failed];
  }

  lemma ReadyAreDeclared(dag: Dag, n: NodeId, state: map<NodeId, Status>, outputs: seq<Entry>)
    requires EdgesDeclared(dag)
    ensures forall s | s in ReadySuccessors(dag, n, state, outputs) :: Declared(dag, s)
  {
    forall s | s in ReadySuccessors(dag, n, state, outputs) ensures Declared(dag, s) {
      ReadyIsSuccessor(dag, n, state, outputs, s);
      var i :| 0 <= i < |dag.edges| && dag.edges[i].src == n && dag.edges[i].dst == s;
    }
  }

  lemma ScheduleKeeps(dag: Dag, f: Db, n: NodeId, outputs: seq<Entry>, now: int)
    requires EdgesDeclared(dag) && Anchored(dag, f) && Resting(f)
    ensures var db' := EnqueueAll(f, ReadySuccessors(dag, n, NodeState(f), outputs), now);
            Anchored(dag, db') && Resting(db')
  {
    ReadyAreDeclared(dag, n, NodeState(f), outputs);
    EnqueueAllKeeps(dag, f, ReadySuccessors(dag, n, NodeState(f), outputs), now);
  }

  lemma AdvanceChoices(dag: Dag, f: Db, job: Job, outputs: seq<Entry>, now: int)
    requires Declared(dag, job.node)
    ensures var db' := Advance(dag, f, job, outputs, now);
            db' == f || db' == Enqueue(f, job.node, job.iteration + 1, now) || db' == MarkFinished(f, Succeeded)
            || db' == EnqueueAll(f, ReadySuccessors(dag, job.node, NodeState(f), outputs), now)
  {
    var ready := ReadySuccessors(dag, job.node, NodeState(f), outputs);
    if ShouldLoop(FindNode(dag.nodes, job.node).value, outputs, job.iteration) {
      assert Advance(dag, f, job, outputs, now) == Enqueue(f, job.node, job.iteration + 1, now);
    } else if ready != [] {
      assert Advance(dag, f, job, outputs, now) == EnqueueAll(f, ready, now);
    }
  }

  lemma AdvanceKeeps(dag: Dag, f: Db, job: Job, outputs: seq<Entry>, now: int)
    requires EdgesDeclared(dag) && Anchored(dag, f) && Resting(f) && f.status != Cancelled
    requires Declared(dag, job.node) && (job.node, 0) in f.runNodes
    ensures var db' := Advance(dag, f, job, outputs, now);
            Anchored(dag, db') && Resting(db')
  {
    AdvanceChoices(dag, f, job, outputs, now);
    EnqueueKeeps(dag, f, job.node, job.iteration + 1, now);
    ScheduleKeeps(dag, f, job.node, outputs, now);
    FinishedKeeps(dag, f, Succeeded);
  }

  lemma DiscardedKeeps(dag: Dag, db: Db, id: nat)
    requires Anchored(dag, db) && Resting(db) && db.status == Cancelled
    ensures Anchored(dag, Discard(db, id)) && Resting(Discard(db, id))
  {}

  lemma PlayRests(dag: Dag, db: Db, e: Event)
    requires EdgesDeclared(dag) && Anchored(dag, db) && Resting(db) && Possible(db, e)
    ensures Anchored(dag, Play(dag, db, e)) && Resting(Play(dag, db, e))
  {
    if e.CancelEvent? {
      FinishedKeeps(dag, db, Cancel(db).status);
    } else {
      ClaimVanishes(dag, db, e.id, e.name, e.ttl, e.outcome, e.now);
      if db.status == Cancelled {
        DiscardedKeeps(dag, db, e.id);
      } else {
        HandleRests(dag, db, e.id, e.outcome, e.now);
      }
    }
  }

  lemma SuccessRests(dag: Dag, db: Db, id: nat, outputs: seq<Entry>, now: int)
    requires EdgesDeclared(dag) && Anchored(dag, db) && Resting(db) && id in db.queue && db.status != Cancelled
    requires Declared(dag, db.queue[id].node)
    ensures var db' := Handle(dag, db, JobOf(db, id), Success(outputs), now);
            Anchored(dag, db') && Resting(db')
  {
    FinalizedKeeps(dag, db, id, Succeeded);
    AdvanceKeeps(dag, Finalized(db, id, Succeeded), JobOf(db, id), outputs, now);
  }

  lemma HandleRests(dag: Dag, db: Db, id: nat, outcome: Outcome, now: int)
    requires EdgesDeclared(dag) && Anchored(dag, db) && Resting(db) && id in db.queue && db.status != Cancelled
    ensures var db' := Handle(dag, db, JobOf(db, id), outcome, now);
            Anchored(dag, db') && Resting(db')
  {
    if Accepted(dag, db.queue[id].node, outcome) && outcome.Success? {
      SuccessRests(dag, db, id, outcome.outputs, now);
    } else {
      RejectedKeeps(dag, db, id);
      FinalizedKeeps(dag, db, id, Failed);
      FinishedKeeps(dag, Finalized(db, id, Failed), Failed);
    }
  }

  lemma {:induction false} SerialRests(dag: Dag, now: int, events: seq<Event>, dbs: seq<Db>, k: nat)
    requires EdgesDeclared(dag) && Serial(dag, now, events, dbs) && k <= |events|
    ensures Anchored(dag, dbs[k]) && Resting(dbs[k])
  {
    if k == 0 {
      assert dbs[0].queue[0].node == dag.entry && HasRow(dbs[0], (dag.entry, 0));
    } else {
      SerialRests(dag, now, events, dbs, k - 1);
      PlayRests(dag, dbs[k - 1], events[k - 1]);
    }
  }

  // ---- closing ---------------------------------------------------------------------------

  /** The job succeeds, does not loop, has a terminal node, and passes the completion test. */
  predicate Closes(dag: Dag, db: Db, e: Event)
    requires Possible(db, e)
  {
    e.HandleEvent? && db.status != Cancelled && e.outcome.Success? && Declared(dag, db.queue[e.id].node)
    && var job := JobOf(db, e.id);
       !ShouldLoop(FindNode(dag.nodes, job.node).value, e.outcome.outputs, job.iteration)
       && IsTerminal(dag, job.node) && AllDone(dag, NodeState(Finalized(db, e.id, Succeeded)))
  }

  lemma TerminalHasNoneReady(dag: Dag, n: NodeId, state: map<NodeId, Status>, outputs: seq<Entry>)
    requires IsTerminal(dag, n)
    ensures ReadySuccessors(dag, n, state, outputs) == []
  {
    var ready := ReadySuccessors(dag, n, state, outputs);
    if ready != [] {
      assert ready[0] in ready;
      ReadyIsSuccessor(dag, n, state, outputs, ready[0]);
      SuccessorsMeaning(dag.edges, n, ready[0]);
    }
  }

  lemma ClosingPlay(dag: Dag, db: Db, e: Event)
    requires Possible(db, e) && Closes(dag, db, e)
    ensures Play(dag, db, e) == MarkFinished(Finalized(db, e.id, Succeeded), Succeeded)
  {
    var job := JobOf(db, e.id);
    ClaimVanishes(dag, db, e.id, e.name, e.ttl, e.outcome, e.now);
    TerminalHasNoneReady(dag, job.node, NodeState(Finalized(db, e.id, Succeeded)), e.outcome.outputs);
  }

  /** The closing test reads as succeeded every node that has a row. */
  lemma DoneMeansSucceeded(dag: Dag, f: Db, key: (NodeId, nat))
    requires Anchored(dag, f) && AllDone(dag, NodeState(f)) && key in f.runNodes
    ensures HasStatus(f, key.0, Succeeded)
  {
    DeclaredIsListed(dag.nodes, key.0);
    var i :| 0 <= i < |dag.nodes| && dag.nodes[i].id == key.0;
    assert (key.0, 0) in f.runNodes && key.0 in NodeState(f);
  }

  /** Another queued row belongs to the closing job's own node, or to one whose iteration 0 has succeeded: a
      further iteration, or a second time. */
  ghost predicate StillQueued(db: Db, id: nat)
    requires id in db.queue
  {
    exists other | other in db.queue && other != id ::
      db.queue[other].node == db.queue[id].node || HasStatus(db, db.queue[other].node, Succeeded)
  }

  lemma LeftoverIsKnown(dag: Dag, db: Db, id: nat, other: nat)
    requires Anchored(dag, db) && Resting(db) && id in db.queue && db.status != Cancelled
    requires AllDone(dag, NodeState(Finalized(db, id, Succeeded))) && other in db.queue && other != id
    ensures StillQueued(db, id)
  {
    FinalizedKeeps(dag, db, id, Succeeded);
    var f, key := Finalized(db, id, Succeeded), (db.queue[other].node, db.queue[other].iteration);
    assert key in f.runNodes;
    DoneMeansSucceeded(dag, f, key);
    assert db.queue[other].node != db.queue[id].node ==> HasStatus(db, db.queue[other].node, Succeeded);
  }

  /** In serial runs of any graph a closing job leaves the queue empty exactly when no other queued row belongs
      to its own node or to one whose iteration 0 has already succeeded. */
  lemma ClosedQueueIff(dag: Dag, now: int, events: seq<Event>, dbs: seq<Db>, k: nat)
    requires EdgesDeclared(dag) && Serial(dag, now, events, dbs) && k < |events|
    requires Closes(dag, dbs[k], events[k])
    ensures dbs[k + 1].status == Succeeded
    ensures dbs[k + 1].queue == map[] <==> !StillQueued(dbs[k], events[k].id)
  {
    SerialRests(dag, now, events, dbs, k);
    ClosingLeavesQueue(dag, dbs[k], events[k]);
  }

  lemma ClosingLeavesQueue(dag: Dag, db: Db, e: Event)
    requires Anchored(dag, db) && Resting(db) && Possible(db, e) && Closes(dag, db, e)
    ensures Play(dag, db, e).status == Succeeded
    ensures Play(dag, db, e).queue == map[] <==> !StillQueued(db, e.id)
  {
    ClosingPlay(dag, db, e);
    FinalizedKeeps(dag, db, e.id, Succeeded);
    var left := db.queue - {e.id};
    if left != map[] {
      var other :| other in left;
      LeftoverIsKnown(dag, db, e.id, other);
    }
    if StillQueued(db, e.id) {
      var other :| other in db.queue && other != e.id;
      assert other in left;
    }
  }

  /** A later iteration of some node, other than the job's own, has failed: the test does not see it. */
  ghost predicate LaterFailure(db: Db, id: nat)
    requires id in db.queue
  {
    exists key | key in db.runNodes ::
      key.1 > 0 && db.runNodes[key] == Failed && key != (db.queue[id].node, db.queue[id].iteration)
  }

  /** Nothing is queued and every row has succeeded. */
  ghost predicate AllIsDone(db: Db) {
    db.queue == map[] && forall key | key in db.runNodes :: db.runNodes[key] == Succeeded
  }

  /** Of tables that pass the test and rest. */
  lemma EmptyMeansDone(dag: Dag, f: Db)
    requires Anchored(dag, f) && Resting(f) && f.status != Cancelled && AllDone(dag, NodeState(f)) && f.queue == map[]
    ensures AllIsDone(f) <==> forall key | key in f.runNodes && key.1 > 0 :: f.runNodes[key] != Failed
  {
    forall key | key in f.runNodes
      ensures f.runNodes[key] == Succeeded || (key.1 > 0 && f.runNodes[key] == Failed)
    {
      DoneMeansSucceeded(dag, f, key);
      assert f.runNodes[key] == Pending ==> HasRow(f, key);
    }
  }

  /** And the success it reports is the truth exactly when, besides, no later iteration has failed. */
  lemma ClosedIsTrueIff(dag: Dag, now: int, events: seq<Event>, dbs: seq<Db>, k: nat)
    requires EdgesDeclared(dag) && Serial(dag, now, events, dbs) && k < |events|
    requires Closes(dag, dbs[k], events[k])
    ensures AllIsDone(dbs[k + 1]) <==> !StillQueued(dbs[k], events[k].id) && !LaterFailure(dbs[k], events[k].id)
  {
    var db, e := dbs[k], events[k];
    ClosedQueueIff(dag, now, events, dbs, k);
    SerialRests(dag, now, events, dbs, k);
    ClosingPlay(dag, db, e);
    FinalizedKeeps(dag, db, e.id, Succeeded);
    if dbs[k + 1].queue == map[] {
      EmptyMeansDone(dag, Finalized(db, e.id, Succeeded));
      LaterFailureMeaning(db, e.id);
    }
  }

  lemma LaterFailureMeaning(db: Db, id: nat)
    requires id in db.queue
    ensures var own := (db.queue[id].node, db.queue[id].iteration);
            var rows := db.runNodes[own := Succeeded];
            LaterFailure(db, id) <==> exists key | key in rows :: key.1 > 0 && rows[key] == Failed
  {
    var own := (db.queue[id].node, db.queue[id].iteration);
    var rows := db.runNodes[own := Succeeded];
    if LaterFailure(db, id) {
      var key :| key in db.runNodes && key.1 > 0 && db.runNodes[key] == Failed && key != own;
      assert key in rows && rows[key] == Failed;
    }
  }
}
