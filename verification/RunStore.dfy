/** The three tables behind one workflow run, and the transactions the worker issues against them
    (services/workflow-worker/app/main.py). Each function below is one committed transaction. */
module RunStore {
  import opened Json
  import opened Dag

  datatype Claim = Claim(worker: string, expires: int)

  /** A work_queue row. */
  datatype Row = Row(node: NodeId, iteration: nat, availableAt: int, claim: Option<Claim>, attempts: nat)

  /** run_nodes by (node, iteration), work_queue by id with its sequence, and workflow_runs.status. */
  datatype Db = Db(runNodes: map<(NodeId, nat), Status>, queue: map<nat, Row>, nextId: nat, status: Status)

  /** What a worker holds of the row it claimed. */
  datatype Job = Job(id: nat, node: NodeId, iteration: nat)

  /** How the agent of a job ends: it cannot be resolved, it fails in any way, or it delivers outputs. */
  datatype Outcome = AgentMissing | Failure | Success(outputs: seq<Entry>)

  // ---- transactions -----------------------------------------------------

  /** submit_run: the entry node is queued and has a pending row. */
  function Submit(entry: NodeId, now: int): Db {
    Db(map[(entry, 0) := Pending], map[0 := Row(entry, 0, now, None, 0)], 1, Pending)
  }

  predicate Claimable(row: Row, now: int) { row.claim == None && row.availableAt <= now }

  /** The row an ORDER BY available_at LIMIT 1 query may return. */
  predicate Earliest(queue: map<nat, Row>, id: nat, now: int) {
    id in queue && Claimable(queue[id], now) &&
    forall other | other in queue && Claimable(queue[other], now) ::
      queue[id].availableAt <= queue[other].availableAt
  }

  function ClaimRow(db: Db, id: nat, worker: string, now: int, ttl: int): Db
    requires id in db.queue
  {
    var row := db.queue[id];
    db.(queue := db.queue[id := row.(claim := Some(Claim(worker, now + ttl)), attempts := row.attempts + 1)])
  }

  predicate Stale(row: Row, now: int) { row.claim.Some? && row.claim.value.expires < now }

  /** One pass of the sweeper: every expired claim is cleared. */
  function Sweep(db: Db, now: int): Db {
    db.(queue := map id | id in db.queue ::
      if Stale(db.queue[id], now) then db.queue[id].(claim := None) else db.queue[id])
  }

  /** Until its lease has expired no sweep gives a claimed row back, and from then on the next one does, as
      it was but for the attempt counted; other rows with a lease that holds are left alone. */
  lemma LeaseReleasedIff(db: Db, id: nat, worker: string, now: int, ttl: int, later: int)
    requires id in db.queue && Claimable(db.queue[id], now) && now <= later
    ensures var row, swept := db.queue[id], Sweep(ClaimRow(db, id, worker, now, ttl), later);
            (Claimable(swept.queue[id], later) <==> now + ttl < later)
            && (now + ttl < later ==> swept.queue[id] == row.(attempts := row.attempts + 1))
            && swept.queue.Keys == db.queue.Keys
            && forall other :: other in db.queue && other != id && !Stale(db.queue[other], later) ==>
                 swept.queue[other] == db.queue[other]
  {
    var claimed := ClaimRow(db, id, worker, now, ttl);
    assert claimed.queue[id].claim == Some(Claim(worker, now + ttl));
  }

  /** UPDATE run_nodes: an absent row stays absent. */
  function SetNode(db: Db, n: NodeId, iteration: nat, status: Status): Db {
    if (n, iteration) in db.runNodes then db.(runNodes := db.runNodes[(n, iteration) := status]) else db
  }

  function StartRun(db: Db): Db { if db.status == Pending then db.(status := Running) else db }

  function Discard(db: Db, id: nat): Db { db.(queue := db.queue - {id}) }

  function Finalize(db: Db, job: Job, status: Status): Db {
    Discard(SetNode(db, job.node, job.iteration, status), job.id)
  }

  /** INSERT ... ON CONFLICT DO NOTHING into run_nodes, and an unconditional insert into work_queue. */
  function Enqueue(db: Db, n: NodeId, iteration: nat, now: int): Db {
    Db(if (n, iteration) in db.runNodes then db.runNodes else db.runNodes[(n, iteration) := Pending],
       db.queue[db.nextId := Row(n, iteration, now, None, 0)],
       db.nextId + 1, db.status)
  }

  function MarkFinished(db: Db, status: Status): Db { db.(status := status) }

  function Cancel(db: Db): Db {
    if db.status == Pending || db.status == Running then db.(status := Cancelled) else db
  }

  /** The statuses of iteration 0, the only ones the scheduler consults. */
  function NodeState(db: Db): map<NodeId, Status> {
    map n | n in (set key | key in db.runNodes && key.1 == 0 :: key.0) :: db.runNodes[(n, 0)]
  }

  // ---- one job handled without interruption ------------------------------

  function EnqueueAll(db: Db, nodes: seq<NodeId>, now: int): Db
    decreases |nodes|
  {
    if nodes == [] then db else EnqueueAll(Enqueue(db, nodes[0], 0, now), nodes[1..], now)
  }

  predicate Accepted(dag: Dag, n: NodeId, outcome: Outcome) {
    Declared(dag, n) && outcome != AgentMissing
  }

  function Fail(db: Db, job: Job): Db { MarkFinished(Finalize(db, job, Failed), Failed) }

  /** After a success: loop, schedule the ready successors, or close the run. */
  function Advance(dag: Dag, db: Db, job: Job, outputs: seq<Entry>, now: int): Db
    requires Declared(dag, job.node)
  {
    if ShouldLoop(FindNode(dag.nodes, job.node).value, outputs, job.iteration) then
      Enqueue(db, job.node, job.iteration + 1, now)
    else
      var ready := ReadySuccessors(dag, job.node, NodeState(db), outputs);
      if ready != [] then EnqueueAll(db, ready, now)
      else if IsTerminal(dag, job.node) && AllDone(dag, NodeState(db)) then MarkFinished(db, Succeeded)
      else db
  }

  function Handle(dag: Dag, db: Db, job: Job, outcome: Outcome, now: int): Db {
    if db.status == Cancelled then Discard(db, job.id)
    else if !Accepted(dag, job.node, outcome) then Fail(db, job)
    else
      var started := StartRun(SetNode(db, job.node, job.iteration, Running));
      match outcome
      case Success(outputs) => Advance(dag, Finalize(started, job, Succeeded), job, outputs, now)
      case _ => Fail(started, job)
  }

  // ---- the tables themselves ----------------------------------------------

  lemma EarliestExists(queue: map<nat, Row>, ids: set<nat>, now: int)
    requires ids == set id | id in queue && Claimable(queue[id], now)
    requires ids != {}
    ensures exists id :: Earliest(queue, id, now)
  {
    var id := LeastAvailable(queue, ids);
    assert Earliest(queue, id, now);
  }

  lemma {:induction false} LeastAvailable(queue: map<nat, Row>, ids: set<nat>) returns (id: nat)
    requires ids != {} && ids <= queue.Keys
    ensures id in ids && forall other | other in ids :: queue[id].availableAt <= queue[other].availableAt
  {
    id :| id in ids;
    if ids != {id} {
      var rest := LeastAvailable(queue, ids - {id});
      if queue[rest].availableAt < queue[id].availableAt {
        id := rest;
      }
    }
  }

  class Tables {
    var runNodes: map<(NodeId, nat), Status>
    var queue: map<nat, Row>
    var nextId: nat
    var status: Status

    function Contents(): Db
      reads this
    {
      Db(runNodes, queue, nextId, status)
    }

    constructor (entry: NodeId, now: int)
      ensures Contents() == Submit(entry, now)
      ensures runNodes == map[(entry, 0) := Pending] && queue == map[0 := Row(entry, 0, now, None, 0)]
      ensures nextId == 1 && status == Pending
    {
      runNodes := map[(entry, 0) := Pending];
      queue := map[0 := Row(entry, 0, now, None, 0)];
      nextId := 1;
      status := Pending;
    }

    method ClaimOne(worker: string, now: int, ttl: int) returns (job: Option<Job>)
      modifies this
      ensures job == None <==> forall id | id in old(queue) :: !Claimable(old(queue)[id], now)
      ensures job == None ==> Contents() == old(Contents())
      ensures job.Some? ==>
        Earliest(old(queue), job.value.id, now) &&
        job.value.node == old(queue)[job.value.id].node &&
        job.value.iteration == old(queue)[job.value.id].iteration &&
        Contents() == ClaimRow(old(Contents()), job.value.id, worker, now, ttl)
      ensures job == None <==>
        forall id | id in old(queue) :: old(queue)[id].claim.Some? || now < old(queue)[id].availableAt
      ensures job.Some? ==>
        var Job(id, node, iteration), row := job.value, old(queue)[job.value.id];
        && row.claim == None && row.availableAt <= now
        && (forall other | other in old(queue) && old(queue)[other].claim == None ::
              row.availableAt <= old(queue)[other].availableAt)
        && queue == old(queue)[id := Row(node, iteration, row.availableAt, Some(Claim(worker, now + ttl)),
                                         row.attempts + 1)]
        && runNodes == old(runNodes) && nextId == old(nextId) && status == old(status)
    {
      var ids := set id | id in queue && Claimable(queue[id], now);
      if ids == {} {
        assert forall id | id in queue :: Claimable(queue[id], now) ==> id in ids;
        return None;
      }
      EarliestExists(queue, ids, now);
      var id :| id in queue && Earliest(queue, id, now);
      var row := queue[id];
      queue := queue[id := row.(claim := Some(Claim(worker, now + ttl)), attempts := row.attempts + 1)];
      job := Some(Job(id, row.node, row.iteration));
    }

    method SweepStale(now: int)
      modifies this
      ensures Contents() == Sweep(old(Contents()), now)
      ensures queue.Keys == old(queue).Keys && runNodes == old(runNodes) && status == old(status)
      ensures forall id | id in queue ::
        var row := old(queue)[id];
        queue[id] == if row.claim.Some? && row.claim.value.expires < now then row.(claim := None) else row
    {
      var stale := set id | id in queue && Stale(queue[id], now);
      if stale != {} {
        queue := map id | id in queue :: if id in stale then queue[id].(claim := None) else queue[id];
      }
      assert forall id | id in old(queue) :: id in stale <==> Stale(old(queue)[id], now);
      assert queue == Sweep(old(Contents()), now).queue;
    }

    method UpdateNode(n: NodeId, iteration: nat, newStatus: Status)
      modifies this
      ensures Contents() == SetNode(old(Contents()), n, iteration, newStatus)
    {
      if (n, iteration) in runNodes {
        runNodes := runNodes[(n, iteration) := newStatus];
      }
    }

    method MarkNodeRunning(n: NodeId, iteration: nat)
      modifies this
      ensures Contents() == StartRun(SetNode(old(Contents()), n, iteration, Running))
      ensures queue == old(queue) && nextId == old(nextId) && runNodes.Keys == old(runNodes).Keys
      ensures forall key | key in runNodes ::
        runNodes[key] == if key == (n, iteration) then Running else old(runNodes)[key]
      ensures status == if old(status) == Pending then Running else old(status)
    {
      UpdateNode(n, iteration, Running);
      if status == Pending {
        status := Running;
      }
    }

    method DeleteRow(id: nat)
      modifies this
      ensures Contents() == Discard(old(Contents()), id)
    {
      queue := queue - {id};
    }

    method FinalizeNode(job: Job, newStatus: Status)
      modifies this
      ensures Contents() == Finalize(old(Contents()), job, newStatus)
      ensures queue == old(queue) - {job.id} && nextId == old(nextId) && status == old(status)
      ensures runNodes.Keys == old(runNodes).Keys
      ensures forall key | key in runNodes ::
        runNodes[key] == if key == (job.node, job.iteration) then newStatus else old(runNodes)[key]
    {
      UpdateNode(job.node, job.iteration, newStatus);
      DeleteRow(job.id);
    }

    method EnqueueNode(n: NodeId, iteration: nat, now: int)
      modifies this
      ensures Contents() == Enqueue(old(Contents()), n, iteration, now)
      ensures queue == old(queue)[old(nextId) := Row(n, iteration, now, None, 0)] && nextId == old(nextId) + 1
      ensures runNodes.Keys == old(runNodes).Keys + {(n, iteration)} && status == old(status)
      ensures forall key | key in runNodes ::
        runNodes[key] == if key in old(runNodes) then old(runNodes)[key] else Pending
    {
      if (n, iteration) !in runNodes {
        runNodes := runNodes[(n, iteration) := Pending];
      }
      queue := queue[nextId := Row(n, iteration, now, None, 0)];
      nextId := nextId + 1;
    }

    method MarkRunFinished(newStatus: Status)
      modifies this
      ensures Contents() == MarkFinished(old(Contents()), newStatus)
    {
      status := newStatus;
    }

    method CancelRun()
      modifies this
      ensures Contents() == Cancel(old(Contents()))
      ensures queue == old(queue) && nextId == old(nextId) && runNodes == old(runNodes)
      ensures status == if old(status) in {Pending, Running} then Cancelled else old(status)
    {
      if status == Pending || status == Running {
        status := Cancelled;
      }
    }

    method FailJob(job: Job)
      modifies this
      ensures Contents() == Fail(old(Contents()), job)
    {
      FinalizeNode(job, Failed);
      MarkRunFinished(Failed);
    }

    /** _handle_job, with the agent's end given as `outcome`. */
    method HandleJob(dag: Dag, job: Job, outcome: Outcome, now: int)
      modifies this
      ensures Contents() == Handle(dag, old(Contents()), job, outcome, now)
    {
      if status == Cancelled {
        DeleteRow(job.id);
        return;
      }
      if !Accepted(dag, job.node, outcome) {
        FailJob(job);
        return;
      }
      MarkNodeRunning(job.node, job.iteration);
      if outcome == Failure {
        FailJob(job);
        return;
      }
      FinalizeNode(job, Succeeded);
      if ShouldLoop(FindNode(dag.nodes, job.node).value, outcome.outputs, job.iteration) {
        EnqueueNode(job.node, job.iteration + 1, now);
        return;
      }
      var state := NodeState(Contents());
      var ready := FindReadySuccessors(dag, job.node, state, outcome.outputs);
      if ready != [] {
        EnqueueReady(ready, now);
      } else if IsTerminal(dag, job.node) {
        if AllDone(dag, state) {
          MarkRunFinished(Succeeded);
        }
      }
    }

    method EnqueueReady(ready: seq<NodeId>, now: int)
      modifies this
      ensures Contents() == EnqueueAll(old(Contents()), ready, now)
    {
      var i := 0;
      while i < |ready|
        invariant 0 <= i <= |ready|
        invariant EnqueueAll(old(Contents()), ready, now) == EnqueueAll(Contents(), ready[i..], now)
      {
        EnqueueNode(ready[i], 0, now);
        assert ready[i..][1..] == ready[i + 1..];
        i := i + 1;
      }
    }
  }
}
