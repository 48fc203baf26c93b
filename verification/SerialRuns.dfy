/** Runs in which one job is handled at a time: what the terminal status of such a run means, and
    that an unconditional run visits every node once, in topological order
    (services/workflow-worker/app/main.py, services/workflow-worker/app/dag.py). */
module SerialRuns {
  import opened Json
  import opened Dag
  import opened RunStore
  import opened Interleaving

  datatype Event =
    | HandleEvent(id: nat, name: string, ttl: int, outcome: Outcome, now: int)
    | CancelEvent

  predicate Possible(db: Db, e: Event) {
    e.HandleEvent? ==> e.id in db.queue && Claimable(db.queue[e.id], e.now)
  }

  function JobOf(db: Db, id: nat): Job
    requires id in db.queue
  {
    Job(id, db.queue[id].node, db.queue[id].iteration)
  }

  /** Claim a row and handle it to the end, or cancel the run. */
  function Play(dag: Dag, db: Db, e: Event): Db
    requires Possible(db, e)
  {
    match e
    case HandleEvent(id, name, ttl, outcome, now) =>
      Handle(dag, ClaimRow(db, id, name, now, ttl), JobOf(db, id), outcome, now)
    case CancelEvent => Cancel(db)
  }

  /** dbs[i] is the state before events[i]; the last entry is the final state. */
  ghost predicate Serial(dag: Dag, now: int, events: seq<Event>, dbs: seq<Db>) {
    && |dbs| == |events| + 1
    && dbs[0] == Submit(dag.entry, now)
    && (forall i | 0 <= i < |events| :: Possible(dbs[i], events[i]) && dbs[i + 1] == Play(dag, dbs[i], events[i]))
  }

  /** The claim leaves no trace once the job is handled. */
  lemma ClaimVanishes(dag: Dag, db: Db, id: nat, name: string, ttl: int, outcome: Outcome, now: int)
    requires id in db.queue
    ensures Handle(dag, ClaimRow(db, id, name, now, ttl), JobOf(db, id), outcome, now) ==
            Handle(dag, db, JobOf(db, id), outcome, now)
  {
    var c := ClaimRow(db, id, name, now, ttl);
    assert c.queue - {id} == db.queue - {id};
    assert Discard(c, id) == Discard(db, id);
    var job := JobOf(db, id);
    assert Finalize(c, job, Failed) == Finalize(db, job, Failed);
    var cs := StartRun(SetNode(c, job.node, job.iteration, Running));
    var ds := StartRun(SetNode(db, job.node, job.iteration, Running));
    assert Finalize(cs, job, Failed) == Finalize(ds, job, Failed);
    assert Finalize(cs, job, Succeeded) == Finalize(ds, job, Succeeded);
  }

  // ---- serial runs are interleavings -------------------------------------------

  lemma Extend(dag: Dag, s: Sys, steps: seq<Step>, step: Step)
    requires Exec(dag, s, steps).Some? && Enabled(dag, Exec(dag, s, steps).value, step)
    ensures Exec(dag, s, steps + [step]) == Some(Apply(dag, Exec(dag, s, steps).value, step))
  {
    assert (steps + [step])[..|steps|] == steps;
  }

  lemma {:induction false} EnqueueSteps(dag: Dag, s: Sys, w: nat, now: int) returns (steps: seq<Step>)
    requires s.workers.Keys == {w} && s.workers[w].phase.Scheduling? && s.workers[w].phase.todo != []
    ensures Exec(dag, s, steps).Some?
    ensures Exec(dag, s, steps).value.workers == map[]
    ensures Exec(dag, s, steps).value.db == EnqueueAll(s.db, s.workers[w].phase.todo, now)
    decreases |s.workers[w].phase.todo|
  {
    var todo := s.workers[w].phase.todo;
    var step := EnqueueStep(w, now);
    var m := Apply(dag, s, step);
    Extend(dag, s, [], step);
    assert Exec(dag, s, [step]) == Some(m) by { assert [] + [step] == [step]; }
    if |todo| == 1 {
      steps := [step];
      assert m.workers == map[];
      assert EnqueueAll(s.db, todo, now) == EnqueueAll(m.db, [], now);
    } else {
      assert m.workers.Keys == {w};
      var rest := EnqueueSteps(dag, m, w, now);
      ExecAppend(dag, s, [step], rest);
      steps := [step] + rest;
    }
  }

  /** Handling a job alone is one particular schedule of the interleaved system, which starts and
      ends with no worker active. */
  lemma PlayIsScheduled(dag: Dag, s: Sys, e: Event) returns (steps: seq<Step>)
    requires s.workers == map[] && Possible(s.db, e)
    ensures Exec(dag, s, steps).Some?
    ensures Exec(dag, s, steps).value.workers == map[]
    ensures Exec(dag, s, steps).value.db == Play(dag, s.db, e)
  {
    match e
    case CancelEvent =>
      steps := [] + [CancelStep];
      Extend(dag, s, [], CancelStep);
    case HandleEvent(id, name, ttl, outcome, now) =>
      var w := s.nextWorker;
      var found := outcome != AgentMissing;
      steps := [] + [ClaimStep(id, name, now, ttl)];
      Extend(dag, s, [], ClaimStep(id, name, now, ttl));
      Extend(dag, s, steps, FetchStep(w, found));
      steps := steps + [FetchStep(w, found)];
      var m := Exec(dag, s, steps).value;
      assert m.workers.Keys == {w} && m.workers[w].job == JobOf(s.db, id);
      var rest := FinishJob(dag, m, w, outcome, now);
      ExecAppend(dag, s, steps, rest);
      steps := steps + rest;
  }

  lemma FinishJob(dag: Dag, s: Sys, w: nat, outcome: Outcome, now: int) returns (steps: seq<Step>)
    requires s.workers.Keys == {w}
    requires s.workers[w].phase ==
      if s.db.status == Cancelled then Skipping
      else if Accepted(dag, s.workers[w].job.node, outcome) then Admitted
      else Rejecting
    ensures Exec(dag, s, steps).Some?
    ensures Exec(dag, s, steps).value.workers == map[]
    ensures Exec(dag, s, steps).value.db == Handle(dag, s.db, s.workers[w].job, outcome, now)
  {
    if s.workers[w].phase == Admitted {
      steps := FinishAdmitted(dag, s, w, outcome, now);
    } else {
      steps := FinishUnstarted(dag, s, w);
    }
  }

  lemma FinishUnstarted(dag: Dag, s: Sys, w: nat) returns (steps: seq<Step>)
    requires s.workers.Keys == {w} && (s.workers[w].phase == Skipping || s.workers[w].phase == Rejecting)
    ensures Exec(dag, s, steps).Some?
    ensures Exec(dag, s, steps).value.workers == map[]
    ensures Exec(dag, s, steps).value.db ==
      if s.workers[w].phase == Skipping then Discard(s.db, s.workers[w].job.id) else Fail(s.db, s.workers[w].job)
  {
    if s.workers[w].phase == Skipping {
      Extend(dag, s, [], DiscardStep(w));
      steps := [] + [DiscardStep(w)];
    } else {
      steps := TwoSteps(dag, s, RejectStep(w), ReportStep(w));
    }
  }

  lemma FinishAdmitted(dag: Dag, s: Sys, w: nat, outcome: Outcome, now: int) returns (steps: seq<Step>)
    requires s.workers.Keys == {w} && s.workers[w].phase == Admitted
    requires s.db.status != Cancelled && Accepted(dag, s.workers[w].job.node, outcome)
    ensures Exec(dag, s, steps).Some?
    ensures Exec(dag, s, steps).value.workers == map[]
    ensures Exec(dag, s, steps).value.db == Handle(dag, s.db, s.workers[w].job, outcome, now)
  {
    var first, m := BeginExecuting(dag, s, w);
    var rest := FinishExecuting(dag, m, w, outcome, now);
    ExecAppend(dag, s, first, rest);
    steps := first + rest;
  }

  lemma BeginExecuting(dag: Dag, s: Sys, w: nat) returns (steps: seq<Step>, m: Sys)
    requires s.workers.Keys == {w} && s.workers[w].phase == Admitted
    ensures Exec(dag, s, steps) == Some(m)
    ensures m.workers.Keys == {w} && m.workers[w] == Worker(s.workers[w].job, Executing)
    ensures var job := s.workers[w].job;
      m.db == StartRun(SetNode(s.db, job.node, job.iteration, Running))
  {
    steps := TwoSteps(dag, s, StartNodeStep(w), StartRunStep(w));
    m := Exec(dag, s, steps).value;
  }

  lemma TwoSteps(dag: Dag, s: Sys, a: Step, b: Step) returns (steps: seq<Step>)
    requires Enabled(dag, s, a) && Enabled(dag, Apply(dag, s, a), b)
    ensures Exec(dag, s, steps) == Some(Apply(dag, Apply(dag, s, a), b))
  {
    Extend(dag, s, [], a);
    Extend(dag, s, [] + [a], b);
    steps := [] + [a] + [b];
  }

  lemma FinishExecuting(dag: Dag, s: Sys, w: nat, outcome: Outcome, now: int) returns (steps: seq<Step>)
    requires s.workers.Keys == {w} && s.workers[w].phase == Executing
    requires Declared(dag, s.workers[w].job.node) && (outcome == Failure || outcome.Success?)
    ensures Exec(dag, s, steps).Some?
    ensures Exec(dag, s, steps).value.workers == map[]
    ensures var job := s.workers[w].job;
      Exec(dag, s, steps).value.db ==
        if outcome == Failure then Fail(s.db, job)
        else Advance(dag, Finalize(s.db, job, Succeeded), job, outcome.outputs, now)
  {
    if outcome == Failure {
      steps := TwoSteps(dag, s, FailStep(w), ReportStep(w));
    } else {
      Extend(dag, s, [], SucceedStep(w, outcome.outputs));
      var first := [] + [SucceedStep(w, outcome.outputs)];
      var m := Exec(dag, s, first).value;
      var rest := AdvanceSteps(dag, m, w, now);
      ExecAppend(dag, s, first, rest);
      steps := first + rest;
    }
  }

  lemma AdvanceSteps(dag: Dag, s: Sys, w: nat, now: int) returns (steps: seq<Step>)
    requires s.workers.Keys == {w} && s.workers[w].phase.Finished? && Declared(dag, s.workers[w].job.node)
    ensures Exec(dag, s, steps).Some?
    ensures Exec(dag, s, steps).value.workers == map[]
    ensures Exec(dag, s, steps).value.db == Advance(dag, s.db, s.workers[w].job, s.workers[w].phase.outputs, now)
  {
    Extend(dag, s, [], AdvanceStep(w, now));
    steps := [] + [AdvanceStep(w, now)];
    var m := Exec(dag, s, steps).value;
    if w in m.workers {
      if m.workers[w].phase == Closing {
        Extend(dag, s, steps, CloseStep(w));
        steps := steps + [CloseStep(w)];
      } else {
        var rest := EnqueueSteps(dag, m, w, now);
        ExecAppend(dag, s, steps, rest);
        steps := steps + rest;
      }
    }
  }

  // ---- what a serial state looks like -------------------------------------------

  /** The graphs the results below speak about: acyclic, without parallel edges or enabled loops,
      and with every edge and the entry on declared nodes. */
  ghost predicate WellFormed(dag: Dag) {
    && Acyclic(dag.edges)
    && SimpleEdges(dag.edges)
    && Declared(dag, dag.entry)
    && (forall i | 0 <= i < |dag.edges| :: Declared(dag, dag.edges[i].src) && Declared(dag, dag.edges[i].dst))
    && (forall n | Declared(dag, n) :: !LoopEnabled(FindNode(dag.nodes, n).value.loop))
  }

  predicate HasStatus(db: Db, n: NodeId, status: Status) {
    (n, 0) in db.runNodes && db.runNodes[(n, 0)] == status
  }

  ghost predicate Queued(db: Db, n: NodeId) {
    exists id :: id in db.queue && db.queue[id].node == n
  }

  /** n was legitimately started. */
  ghost predicate Started(dag: Dag, db: Db, n: NodeId) {
    && Declared(dag, n)
    && (n == dag.entry || (Connected(dag.edges, dag.entry, n) &&
          forall p | HasEdge(dag.edges, p, n) :: HasStatus(db, p, Succeeded)))
  }

  /** One row per pending node, and every started node stands in the order of the graph. */
  ghost predicate Tidy(dag: Dag, db: Db) {
    && (forall id | id in db.queue ::
          id < db.nextId && db.queue[id].iteration == 0 && HasStatus(db, db.queue[id].node, Pending))
    && (forall id, id' | id in db.queue && id' in db.queue && id != id' :: db.queue[id].node != db.queue[id'].node)
    && (forall key | key in db.runNodes :: key.1 == 0 && Started(dag, db, key.0))
    && (forall key | key in db.runNodes ::
          db.runNodes[key] == Succeeded || db.runNodes[key] == Failed || db.runNodes[key] == Pending)
  }

  /** What each value of workflow_runs.status says about the rows. */
  ghost predicate Faithful(db: Db) {
    && (db.status != Cancelled ==> forall n | HasStatus(db, n, Pending) :: Queued(db, n))
    && (db.status == Failed <==> exists n :: HasStatus(db, n, Failed))
    && (db.status == Succeeded ==>
        db.queue == map[] && forall key | key in db.runNodes :: db.runNodes[key] == Succeeded)
  }

  /** db' is db with the nodes of `added` newly pending and queued. */
  ghost predicate Grew(db: Db, db': Db, added: set<NodeId>) {
    && db'.status == db.status
    && (forall n | Queued(db, n) || n in added :: Queued(db', n))
    && (forall n :: HasStatus(db', n, Pending) <==> HasStatus(db, n, Pending) || n in added)
    && (forall n :: HasStatus(db', n, Succeeded) <==> HasStatus(db, n, Succeeded))
    && (forall n :: HasStatus(db', n, Failed) <==> HasStatus(db, n, Failed))
    && (forall key :: key in db'.runNodes <==> key in db.runNodes || (key.0 in added && key.1 == 0))
  }

  lemma EnqueueGrows(db: Db, n: NodeId, now: int)
    requires (n, 0) !in db.runNodes && forall id | id in db.queue :: id < db.nextId
    ensures Grew(db, Enqueue(db, n, 0, now), {n})
  {
    var m := Enqueue(db, n, 0, now);
    assert m.queue[db.nextId].node == n;
    forall x | Queued(db, x) ensures Queued(m, x) {
      var id :| id in db.queue && db.queue[id].node == x;
      assert m.queue[id].node == x;
    }
  }

  lemma StartedGrows(dag: Dag, db: Db, db': Db, added: set<NodeId>)
    requires Grew(db, db', added)
    ensures forall x :: Started(dag, db, x) ==> Started(dag, db', x)
  {}

  lemma EnqueueTidy(dag: Dag, db: Db, n: NodeId, now: int)
    requires Tidy(dag, db) && (n, 0) !in db.runNodes && Started(dag, db, n)
    ensures Tidy(dag, Enqueue(db, n, 0, now)) && Grew(db, Enqueue(db, n, 0, now), {n})
  {
    var m := Enqueue(db, n, 0, now);
    EnqueueGrows(db, n, now);
    StartedGrows(dag, db, m, {n});
  }

  /** Distinct nodes, none started yet, all allowed to start. */
  ghost predicate Startable(dag: Dag, db: Db, nodes: seq<NodeId>) {
    NoDuplicates(nodes) &&
    forall i | 0 <= i < |nodes| :: (nodes[i], 0) !in db.runNodes && Started(dag, db, nodes[i])
  }

  lemma RestStartable(dag: Dag, db: Db, m: Db, nodes: seq<NodeId>)
    requires nodes != [] && Startable(dag, db, nodes) && Grew(db, m, {nodes[0]})
    ensures Startable(dag, m, nodes[1..])
  {
    var rest := nodes[1..];
    assert forall i | 0 <= i < |rest| :: rest[i] == nodes[i + 1];
    StartedGrows(dag, db, m, {nodes[0]});
  }

  lemma FirstEnqueued(dag: Dag, db: Db, nodes: seq<NodeId>, now: int)
    requires nodes != [] && Tidy(dag, db) && Startable(dag, db, nodes)
    ensures var m := Enqueue(db, nodes[0], 0, now);
            Tidy(dag, m) && Grew(db, m, {nodes[0]}) && Startable(dag, m, nodes[1..])
  {
    EnqueueTidy(dag, db, nodes[0], now);
    RestStartable(dag, db, Enqueue(db, nodes[0], 0, now), nodes);
  }

  lemma GrewByAll(a: Db, b: Db, c: Db, nodes: seq<NodeId>)
    requires nodes != [] && Grew(a, b, {nodes[0]}) && Grew(b, c, set n | n in nodes[1..])
    ensures Grew(a, c, set n | n in nodes)
  {
    assert (set n | n in nodes) == {nodes[0]} + (set n | n in nodes[1..]) by {
      assert nodes == [nodes[0]] + nodes[1..];
    }
    GrewTwice(a, b, c, {nodes[0]}, set n | n in nodes[1..]);
  }

  lemma {:induction false} EnqueueAllTidy(dag: Dag, db: Db, nodes: seq<NodeId>, now: int)
    requires Tidy(dag, db) && Startable(dag, db, nodes)
    ensures Tidy(dag, EnqueueAll(db, nodes, now))
    ensures Grew(db, EnqueueAll(db, nodes, now), set n | n in nodes)
    decreases |nodes|
  {
    if nodes != [] {
      var m := Enqueue(db, nodes[0], 0, now);
      FirstEnqueued(dag, db, nodes, now);
      EnqueueAllTidy(dag, m, nodes[1..], now);
      GrewByAll(db, m, EnqueueAll(m, nodes[1..], now), nodes);
    }
  }

  lemma GrewTwice(a: Db, b: Db, c: Db, x: set<NodeId>, y: set<NodeId>)
    requires Grew(a, b, x) && Grew(b, c, y)
    ensures Grew(a, c, x + y)
  {}

  /** A successor that becomes ready has never been started. */
  lemma ReadyIsFresh(dag: Dag, db: Db, n: NodeId, s: NodeId)
    requires WellFormed(dag) && Tidy(dag, db) && HasStatus(db, n, Pending)
    requires HasEdge(dag.edges, n, s)
    ensures (s, 0) !in db.runNodes
  {
    if (s, 0) in db.runNodes {
      EdgeConnects(dag.edges, n, s);
      assert Started(dag, db, n) && Started(dag, db, s);
      if s == dag.entry && n != s {
        ConnectedTransitive(dag.edges, s, n, s);
      }
      assert false;
    }
  }

  /** The job of row `id` settled with `status`, nothing scheduled yet. */
  function Settle(db: Db, id: nat, status: Status): Db
    requires id in db.queue
  {
    Db(db.runNodes[(db.queue[id].node, 0) := status], db.queue - {id}, db.nextId,
       if db.status == Pending then Running else db.status)
  }

  lemma SettleIsFinalize(dag: Dag, db: Db, id: nat, status: Status)
    requires Tidy(dag, db) && id in db.queue
    ensures var job := JobOf(db, id);
      Finalize(StartRun(SetNode(db, job.node, job.iteration, Running)), job, status) == Settle(db, id, status)
  {
    assert HasStatus(db, db.queue[id].node, Pending);
    assert db.runNodes[(db.queue[id].node, 0) := Running][(db.queue[id].node, 0) := status] ==
           db.runNodes[(db.queue[id].node, 0) := status];
  }

  lemma SettleTidy(dag: Dag, db: Db, id: nat, status: Status)
    requires Tidy(dag, db) && Faithful(db) && id in db.queue && db.status != Cancelled
    requires status == Succeeded || status == Failed
    ensures Tidy(dag, Settle(db, id, status))
    ensures forall n | HasStatus(Settle(db, id, status), n, Pending) :: Queued(Settle(db, id, status), n)
    ensures forall n, st | n != db.queue[id].node :: HasStatus(Settle(db, id, status), n, st) <==> HasStatus(db, n, st)
    ensures HasStatus(Settle(db, id, status), db.queue[id].node, status)
  {
    var f := Settle(db, id, status);
    var n := db.queue[id].node;
    assert HasStatus(db, n, Pending);
    forall x ensures Started(dag, db, x) ==> Started(dag, f, x) {}
    forall x | HasStatus(f, x, Pending) ensures Queued(f, x) {
      assert x != n && HasStatus(db, x, Pending) && Queued(db, x);
      var other :| other in db.queue && db.queue[other].node == x;
      assert other in f.queue && f.queue[other].node == x;
    }
  }

  lemma ReadyStartable(dag: Dag, db: Db, id: nat, outputs: seq<Entry>)
    requires WellFormed(dag) && Tidy(dag, db) && Faithful(db) && id in db.queue && db.status != Cancelled
    ensures var f := Settle(db, id, Succeeded);
      Startable(dag, f, ReadySuccessors(dag, db.queue[id].node, NodeState(f), outputs))
  {
    var n := db.queue[id].node;
    var f := Settle(db, id, Succeeded);
    var ready := ReadySuccessors(dag, n, NodeState(f), outputs);
    assert HasStatus(db, n, Pending);
    ReadyDistinct(dag, n, NodeState(f), outputs);
    forall i | 0 <= i < |ready| ensures (ready[i], 0) !in f.runNodes && Started(dag, f, ready[i]) {
      ReadyIsSuccessor(dag, n, NodeState(f), outputs, ready[i]);
      ReadyIsFresh(dag, db, n, ready[i]);
      EdgeConnects(dag.edges, n, ready[i]);
      if n != dag.entry {
        ConnectedTransitive(dag.edges, dag.entry, n, ready[i]);
      }
    }
  }

  /** A failed job leaves a failed run. */
  lemma FailureStep(dag: Dag, db: Db, id: nat)
    requires Tidy(dag, db) && Faithful(db) && id in db.queue && db.status != Cancelled
    ensures var db' := MarkFinished(Settle(db, id, Failed), Failed);
      Tidy(dag, db') && Faithful(db')
  {
    SettleTidy(dag, db, id, Failed);
    var f := Settle(db, id, Failed);
    var db' := MarkFinished(f, Failed);
    assert forall n, st :: HasStatus(db', n, st) <==> HasStatus(f, n, st);
    assert forall n :: Queued(db', n) <==> Queued(f, n);
    assert forall n :: Started(dag, db', n) <==> Started(dag, f, n);
    assert HasStatus(db', db.queue[id].node, Failed);
  }

  /** A job rejected before it started settles the same way, up to the run status. */
  lemma RejectIsFailure(dag: Dag, db: Db, id: nat)
    requires Tidy(dag, db) && id in db.queue
    ensures Fail(db, JobOf(db, id)) == MarkFinished(Settle(db, id, Failed), Failed)
  {
    assert HasStatus(db, db.queue[id].node, Pending);
  }

  lemma NeverLoops(dag: Dag, db: Db, id: nat, outputs: seq<Entry>)
    requires WellFormed(dag) && id in db.queue && Declared(dag, db.queue[id].node)
    ensures !ShouldLoop(FindNode(dag.nodes, db.queue[id].node).value, outputs, db.queue[id].iteration)
  {}

  lemma SuccessStep(dag: Dag, db: Db, id: nat, outputs: seq<Entry>, now: int)
    requires WellFormed(dag) && Tidy(dag, db) && Faithful(db) && id in db.queue && db.status != Cancelled
    requires Declared(dag, db.queue[id].node)
    ensures var db' := Advance(dag, Settle(db, id, Succeeded), JobOf(db, id), outputs, now);
      Tidy(dag, db') && Faithful(db')
  {
    var f := Settle(db, id, Succeeded);
    var n := db.queue[id].node;
    SettleTidy(dag, db, id, Succeeded);
    NeverLoops(dag, db, id, outputs);
    assert f.status == Failed <==> exists m :: HasStatus(f, m, Failed);
    var ready := ReadySuccessors(dag, n, NodeState(f), outputs);
    if ready != [] {
      ReadyStartable(dag, db, id, outputs);
      EnqueueAllTidy(dag, f, ready, now);
      GrownFaithful(f, EnqueueAll(f, ready, now), set m | m in ready);
    } else if IsTerminal(dag, n) && AllDone(dag, NodeState(f)) {
      ClosedFaithful(dag, f);
    }
  }

  lemma GrownFaithful(f: Db, g: Db, added: set<NodeId>)
    requires Grew(f, g, added) && f.status != Succeeded
    requires forall n | HasStatus(f, n, Pending) :: Queued(f, n)
    requires f.status == Failed <==> exists m :: HasStatus(f, m, Failed)
    ensures Faithful(g)
  {
    if m :| HasStatus(f, m, Failed) { assert HasStatus(g, m, Failed); }
    if m :| HasStatus(g, m, Failed) { assert HasStatus(f, m, Failed); }
  }

  lemma {:induction false} DeclaredIsListed(nodes: seq<Node>, n: NodeId)
    ensures FindNode(nodes, n).Some? <==> exists i | 0 <= i < |nodes| :: nodes[i].id == n
  {
    if nodes != [] {
      DeclaredIsListed(nodes[1..], n);
      if i :| 0 <= i < |nodes[1..]| && nodes[1..][i].id == n {
        assert nodes[i + 1].id == n;
      }
      if i :| 0 <= i < |nodes| && nodes[i].id == n {
        assert i > 0 ==> nodes[1..][i - 1].id == n;
      }
    }
  }

  /** When every declared node with a row has succeeded, nothing is left in the queue. */
  lemma ClosedFaithful(dag: Dag, f: Db)
    requires Tidy(dag, f) && AllDone(dag, NodeState(f))
    ensures Tidy(dag, MarkFinished(f, Succeeded)) && Faithful(MarkFinished(f, Succeeded))
  {
    forall key | key in f.runNodes ensures f.runNodes[key] == Succeeded {
      assert Started(dag, f, key.0);
      DeclaredIsListed(dag.nodes, key.0);
      var i :| 0 <= i < |dag.nodes| && dag.nodes[i].id == key.0;
      assert key == (key.0, 0) && key.0 in NodeState(f);
    }
    assert forall id :: id !in f.queue;
    var g := MarkFinished(f, Succeeded);
    assert g.queue == map[];
    assert forall n, st :: HasStatus(g, n, st) <==> HasStatus(f, n, st);
    assert forall n :: Started(dag, g, n) <==> Started(dag, f, n);
  }

  lemma DiscardKeeps(dag: Dag, db: Db, id: nat)
    requires Tidy(dag, db) && Faithful(db) && id in db.queue && db.status == Cancelled
    ensures Tidy(dag, Discard(db, id)) && Faithful(Discard(db, id))
  {
    var d := Discard(db, id);
    assert forall n, st :: HasStatus(d, n, st) <==> HasStatus(db, n, st);
    assert forall n :: Started(dag, d, n) <==> Started(dag, db, n);
  }

  lemma CancelKeeps(dag: Dag, db: Db)
    requires Tidy(dag, db) && Faithful(db)
    ensures Tidy(dag, Cancel(db)) && Faithful(Cancel(db))
  {
    var c := Cancel(db);
    assert forall n, st :: HasStatus(c, n, st) <==> HasStatus(db, n, st);
    assert forall n :: Started(dag, c, n) <==> Started(dag, db, n);
    assert forall n :: Queued(c, n) <==> Queued(db, n);
  }

  /** A job handled in a live run either settles as succeeded and advances, or fails the run. */
  lemma PlayShape(dag: Dag, db: Db, e: Event)
    requires WellFormed(dag) && Tidy(dag, db) && Possible(db, e) && e.HandleEvent? && db.status != Cancelled
    ensures Play(dag, db, e) ==
      if Accepted(dag, db.queue[e.id].node, e.outcome) && e.outcome.Success?
      then Advance(dag, Settle(db, e.id, Succeeded), JobOf(db, e.id), e.outcome.outputs, e.now)
      else MarkFinished(Settle(db, e.id, Failed), Failed)
  {
    ClaimVanishes(dag, db, e.id, e.name, e.ttl, e.outcome, e.now);
    RejectIsFailure(dag, db, e.id);
    SettleIsFinalize(dag, db, e.id, Failed);
    SettleIsFinalize(dag, db, e.id, Succeeded);
  }

  lemma PlayKeeps(dag: Dag, db: Db, e: Event)
    requires WellFormed(dag) && Tidy(dag, db) && Faithful(db) && Possible(db, e)
    ensures Tidy(dag, Play(dag, db, e)) && Faithful(Play(dag, db, e))
  {
    if e.CancelEvent? {
      CancelKeeps(dag, db);
    } else if db.status == Cancelled {
      ClaimVanishes(dag, db, e.id, e.name, e.ttl, e.outcome, e.now);
      DiscardKeeps(dag, db, e.id);
    } else {
      PlayShape(dag, db, e);
      FailureStep(dag, db, e.id);
      if Accepted(dag, db.queue[e.id].node, e.outcome) && e.outcome.Success? {
        SuccessStep(dag, db, e.id, e.outcome.outputs, e.now);
      }
    }
  }

  lemma {:induction false} SerialKeeps(dag: Dag, now: int, events: seq<Event>, dbs: seq<Db>, k: nat)
    requires WellFormed(dag) && Serial(dag, now, events, dbs) && k <= |events|
    ensures Tidy(dag, dbs[k]) && Faithful(dbs[k])
  {
    if k == 0 {
      assert dbs[0].queue[0].node == dag.entry;
      assert Queued(dbs[0], dag.entry);
    } else {
      SerialKeeps(dag, now, events, dbs, k - 1);
      PlayKeeps(dag, dbs[k - 1], events[k - 1]);
    }
  }

  // ---- terminal outcomes -----------------------------------------------------------

  /** A run marked succeeded has no work left, and nothing it started did otherwise than succeed. */
  lemma SucceededMeansDone(dag: Dag, now: int, events: seq<Event>, dbs: seq<Db>, k: nat)
    requires WellFormed(dag) && Serial(dag, now, events, dbs) && k <= |events|
    requires dbs[k].status == Succeeded
    ensures dbs[k].queue == map[]
    ensures forall key | key in dbs[k].runNodes :: dbs[k].runNodes[key] == Succeeded
  {
    SerialKeeps(dag, now, events, dbs, k);
  }

  lemma {:induction false} EnqueueAllStatus(db: Db, nodes: seq<NodeId>, now: int)
    ensures EnqueueAll(db, nodes, now).status == db.status
    decreases |nodes|
  {
    if nodes != [] {
      EnqueueAllStatus(Enqueue(db, nodes[0], 0, now), nodes[1..], now);
    }
  }

  lemma FailedNodeBlocks(dag: Dag, f: Db, n: NodeId)
    requires Declared(dag, n) && HasStatus(f, n, Failed)
    ensures !AllDone(dag, NodeState(f))
  {
    DeclaredIsListed(dag.nodes, n);
    var i :| 0 <= i < |dag.nodes| && dag.nodes[i].id == n;
    assert n in NodeState(f);
  }

  lemma FailedStays(dag: Dag, db: Db, e: Event)
    requires WellFormed(dag) && Tidy(dag, db) && Faithful(db) && Possible(db, e)
    requires db.status == Failed
    ensures Play(dag, db, e).status == Failed
  {
    if e.HandleEvent? {
      PlayShape(dag, db, e);
      var m := db.queue[e.id].node;
      if Accepted(dag, m, e.outcome) && e.outcome.Success? {
        var n :| HasStatus(db, n, Failed);
        var f := Settle(db, e.id, Succeeded);
        assert HasStatus(db, m, Pending) && HasStatus(f, n, Failed);
        assert Started(dag, db, n);
        FailedNodeBlocks(dag, f, n);
        NeverLoops(dag, db, e.id, e.outcome.outputs);
        EnqueueAllStatus(f, ReadySuccessors(dag, m, NodeState(f), e.outcome.outputs), e.now);
      }
    }
  }

  /** The terminal outcomes exclude each other over the whole history: after a node has failed the
      run is and stays failed, and after it was marked succeeded nothing changes any more. */
  lemma {:induction false} OutcomesExclude(dag: Dag, now: int, events: seq<Event>, dbs: seq<Db>, i: nat, j: nat)
    requires WellFormed(dag) && Serial(dag, now, events, dbs) && i <= j <= |events|
    ensures (exists n :: HasStatus(dbs[i], n, Failed)) ==> dbs[j].status == Failed
    ensures dbs[i].status == Succeeded ==> dbs[j] == dbs[i]
  {
    SerialKeeps(dag, now, events, dbs, i);
    if i < j {
      OutcomesExclude(dag, now, events, dbs, i, j - 1);
      SerialKeeps(dag, now, events, dbs, j - 1);
      if dbs[j - 1].status == Failed {
        FailedStays(dag, dbs[j - 1], events[j - 1]);
      }
    }
  }

  /** The job that empties the queue of a healthy run closes the run exactly when its node has no
      outgoing edge; a node whose edges all fail to fire leaves the run open for ever. */
  lemma DrainedRunClosesIff(dag: Dag, now: int, events: seq<Event>, dbs: seq<Db>, k: nat)
    requires WellFormed(dag) && Serial(dag, now, events, dbs) && k < |events|
    requires events[k].HandleEvent? && dbs[k].status != Cancelled
    requires dbs[k + 1].queue == map[] && dbs[k + 1].status != Failed
    ensures dbs[k + 1].status == Succeeded <==> IsTerminal(dag, dbs[k].queue[events[k].id].node)
  {
    var db, e := dbs[k], events[k];
    SerialKeeps(dag, now, events, dbs, k);
    PlayShape(dag, db, e);
    var f := Settle(db, e.id, Succeeded);
    var n := db.queue[e.id].node;
    NeverLoops(dag, db, e.id, e.outcome.outputs);
    var ready := ReadySuccessors(dag, n, NodeState(f), e.outcome.outputs);
    EnqueueAllLeavesRow(f, ready, e.now);
    SettledQueueEmpty(dag, db, e.id);
    EnqueueAllStatus(f, ready, e.now);
  }

  lemma {:induction false} EnqueueAllLeavesRow(db: Db, nodes: seq<NodeId>, now: int)
    ensures db.queue.Keys <= EnqueueAll(db, nodes, now).queue.Keys
    ensures nodes != [] ==> EnqueueAll(db, nodes, now).queue != map[]
    decreases |nodes|
  {
    if nodes != [] {
      var m := Enqueue(db, nodes[0], 0, now);
      assert db.nextId in m.queue;
      EnqueueAllLeavesRow(m, nodes[1..], now);
      assert db.nextId in EnqueueAll(m, nodes[1..], now).queue;
    }
  }

  /** When the last row of a run without failure settles as succeeded, every node has succeeded. */
  lemma SettledQueueEmpty(dag: Dag, db: Db, id: nat)
    requires Tidy(dag, db) && Faithful(db) && id in db.queue
    ensures var f := Settle(db, id, Succeeded);
      f.queue == map[] && db.status != Cancelled && db.status != Failed ==> AllDone(dag, NodeState(f))
  {
    var f := Settle(db, id, Succeeded);
    if f.queue == map[] && db.status != Cancelled && db.status != Failed {
      SettleTidy(dag, db, id, Succeeded);
      forall m | m in NodeState(f) ensures NodeState(f)[m] == Succeeded {
        assert (m, 0) in f.runNodes;
        assert HasStatus(f, m, Failed) ==> HasStatus(db, m, Failed);
        assert HasStatus(f, m, Pending) ==> Queued(f, m);
      }
    }
  }
}
