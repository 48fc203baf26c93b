/** Concrete runs showing that the hypotheses of the other modules are needed: what the engine really
    does when a lease runs out under a live worker, when a run is cancelled under one, when a node
    loops beside a finished branch, and when two edges are parallel
    (services/workflow-worker/app/main.py). */
module Hazards {
  import opened Json
  import opened Dag
  import opened RunStore
  import opened Interleaving
  import opened SerialRuns
  import opened Overwriting
  import opened Reviving

  const SINGLE := Dag("a", [Node("a", NoLoop)], [])

  /** The default lease of services/workflow-worker/app/config.py, shorter than a job may run. */
  const LEASE := 120

  const JOB_TIMEOUT := 300

  ghost predicate Leads(dag: Dag, s: Sys, steps: seq<Step>, t: Sys) { Exec(dag, s, steps) == Some(t) }

  lemma Then(dag: Dag, s: Sys, steps: seq<Step>, t: Sys, step: Step) returns (steps': seq<Step>, t': Sys)
    requires Leads(dag, s, steps, t) && Enabled(dag, t, step)
    ensures steps' == steps + [step] && t' == Apply(dag, t, step) && Leads(dag, s, steps', t')
  {
    Extend(dag, s, steps, step);
    steps', t' := steps + [step], Apply(dag, t, step);
  }

  /** The first worker claims the row and reads the run. */
  lemma AdmitSingle() returns (steps: seq<Step>, s: Sys)
    ensures Leads(SINGLE, Start(SINGLE, 0), steps, s)
    ensures s == Sys(Db(map[("a", 0) := Pending], map[0 := Row("a", 0, 0, Some(Claim("one", LEASE)), 1)], 1, Pending),
                     map[0 := Worker(Job(0, "a", 0), Admitted)], 1, [])
  {
    steps, s := [], Start(SINGLE, 0);
    steps, s := Then(SINGLE, Start(SINGLE, 0), steps, s, ClaimStep(0, "one", 0, LEASE));
    assert s.workers == map[0 := Worker(Job(0, "a", 0), Claimed)];
    assert s.db.queue == map[0 := Row("a", 0, 0, Some(Claim("one", LEASE)), 1)];
    steps, s := Then(SINGLE, Start(SINGLE, 0), steps, s, FetchStep(0, true));
    assert s.workers == map[0 := Worker(Job(0, "a", 0), Admitted)];
  }

  /** The first worker's steps up to the running agent. */
  lemma StartSingle() returns (steps: seq<Step>, s: Sys)
    ensures Leads(SINGLE, Start(SINGLE, 0), steps, s)
    ensures s == Sys(Db(map[("a", 0) := Running], map[0 := Row("a", 0, 0, Some(Claim("one", LEASE)), 1)], 1, Running),
                     map[0 := Worker(Job(0, "a", 0), Executing)], 1, [])
  {
    steps, s := AdmitSingle();
    steps, s := Then(SINGLE, Start(SINGLE, 0), steps, s, StartNodeStep(0));
    steps, s := Then(SINGLE, Start(SINGLE, 0), steps, s, StartRunStep(0));
    assert s.workers == map[0 := Worker(Job(0, "a", 0), Executing)];
  }

  /** The row is swept and claimed again while the first worker is still executing. */
  lemma ReclaimSingle() returns (steps: seq<Step>, s: Sys)
    ensures Leads(SINGLE, Start(SINGLE, 0), steps, s)
    ensures s.workers == map[0 := Worker(Job(0, "a", 0), Executing), 1 := Worker(Job(0, "a", 0), Claimed)]
    ensures s.db.runNodes == map[("a", 0) := Running] && s.db.status == Running && s.log == []
    ensures s.db.queue.Keys == {0}
  {
    steps, s := StartSingle();
    steps, s := Then(SINGLE, Start(SINGLE, 0), steps, s, Step.SweepStep(LEASE + 1));
    assert s.db.queue == map[0 := Row("a", 0, 0, None, 1)];
    steps, s := Then(SINGLE, Start(SINGLE, 0), steps, s, ClaimStep(0, "two", LEASE + 1, LEASE));
  }

  /** The second worker starts executing as well, and then the first one fails. */
  lemma OverlapSingle() returns (steps: seq<Step>, s: Sys)
    ensures Leads(SINGLE, Start(SINGLE, 0), steps, s)
    ensures s.workers == map[1 := Worker(Job(0, "a", 0), Executing)]
    ensures s.db.runNodes.Keys == {("a", 0)} && s.db.status == Failed && s.log == [Final(Job(0, "a", 0), Failed)]
    ensures s.db.queue == map[]
  {
    steps, s := ReclaimSingle();
    steps, s := Then(SINGLE, Start(SINGLE, 0), steps, s, FetchStep(1, true));
    steps, s := Then(SINGLE, Start(SINGLE, 0), steps, s, StartNodeStep(1));
    steps, s := Then(SINGLE, Start(SINGLE, 0), steps, s, StartRunStep(1));
    assert s.workers == map[0 := Worker(Job(0, "a", 0), Executing), 1 := Worker(Job(0, "a", 0), Executing)];
    steps, s := FailFirst(steps, s);
  }

  lemma FailFirst(steps: seq<Step>, s: Sys) returns (steps': seq<Step>, s': Sys)
    requires Leads(SINGLE, Start(SINGLE, 0), steps, s)
    requires s.workers == map[0 := Worker(Job(0, "a", 0), Executing), 1 := Worker(Job(0, "a", 0), Executing)]
    requires s.db.runNodes.Keys == {("a", 0)} && s.db.queue.Keys == {0} && s.log == []
    ensures Leads(SINGLE, Start(SINGLE, 0), steps', s') && s'.db.queue == map[]
    ensures s'.workers == map[1 := Worker(Job(0, "a", 0), Executing)]
    ensures s'.db.runNodes.Keys == {("a", 0)} && s'.db.status == Failed && s'.log == [Final(Job(0, "a", 0), Failed)]
  {
    steps', s' := Then(SINGLE, Start(SINGLE, 0), steps, s, FailStep(0));
    steps', s' := Then(SINGLE, Start(SINGLE, 0), steps', s', ReportStep(0));
  }

  /** The sweeper reclaims the row of a job that is still within its timeout; the node is finalised
      twice, and a run already marked failed ends up succeeded. As Reviving.NeverRevived has it, what can run
      again when it is marked failed includes every node not done: the second worker is still executing. */
  lemma ReclaimOverturnsFailure() returns (steps: seq<Step>, s: Sys, more: seq<Step>, t: Sys)
    ensures LEASE < JOB_TIMEOUT
    ensures Leads(SINGLE, Start(SINGLE, 0), steps, s) && Leads(SINGLE, s, more, t)
    ensures s.db.status == Failed && t.db.status == Succeeded
    ensures t.log == [Final(Job(0, "a", 0), Failed), Final(Job(0, "a", 0), Succeeded)]
    ensures s.db.queue == map[] && CanRevive(SINGLE, s)
  {
    steps, s := OverlapSingle();
    more, t := FinishSingle(s, 1);
    SingleIsWellFormed();
    if !CanRevive(SINGLE, s) { NeverRevived(SINGLE, 0, steps, s, t); }
  }

  lemma SingleIsWellFormed()
    ensures WellFormed(SINGLE)
  {
    forall n ensures !Connected(SINGLE.edges, n, n) {
      if p :| IsPath(SINGLE.edges, p) && p[0] == n && p[|p| - 1] == n {
        assert !HasEdge(SINGLE.edges, p[0], p[0 + 1]);
      }
    }
  }

  /** With its only node succeeded, the single-node run is complete. */
  lemma SingleCompletes(state: map<NodeId, Status>)
    requires state == map["a" := Succeeded]
    ensures ReadySuccessors(SINGLE, "a", state, []) == []
    ensures IsTerminal(SINGLE, "a") && AllDone(SINGLE, state)
    ensures FindNode(SINGLE.nodes, "a") == Some(Node("a", NoLoop))
  {}

  lemma SucceedSingle(s: Sys, w: nat) returns (steps: seq<Step>, t: Sys)
    requires s.workers == map[w := Worker(Job(0, "a", 0), Executing)]
    requires s.db.runNodes.Keys == {("a", 0)}
    ensures Leads(SINGLE, s, steps, t)
    ensures t.workers == map[w := Worker(Job(0, "a", 0), Finished([]))]
    ensures NodeState(t.db) == map["a" := Succeeded]
    ensures t.log == s.log + [Final(Job(0, "a", 0), Succeeded)]
  {
    steps, t := Then(SINGLE, s, [], s, SucceedStep(w, []));
    assert ("a", 0) in t.db.runNodes;
  }

  /** A worker executing the only node succeeds and closes the run, whatever its status was. */
  lemma FinishSingle(s: Sys, w: nat) returns (steps: seq<Step>, t: Sys)
    requires s.workers == map[w := Worker(Job(0, "a", 0), Executing)]
    requires s.db.runNodes.Keys == {("a", 0)}
    ensures Leads(SINGLE, s, steps, t)
    ensures t.db.status == Succeeded && t.log == s.log + [Final(Job(0, "a", 0), Succeeded)]
  {
    steps, t := SucceedSingle(s, w);
    SingleCompletes(NodeState(t.db));
    steps, t := Then(SINGLE, s, steps, t, AdvanceStep(w, 0));
    assert At(t, w, Closing);
    steps, t := Then(SINGLE, s, steps, t, CloseStep(w));
  }

  /** A cancellation that arrives while the agent runs is overwritten when the agent succeeds;
      Overwriting.CancelOverwrittenIff says when it can be. */
  lemma CancelIsOverwritten() returns (steps: seq<Step>, s: Sys, more: seq<Step>, t: Sys)
    ensures Leads(SINGLE, Start(SINGLE, 0), steps, s) && Leads(SINGLE, s, more, t)
    ensures s.db.status == Cancelled && t.db.status == Succeeded
  {
    steps, s := StartSingle();
    steps, s := Then(SINGLE, Start(SINGLE, 0), steps, s, CancelStep);
    more, t := FinishSingle(s, 0);
  }

  // ---- loops and parallel edges, one job at a time --------------------------------

  /** The entry leads to a looping node and to a plain one. */
  const LOOPING := Dag("e", [Node("e", NoLoop), Node("l", Flag(true)), Node("p", NoLoop)],
                       [Edge("e", "l", ""), Edge("e", "p", "")])

  const AGAIN := [Entry("_loop_continue", Bool(true))]

  /** The states of that run: the entry done, then the looping node's first iteration. */
  const FANNED := Db(map[("e", 0) := Succeeded, ("l", 0) := Pending, ("p", 0) := Pending],
                     map[1 := Row("l", 0, 0, None, 0), 2 := Row("p", 0, 0, None, 0)], 3, Running)

  const LOOPED := Db(map[("e", 0) := Succeeded, ("l", 0) := Succeeded, ("p", 0) := Pending, ("l", 1) := Pending],
                     map[2 := Row("p", 0, 0, None, 0), 3 := Row("l", 1, 0, None, 0)], 4, Running)

  lemma NamesDiffer()
    ensures "e" != "l" && "l" != "p" && "e" != "p"
  {
    assert "e"[0] != "l"[0] && "l"[0] != "p"[0] && "e"[0] != "p"[0];
  }

  /** A success that does not loop, seen as settle and advance. */
  lemma HandleIsAdvance(dag: Dag, db: Db, job: Job, outputs: seq<Entry>, f: Db)
    requires db.status == Running || db.status == Pending
    requires Declared(dag, job.node) && (job.node, job.iteration) in db.runNodes
    requires f.runNodes == db.runNodes[(job.node, job.iteration) := Succeeded]
    requires f.queue == db.queue - {job.id} && f.nextId == db.nextId && f.status == Running
    ensures Handle(dag, db, job, Success(outputs), 0) == Advance(dag, f, job, outputs, 0)
  {
    var started := StartRun(SetNode(db, job.node, job.iteration, Running));
    assert started.runNodes[(job.node, job.iteration) := Succeeded] == f.runNodes;
    assert Finalize(started, job, Succeeded) == f;
  }

  lemma EntryFansOut()
    ensures Handle(LOOPING, Submit("e", 0), Job(0, "e", 0), Success([]), 0) == FANNED
  {
    var f := Db(map[("e", 0) := Succeeded], map[], 1, Running);
    var state := NodeState(f);
    assert state.Keys == {"e"} by { assert ("e", 0) in f.runNodes; }
    EntryReady(state);
    HandleIsAdvance(LOOPING, Submit("e", 0), Job(0, "e", 0), [], f);
    EnqueueBoth(f);
  }

  lemma EnqueueBoth(f: Db)
    requires f == Db(map[("e", 0) := Succeeded], map[], 1, Running)
    ensures EnqueueAll(f, ["l", "p"], 0) == FANNED
  {
    NamesDiffer();
    var g := Enqueue(f, "l", 0, 0);
    assert EnqueueAll(f, ["l", "p"], 0) == EnqueueAll(g, ["p"], 0) by { assert ["l", "p"][1..] == ["p"]; }
    assert EnqueueAll(g, ["p"], 0) == Enqueue(g, "p", 0, 0) by { assert ["p"][1..] == []; }
    assert ("l", 0) !in f.runNodes && ("p", 0) !in g.runNodes;
    assert Enqueue(g, "p", 0, 0).runNodes == FANNED.runNodes;
    assert Enqueue(g, "p", 0, 0).queue == FANNED.queue;
  }

  lemma LoopGoesOn()
    ensures FindNode(LOOPING.nodes, "l") == Some(Node("l", Flag(true)))
    ensures ShouldLoop(Node("l", Flag(true)), AGAIN, 0)
  {
    NamesDiffer();
    assert LOOPING.nodes[1..][0] == Node("l", Flag(true));
    assert Truthy(Get(AGAIN, "_loop_continue"));
  }

  lemma LoopsOnce()
    ensures Handle(LOOPING, FANNED, Job(1, "l", 0), Success(AGAIN), 0) == LOOPED
  {
    LoopGoesOn();
    var f := Db(map[("e", 0) := Succeeded, ("l", 0) := Succeeded, ("p", 0) := Pending],
                map[2 := Row("p", 0, 0, None, 0)], 3, Running);
    NamesDiffer();
    HandleIsAdvance(LOOPING, FANNED, Job(1, "l", 0), AGAIN, f);
    assert Advance(LOOPING, f, Job(1, "l", 0), AGAIN, 0) == Enqueue(f, "l", 1, 0);
    EnqueueSecond(f);
  }

  lemma EnqueueSecond(f: Db)
    requires f == Db(map[("e", 0) := Succeeded, ("l", 0) := Succeeded, ("p", 0) := Pending],
                     map[2 := Row("p", 0, 0, None, 0)], 3, Running)
    ensures Enqueue(f, "l", 1, 0) == LOOPED
  {
    var g := Enqueue(f, "l", 1, 0);
    assert g.runNodes == LOOPED.runNodes && g.queue == LOOPED.queue;
  }

  /** The completion test looks at iteration 0 only: the plain branch closes the run as succeeded
      while the second iteration of the looping node is still queued, and that iteration may fail.
      LoopingRuns.ClosedQueueIff says when a closing job leaves a row. */
  lemma LoopClosesEarly() returns (closed: Db)
    ensures Handle(LOOPING, Submit("e", 0), Job(0, "e", 0), Success([]), 0) == FANNED
    ensures Handle(LOOPING, FANNED, Job(1, "l", 0), Success(AGAIN), 0) == LOOPED
    ensures closed == Handle(LOOPING, LOOPED, Job(2, "p", 0), Success([]), 0)
    ensures closed.status == Succeeded && 3 in closed.queue
    ensures Handle(LOOPING, closed, Job(3, "l", 1), Failure, 0).status == Failed
  {
    EntryFansOut();
    LoopsOnce();
    closed := PlainCloses();
    FailureFails(closed, Job(3, "l", 1));
  }

  lemma PlainCloses() returns (closed: Db)
    ensures closed == Handle(LOOPING, LOOPED, Job(2, "p", 0), Success([]), 0)
    ensures closed.status == Succeeded && 3 in closed.queue
  {
    var f := Db(map[("e", 0) := Succeeded, ("l", 0) := Succeeded, ("p", 0) := Succeeded, ("l", 1) := Pending],
                map[3 := Row("l", 1, 0, None, 0)], 4, Running);
    PlainSettles(f);
    PlainState(f);
    PlainCompletes(NodeState(f));
    closed := Advance(LOOPING, f, Job(2, "p", 0), [], 0);
  }

  lemma PlainSettles(f: Db)
    requires f == Db(map[("e", 0) := Succeeded, ("l", 0) := Succeeded, ("p", 0) := Succeeded, ("l", 1) := Pending],
                     map[3 := Row("l", 1, 0, None, 0)], 4, Running)
    ensures Handle(LOOPING, LOOPED, Job(2, "p", 0), Success([]), 0) == Advance(LOOPING, f, Job(2, "p", 0), [], 0)
  {
    NamesDiffer();
    PlainDeclared();
    HandleIsAdvance(LOOPING, LOOPED, Job(2, "p", 0), [], f);
  }

  lemma PlainState(f: Db)
    requires f.runNodes == map[("e", 0) := Succeeded, ("l", 0) := Succeeded, ("p", 0) := Succeeded, ("l", 1) := Pending]
    ensures NodeState(f) == map["e" := Succeeded, "l" := Succeeded, "p" := Succeeded]
  {
    NamesDiffer();
    var state := NodeState(f);
    assert ("e", 0) in f.runNodes && ("l", 0) in f.runNodes && ("p", 0) in f.runNodes;
    assert state.Keys == {"e", "l", "p"};
  }

  lemma PlainDeclared()
    ensures FindNode(LOOPING.nodes, "p") == Some(Node("p", NoLoop))
  {
    NamesDiffer();
    assert LOOPING.nodes[1..][1..] == [Node("p", NoLoop)];
  }

  lemma FailureFails(db: Db, job: Job)
    requires db.status != Cancelled
    ensures Handle(LOOPING, db, job, Failure, 0).status == Failed
  {}

  lemma EntryReady(state: map<NodeId, Status>)
    requires state == map["e" := Succeeded]
    ensures ReadySuccessors(LOOPING, "e", state, []) == ["l", "p"]
    ensures FindNode(LOOPING.nodes, "e") == Some(Node("e", NoLoop))
  {
    EntryTargets();
    EntryPredecessors();
    var edges := LOOPING.edges;
    assert ["l", "p"][1..] == ["p"];
    assert Unblocked(edges, ["p"], state) == ["p"];
  }

  lemma EntryTargets()
    ensures FiringTargets(LOOPING.edges, "e", []) == ["l", "p"]
  {
    var edges := LOOPING.edges;
    assert edges[1..] == [edges[1]] && edges[1..][1..] == [];
    assert FiringTargets(edges[1..], "e", []) == ["p"];
  }

  lemma EntryPredecessors()
    ensures Predecessors(LOOPING.edges, "l") == ["e"] && Predecessors(LOOPING.edges, "p") == ["e"]
  {
    var edges := LOOPING.edges;
    assert edges[1..] == [edges[1]] && edges[1..][1..] == [];
    assert Predecessors(edges[1..], "l") == [];
    assert Predecessors(edges[1..], "p") == ["e"];
  }

  lemma PlainCompletes(state: map<NodeId, Status>)
    requires state == map["e" := Succeeded, "l" := Succeeded, "p" := Succeeded]
    ensures ReadySuccessors(LOOPING, "p", state, []) == []
    ensures IsTerminal(LOOPING, "p") && AllDone(LOOPING, state)
    ensures FindNode(LOOPING.nodes, "p") == Some(Node("p", NoLoop))
  {
    var edges := LOOPING.edges;
    assert edges[1..] == [edges[1]] && edges[1..][1..] == [];
    assert edges[0].src == "e" && edges[1].src == "e";
    NamesDiffer();
    assert !Fires(edges[1], "p", []) && FiringTargets([], "p", []) == [];
    assert Successors(edges[1..], "p") == [];
    assert FiringTargets(edges[1..], "p", []) == [];
    PlainDeclared();
  }

  /** Two parallel edges, which the submission check does not forbid. */
  const PARALLEL := Dag("e", [Node("e", NoLoop), Node("t", NoLoop)], [Edge("e", "t", ""), Edge("e", "t", "")])

  /** Parallel edges enqueue their target once each; Dag.ReadyDistinctIff says when a target is ready twice. */
  lemma ParallelEdgesEnqueueTwice()
    ensures ReadySuccessors(PARALLEL, "e", map["e" := Succeeded], []) == ["t", "t"]
  {
    var edges := PARALLEL.edges;
    var state := map["e" := Succeeded];
    assert edges[1..] == [edges[1]] && edges[1..][1..] == [];
    assert FiringTargets(edges[1..], "e", []) == ["t"];
    assert FiringTargets(edges, "e", []) == ["t", "t"];
    assert Predecessors(edges[1..], "t") == ["e"] && Predecessors(edges, "t") == ["e", "e"];
    assert ["t", "t"][1..] == ["t"];
    assert Unblocked(edges, ["t"], state) == ["t"];
  }
}
