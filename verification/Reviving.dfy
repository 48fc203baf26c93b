/** When a run can still come to be marked succeeded, a failed one included: the exact condition over all
    executions, whether leases hold or not (services/workflow-worker/app/main.py). */
module Reviving {
  import opened Basics
  import opened Json
  import opened Dag
  import opened RunStore
  import opened Interleaving
  import opened SerialRuns
  import opened Termination
  import opened LoopingRuns
  import opened Overwriting

  // ---- states that make sense ------------------------------------------------------------------

  /** All ids given out are below the next one. */
  predicate Numbered(s: Sys) {
    (forall id | id in s.db.queue :: id < s.db.nextId)
    && forall w | w in s.workers :: w < s.nextWorker && s.workers[w].job.id < s.db.nextId
  }

  /** The row of a worker, while it is there, is of its node. */
  predicate Matched(s: Sys) {
    forall w | w in s.workers && s.workers[w].job.id in s.db.queue ::
      s.db.queue[s.workers[w].job.id].node == s.workers[w].job.node
  }

  predicate Known(s: Sys) { RowsKnown(s) && Numbered(s) && Matched(s) }

  ghost predicate Sound(dag: Dag, s: Sys) { WellFormed(dag) && Flat(dag, s) && Known(s) }

  lemma EnqueueKnown(s: Sys, w: nat, now: int)
    requires Known(s)
    requires w in s.workers && s.workers[w].phase.Scheduling? && s.workers[w].phase.todo != []
    ensures Known(EnqueueBy(s, w, now))
  {
    var t := EnqueueBy(s, w, now);
    assert s.db.runNodes.Keys <= t.db.runNodes.Keys;
  }

  lemma LoopKnown(s: Sys, w: nat, now: int)
    requires Known(s) && w in s.workers
    ensures Known(LoopBy(s, w, now))
  {
    var t := LoopBy(s, w, now);
    assert s.db.runNodes.Keys <= t.db.runNodes.Keys;
  }

  lemma ClaimKnown(dag: Dag, s: Sys, step: Step)
    requires Known(s) && Enabled(dag, s, step) && step.ClaimStep?
    ensures Known(Apply(dag, s, step))
  {}

  lemma MoveKnown(dag: Dag, s: Sys, step: Step)
    requires Known(s) && Enabled(dag, s, step)
    requires !step.ClaimStep? && !step.AdvanceStep? && !step.EnqueueStep?
    ensures Known(Apply(dag, s, step))
  {
    if step.RejectStep? || step.FailStep? || step.SucceedStep? {
      FinalKnown(dag, s, step);
    } else {
      var t := Apply(dag, s, step);
      assert t.db.runNodes.Keys == s.db.runNodes.Keys;
    }
  }

  lemma FinalKnown(dag: Dag, s: Sys, step: Step)
    requires Known(s) && Enabled(dag, s, step) && (step.RejectStep? || step.FailStep? || step.SucceedStep?)
    ensures Known(Apply(dag, s, step))
  {
    var t := Apply(dag, s, step);
    assert t.db.runNodes.Keys == s.db.runNodes.Keys;
  }

  lemma AdvanceKnown(dag: Dag, s: Sys, step: Step)
    requires Known(s) && Enabled(dag, s, step) && step.AdvanceStep?
    ensures Known(Apply(dag, s, step))
  {
    LoopKnown(s, step.w, step.now);
    var t := SnapshotBy(dag, s, step.w, s.workers[step.w].phase.outputs);
    assert t.db == s.db;
  }

  lemma SoundStep(dag: Dag, s: Sys, step: Step)
    requires Sound(dag, s) && Enabled(dag, s, step)
    ensures Sound(dag, Apply(dag, s, step))
  {
    FlatStep(dag, s, step);
    if step.ClaimStep? {
      ClaimKnown(dag, s, step);
    } else if step.EnqueueStep? {
      EnqueueKnown(s, step.w, step.now);
    } else if step.AdvanceStep? {
      AdvanceKnown(dag, s, step);
    } else {
      MoveKnown(dag, s, step);
    }
  }

  lemma {:induction false} SoundThen(dag: Dag, s: Sys, steps: seq<Step>, t: Sys)
    requires Sound(dag, s) && Exec(dag, s, steps) == Some(t)
    ensures Sound(dag, t)
    decreases |steps|
  {
    if steps != [] {
      var m := Exec(dag, s, steps[..|steps| - 1]).value;
      SoundThen(dag, s, steps[..|steps| - 1], m);
      SoundStep(dag, m, steps[|steps| - 1]);
    }
  }

  lemma GentlySound(dag: Dag, s: Sys, t: Sys)
    requires Sound(dag, s) && Gently(dag, s, t)
    ensures Sound(dag, t)
  {
    var steps :| Exec(dag, s, steps) == Some(t) && Sparing(dag, s, steps);
    SoundThen(dag, s, steps, t);
  }

  // ---- what can run again ----------------------------------------------------------------------

  /** Worker w has a row for n to put into the queue. */
  predicate Brings(dag: Dag, s: Sys, w: nat, n: NodeId)
    requires w in s.workers
  {
    match s.workers[w].phase
    case Scheduling(todo) => n in todo
    case Finished(outputs) => n in ReadySuccessors(dag, s.workers[w].job.node, NodeState(s.db), outputs)
    case _ => false
  }

  ghost predicate HasQueued(db: Db, n: NodeId) { exists id :: RowFor(db, id, n) }

  /** Worker w may still succeed in running n, whether its row is there or not. */
  predicate IsRunning(s: Sys, w: nat, n: NodeId) {
    w in s.workers && CanSucceed(s.workers[w].phase) && s.workers[w].job.node == n
  }

  ghost predicate HasJob(s: Sys, n: NodeId) { HasQueued(s.db, n) || exists w :: IsRunning(s, w, n) }

  ghost predicate HasSource(dag: Dag, s: Sys, n: NodeId) {
    HasJob(s, n) || exists w | w in s.workers :: Brings(dag, s, w, n)
  }

  /** All predecessors have succeeded, or will when those of `done` have. */
  ghost predicate Prepared(dag: Dag, s: Sys, n: NodeId, done: set<NodeId>) {
    forall p | HasEdge(dag.edges, p, n) :: p in done || HasStatus(s.db, p, Succeeded)
  }

  ghost predicate FollowsOne(dag: Dag, n: NodeId, done: set<NodeId>) {
    exists p | p in done :: HasEdge(dag.edges, p, n)
  }

  /** n can run once those of `done` have: it has a row or a worker or comes by a row, or follows one of them. */
  ghost predicate CanRerun(dag: Dag, s: Sys, n: NodeId, done: set<NodeId>) {
    HasSource(dag, s, n) || (FollowsOne(dag, n, done) && Prepared(dag, s, n, done))
  }

  function Names(dag: Dag): set<NodeId> { set i | 0 <= i < |dag.nodes| :: dag.nodes[i].id }

  /** Add what can run until nothing more can. */
  ghost function Rerun(dag: Dag, s: Sys, done: set<NodeId>): set<NodeId>
    requires done <= Names(dag)
    decreases Names(dag) - done
  {
    var more := set n | n in Names(dag) && CanRerun(dag, s, n, done);
    if more <= done then done else Rerun(dag, s, done + more)
  }

  /** The nodes that can run, or run again, from s on. */
  ghost function Again(dag: Dag, s: Sys): set<NodeId> { Rerun(dag, s, {}) }

  lemma DeclaredIsNamed(dag: Dag, n: NodeId)
    requires Declared(dag, n)
    ensures n in Names(dag)
  {
    DeclaredIsListed(dag.nodes, n);
  }

  lemma {:induction false} RerunClosed(dag: Dag, s: Sys, done: set<NodeId>, n: NodeId)
    requires done <= Names(dag) && Declared(dag, n) && CanRerun(dag, s, n, Rerun(dag, s, done))
    ensures n in Rerun(dag, s, done)
    decreases Names(dag) - done
  {
    var more := set n | n in Names(dag) && CanRerun(dag, s, n, done);
    if more <= done {
      DeclaredIsNamed(dag, n);
    } else {
      RerunClosed(dag, s, done + more, n);
    }
  }

  lemma AgainClosed(dag: Dag, s: Sys, n: NodeId)
    requires Declared(dag, n) && CanRerun(dag, s, n, Again(dag, s))
    ensures n in Again(dag, s)
  {
    RerunClosed(dag, s, {}, n);
  }

  function Elements(order: seq<NodeId>): set<NodeId> { set i | 0 <= i < |order| :: order[i] }

  ghost predicate InTurn(dag: Dag, s: Sys, order: seq<NodeId>, j: nat)
    requires j < |order|
  {
    CanRerun(dag, s, order[j], Elements(order[..j]))
  }

  /** An order in which they can. */
  ghost predicate IsPlan(dag: Dag, s: Sys, order: seq<NodeId>) {
    NoDuplicates(order) && forall j | 0 <= j < |order| :: InTurn(dag, s, order, j)
  }

  lemma ElementsMore(order: seq<NodeId>, n: NodeId)
    ensures Elements(order + [n]) == Elements(order) + {n}
  {
    var longer := order + [n];
    assert forall i | 0 <= i < |order| :: longer[i] == order[i];
    assert longer[|order|] == n;
  }

  lemma RerunGrows(dag: Dag, s: Sys, n: NodeId, done: set<NodeId>, more: set<NodeId>)
    requires CanRerun(dag, s, n, done) && done <= more
    ensures CanRerun(dag, s, n, more)
  {
    if !HasSource(dag, s, n) {
      var p :| p in done && HasEdge(dag.edges, p, n);
      assert p in more;
    }
  }

  lemma PlanGrows(dag: Dag, s: Sys, order: seq<NodeId>, n: NodeId)
    requires IsPlan(dag, s, order) && n !in order && CanRerun(dag, s, n, Elements(order))
    ensures IsPlan(dag, s, order + [n])
  {
    var longer := order + [n];
    assert order[..|order|] == order;
    forall j | 0 <= j < |longer| ensures InTurn(dag, s, longer, j) {
      assert longer[..j] == order[..j];
      assert j < |order| ==> InTurn(dag, s, order, j);
    }
  }

  lemma {:induction false} PlanAll(dag: Dag, s: Sys, order: seq<NodeId>, done: set<NodeId>, more: set<NodeId>)
    returns (longer: seq<NodeId>)
    requires IsPlan(dag, s, order) && done <= Elements(order)
    requires forall n | n in more :: CanRerun(dag, s, n, done)
    ensures IsPlan(dag, s, longer) && Elements(longer) == Elements(order) + more
    decreases more
  {
    if more == {} {
      longer := order;
    } else {
      var n :| n in more;
      if n in order {
        longer := PlanAll(dag, s, order, done, more - {n});
        assert n in Elements(order);
      } else {
        RerunGrows(dag, s, n, done, Elements(order));
        PlanGrows(dag, s, order, n);
        ElementsMore(order, n);
        longer := PlanAll(dag, s, order + [n], done, more - {n});
      }
    }
  }

  lemma {:induction false} RerunPlan(dag: Dag, s: Sys, order: seq<NodeId>) returns (longer: seq<NodeId>)
    requires IsPlan(dag, s, order) && Elements(order) <= Names(dag)
    ensures IsPlan(dag, s, longer) && Elements(longer) == Rerun(dag, s, Elements(order))
    decreases Names(dag) - Elements(order)
  {
    var done := Elements(order);
    var more := set n | n in Names(dag) && CanRerun(dag, s, n, done);
    if more <= done {
      longer := order;
    } else {
      var next := PlanAll(dag, s, order, done, more);
      longer := RerunPlan(dag, s, next);
    }
  }

  /** What can run again includes every node that is not done, and either a terminal node or none while a worker
      at one is still to choose. */
  ghost predicate CanRevive(dag: Dag, s: Sys) {
    UndoneNodes(dag, s.db) <= Again(dag, s)
    && ((exists z | z in Again(dag, s) :: IsTerminal(dag, z))
        || exists w | w in s.workers :: s.workers[w].phase.Finished? && IsTerminal(dag, s.workers[w].job.node))
  }

  // ---- nothing else runs -----------------------------------------------------------------------

  /** What worker v of a later state t is about runs again, or it has stood at its choice since s. */
  ghost predicate IsAbout(dag: Dag, s: Sys, t: Sys, v: nat)
    requires v in t.workers
  {
    var worker := t.workers[v];
    match worker.phase
    case Scheduling(todo) => forall n | n in todo :: n in Again(dag, s)
    case Finished(_) => worker.job.node in Again(dag, s) || (v in s.workers && s.workers[v] == worker)
    case Closing => false
    case _ => CanSucceed(worker.phase) ==> worker.job.node in Again(dag, s)
  }

  /** A later state in which only those nodes have run. */
  ghost predicate Within(dag: Dag, s: Sys, t: Sys) {
    (forall id | id in t.db.queue :: t.db.queue[id].node in Again(dag, s))
    && (forall v | v in t.workers :: IsAbout(dag, s, t, v))
    && (forall n | HasStatus(t.db, n, Succeeded) :: n in Again(dag, s) || HasStatus(s.db, n, Succeeded))
    && s.db.runNodes.Keys <= t.db.runNodes.Keys && t.nextWorker >= s.nextWorker
    && t.db.status != Succeeded && (s.db.status == Failed ==> t.db.status == Failed)
  }

  lemma WithinStart(dag: Dag, s: Sys)
    requires Sound(dag, s) && s.db.status != Succeeded && !SomeAt(s, Closing)
    ensures Within(dag, s, s)
  {
    forall id | id in s.db.queue ensures s.db.queue[id].node in Again(dag, s) {
      assert RowFor(s.db, id, s.db.queue[id].node);
      AgainClosed(dag, s, s.db.queue[id].node);
    }
    forall v | v in s.workers ensures IsAbout(dag, s, s, v) {
      assert FlatWorker(dag, s.workers[v]);
      if s.workers[v].phase.Scheduling? {
        forall n | n in s.workers[v].phase.todo ensures n in Again(dag, s) {
          assert Brings(dag, s, v, n);
          AgainClosed(dag, s, n);
        }
      }
      if CanSucceed(s.workers[v].phase) {
        assert IsRunning(s, v, s.workers[v].job.node);
        AgainClosed(dag, s, s.workers[v].job.node);
      }
    }
  }

  lemma NodeStateMeaning(db: Db, n: NodeId)
    ensures n in NodeState(db) && NodeState(db)[n] == Succeeded <==> HasStatus(db, n, Succeeded)
  {}

  /** What a finished worker of t finds ready runs again. */
  lemma ReadyIsAgain(dag: Dag, s: Sys, t: Sys, v: nat, n: NodeId)
    requires Sound(dag, s) && Within(dag, s, t) && v in t.workers && t.workers[v].phase.Finished?
    requires n in ReadySuccessors(dag, t.workers[v].job.node, NodeState(t.db), t.workers[v].phase.outputs)
    ensures n in Again(dag, s)
  {
    var p, outputs := t.workers[v].job.node, t.workers[v].phase.outputs;
    ReadyIsSuccessor(dag, p, NodeState(t.db), outputs, n);
    ReadyAreDeclared(dag, p, NodeState(t.db), outputs);
    forall q | HasEdge(dag.edges, q, n) ensures q in Again(dag, s) || HasStatus(s.db, q, Succeeded) {
      NodeStateMeaning(t.db, q);
    }
    assert Prepared(dag, s, n, Again(dag, s));
    if FollowsOne(dag, n, Again(dag, s)) {
    } else {
      StillReady(dag, s, t, p, outputs, n);
      assert Brings(dag, s, v, n);
    }
    AgainClosed(dag, s, n);
  }

  lemma StillReady(dag: Dag, s: Sys, t: Sys, p: NodeId, outputs: seq<Entry>, n: NodeId)
    requires n in ReadySuccessors(dag, p, NodeState(t.db), outputs)
    requires forall q | HasEdge(dag.edges, q, n) :: HasStatus(s.db, q, Succeeded)
    ensures n in ReadySuccessors(dag, p, NodeState(s.db), outputs)
  {
    ReadyMeaning(dag, p, NodeState(t.db), outputs, n);
    ReadyMeaning(dag, p, NodeState(s.db), outputs, n);
    forall q | HasEdge(dag.edges, q, n) ensures q in NodeState(s.db) && NodeState(s.db)[q] == Succeeded {
      NodeStateMeaning(s.db, q);
    }
  }

  lemma ClosingMeansRevive(dag: Dag, s: Sys, t: Sys, v: nat)
    requires Within(dag, s, t) && v in t.workers && WillClose(dag, t, v)
    ensures CanRevive(dag, s)
  {
    forall n | n in UndoneNodes(dag, s.db) ensures n in Again(dag, s) {
      DeclaredIsListed(dag.nodes, n);
      assert (n, 0) in t.db.runNodes && n in NodeState(t.db);
      NodeStateMeaning(t.db, n);
    }
    assert IsAbout(dag, s, t, v);
  }

  lemma CannotClose(dag: Dag, s: Sys, t: Sys, v: nat)
    requires Within(dag, s, t) && v in t.workers && !CanRevive(dag, s)
    ensures !WillClose(dag, t, v)
  {
    if WillClose(dag, t, v) { ClosingMeansRevive(dag, s, t, v); }
  }

  lemma WithinSchedule(dag: Dag, s: Sys, t: Sys, w: nat, todo: seq<NodeId>)
    requires Within(dag, s, t) && w in t.workers && forall n | n in todo :: n in Again(dag, s)
    ensures Within(dag, s, GoTo(t, w, Scheduling(todo)))
  {
    var u := GoTo(t, w, Scheduling(todo));
    forall v | v in u.workers ensures IsAbout(dag, s, u, v) { assert IsAbout(dag, s, t, v); }
  }

  lemma WithinLeave(dag: Dag, s: Sys, t: Sys, w: nat)
    requires Within(dag, s, t)
    ensures Within(dag, s, Leave(t, w))
  {
    var u := Leave(t, w);
    forall v | v in u.workers ensures IsAbout(dag, s, u, v) { assert IsAbout(dag, s, t, v); }
  }

  lemma WithinAdvance(dag: Dag, s: Sys, t: Sys, w: nat, now: int)
    requires Sound(dag, s) && Sound(dag, t) && Within(dag, s, t) && !CanRevive(dag, s)
    requires Enabled(dag, t, AdvanceStep(w, now))
    ensures Within(dag, s, Apply(dag, t, AdvanceStep(w, now)))
  {
    var Worker(job, Finished(outputs)) := t.workers[w];
    var ready := ReadySuccessors(dag, job.node, NodeState(t.db), outputs);
    assert !ShouldLoop(FindNode(dag.nodes, job.node).value, outputs, job.iteration);
    CannotClose(dag, s, t, w);
    forall n | n in ready ensures n in Again(dag, s) { ReadyIsAgain(dag, s, t, w, n); }
    WithinSchedule(dag, s, t, w, ready);
    WithinLeave(dag, s, t, w);
  }

  lemma WithinEnqueue(dag: Dag, s: Sys, t: Sys, w: nat, now: int)
    requires Within(dag, s, t) && Enabled(dag, t, EnqueueStep(w, now))
    ensures Within(dag, s, Apply(dag, t, EnqueueStep(w, now)))
  {
    var u, todo := Apply(dag, t, EnqueueStep(w, now)), t.workers[w].phase.todo;
    assert IsAbout(dag, s, t, w) && todo[0] in todo;
    forall v | v in u.workers ensures IsAbout(dag, s, u, v) {
      assert IsAbout(dag, s, t, v);
      assert forall n | n in todo[1..] :: n in todo;
    }
    forall n | HasStatus(u.db, n, Succeeded) ensures HasStatus(t.db, n, Succeeded) {}
  }

  lemma WithinClaim(dag: Dag, s: Sys, t: Sys, step: Step)
    requires Within(dag, s, t) && Enabled(dag, t, step) && step.ClaimStep?
    ensures Within(dag, s, Apply(dag, t, step))
  {
    var u := Apply(dag, t, step);
    forall v | v in u.workers ensures IsAbout(dag, s, u, v) {
      assert v != t.nextWorker ==> IsAbout(dag, s, t, v);
    }
  }

  lemma WithinOutcome(dag: Dag, s: Sys, t: Sys, step: Step)
    requires Within(dag, s, t) && Enabled(dag, t, step)
    requires step.RejectStep? || step.FailStep? || step.SucceedStep? || step.StartNodeStep?
    ensures Within(dag, s, Apply(dag, t, step))
  {
    var u := Apply(dag, t, step);
    assert IsAbout(dag, s, t, step.w);
    forall v | v in u.workers ensures IsAbout(dag, s, u, v) {
      assert IsAbout(dag, s, t, v);
    }
    forall n | HasStatus(u.db, n, Succeeded)
      ensures n in Again(dag, s) || HasStatus(s.db, n, Succeeded)
    {
      assert n == t.workers[step.w].job.node || HasStatus(t.db, n, Succeeded);
    }
  }

  lemma WithinRest(dag: Dag, s: Sys, t: Sys, step: Step)
    requires Within(dag, s, t) && Enabled(dag, t, step)
    requires step.FetchStep? || step.DiscardStep? || step.StartRunStep? || step.ReportStep? || step.SweepStep?
             || step.CrashStep? || step.CancelStep?
    ensures Within(dag, s, Apply(dag, t, step))
  {
    var u := Apply(dag, t, step);
    assert u.db.runNodes == t.db.runNodes;
    forall v | v in u.workers ensures IsAbout(dag, s, u, v) {
      assert IsAbout(dag, s, t, v);
    }
    forall n | HasStatus(u.db, n, Succeeded) ensures HasStatus(t.db, n, Succeeded) {}
  }

  lemma NoneCloses(dag: Dag, s: Sys, t: Sys)
    requires Within(dag, s, t)
    ensures forall v | v in t.workers :: t.workers[v].phase != Closing
  {
    forall v | v in t.workers ensures t.workers[v].phase != Closing { assert IsAbout(dag, s, t, v); }
  }

  lemma WithinStep(dag: Dag, s: Sys, t: Sys, step: Step)
    requires Sound(dag, s) && Sound(dag, t) && Within(dag, s, t) && !CanRevive(dag, s) && Enabled(dag, t, step)
    ensures Within(dag, s, Apply(dag, t, step))
  {
    NoneCloses(dag, s, t);
    match step
    case ClaimStep(_, _, _, _) => WithinClaim(dag, s, t, step);
    case AdvanceStep(w, now) => WithinAdvance(dag, s, t, w, now);
    case EnqueueStep(w, now) => WithinEnqueue(dag, s, t, w, now);
    case RejectStep(_) => WithinOutcome(dag, s, t, step);
    case FailStep(_) => WithinOutcome(dag, s, t, step);
    case SucceedStep(_, _) => WithinOutcome(dag, s, t, step);
    case StartNodeStep(_) => WithinOutcome(dag, s, t, step);
    case CloseStep(_) =>
    case _ => WithinRest(dag, s, t, step);
  }

  lemma {:induction false} WithinForEver(dag: Dag, s: Sys, steps: seq<Step>, t: Sys)
    requires Sound(dag, s) && Within(dag, s, s) && !CanRevive(dag, s) && Exec(dag, s, steps) == Some(t)
    ensures Within(dag, s, t)
    decreases |steps|
  {
    if steps != [] {
      var m := Exec(dag, s, steps[..|steps| - 1]).value;
      WithinForEver(dag, s, steps[..|steps| - 1], m);
      SoundThen(dag, s, steps[..|steps| - 1], m);
      WithinStep(dag, s, m, steps[|steps| - 1]);
    }
  }

  // ---- and all of it can -----------------------------------------------------------------------

  predicate FiresAll(dag: Dag, n: NodeId, outputs: seq<Entry>) {
    forall i | 0 <= i < |dag.edges| && dag.edges[i].src == n :: Fires(dag.edges[i], n, outputs)
  }

  /** Every node can deliver outputs that meet the conditions of all its edges, as it does if they have none. */
  ghost predicate Satisfiable(dag: Dag) { forall n | Declared(dag, n) :: exists outputs :: FiresAll(dag, n, outputs) }

  ghost predicate HasNewRow(db: Db, n: NodeId, first: nat) {
    exists id: nat :: RowFor(db, id, n) && id >= first
  }

  /** b is a but for more queued rows, of the nodes added. */
  ghost predicate Grows(a: Db, b: Db, added: set<NodeId>) {
    (forall n :: HasStatus(b, n, Succeeded) <==> HasStatus(a, n, Succeeded))
    && (forall id | id in a.queue :: SameRow(a, b, id))
    && (forall n | n in added :: HasNewRow(b, n, a.nextId))
    && (forall key | key in b.runNodes && key !in a.runNodes :: key.0 in added)
    && (forall id | id in b.queue && id !in a.queue :: id >= a.nextId)
    && b.status == a.status && b.nextId >= a.nextId
  }

  lemma QueuedStays(a: Db, b: Db, n: NodeId)
    requires HasQueued(a, n) && forall id | id in a.queue :: SameRow(a, b, id)
    ensures HasQueued(b, n)
  {
    var id :| RowFor(a, id, n);
    assert RowFor(b, id, n);
  }

  lemma GrowsThen(a: Db, b: Db, c: Db, first: set<NodeId>, second: set<NodeId>)
    requires Grows(a, b, first) && Grows(b, c, second)
    ensures Grows(a, c, first + second)
  {
    forall id | id in a.queue ensures SameRow(a, c, id) { assert SameRow(a, b, id); }
    forall n | n in first ensures HasNewRow(c, n, a.nextId) {
      var id: nat :| RowFor(b, id, n) && id >= a.nextId;
      assert SameRow(b, c, id) && RowFor(c, id, n);
    }
    forall n | n in second ensures HasNewRow(c, n, a.nextId) {
      var id: nat :| RowFor(c, id, n) && id >= b.nextId;
    }
  }

  lemma GrowsUndone(dag: Dag, a: Db, b: Db, added: set<NodeId>)
    requires Grows(a, b, added)
    ensures UndoneNodes(dag, b) <= UndoneNodes(dag, a) + added
  {
    forall n | n in UndoneNodes(dag, b) ensures n in UndoneNodes(dag, a) + added {
      if (n, 0) in a.runNodes {
        assert !HasStatus(b, n, Succeeded);
        assert (n, 0) in a.runNodes && a.runNodes[(n, 0)] != Succeeded;
      }
    }
  }

  lemma EnqueueGrows(t: Sys, w: nat)
    requires Numbered(t) && w in t.workers && t.workers[w].phase.Scheduling? && t.workers[w].phase.todo != []
    ensures Grows(t.db, EnqueueBy(t, w, 0).db, {t.workers[w].phase.todo[0]})
  {
    var n := t.workers[w].phase.todo[0];
    assert RowFor(EnqueueBy(t, w, 0).db, t.db.nextId, n);
  }

  lemma ElementsSplit(todo: seq<NodeId>)
    requires todo != []
    ensures Elements(todo) == {todo[0]} + Elements(todo[1..])
  {
    forall n | n in Elements(todo) ensures n in {todo[0]} + Elements(todo[1..]) {
      var i :| 0 <= i < |todo| && todo[i] == n;
      assert i > 0 ==> todo[1..][i - 1] == n;
    }
    forall n | n in Elements(todo[1..]) ensures n in Elements(todo) {
      var i :| 0 <= i < |todo[1..]| && todo[1..][i] == n;
      assert todo[i + 1] == n;
    }
  }

  /** A worker enqueues its whole list. */
  lemma {:induction false} ListIsQueued(dag: Dag, s: Sys, t: Sys, w: nat) returns (u: Sys)
    requires Gently(dag, s, t) && Known(t)
    requires w in t.workers && t.workers[w].phase.Scheduling? && t.workers[w].phase.todo != []
    ensures Gently(dag, s, u) && u.workers == t.workers - {w}
    ensures Grows(t.db, u.db, Elements(t.workers[w].phase.todo))
    decreases if w in t.workers && t.workers[w].phase.Scheduling? then |t.workers[w].phase.todo| else 0
  {
    var todo := t.workers[w].phase.todo;
    GentlyStep(dag, s, t, EnqueueStep(w, 0));
    EnqueueGrows(t, w);
    EnqueueKnown(t, w, 0);
    ElementsSplit(todo);
    u := EnqueueBy(t, w, 0);
    if |todo| == 1 {
      assert Elements(todo[1..]) == {};
    } else {
      var m := u;
      u := ListIsQueued(dag, s, m, w);
      assert m.workers - {w} == t.workers - {w};
      GrowsThen(t.db, m.db, u.db, {todo[0]}, Elements(todo[1..]));
    }
  }

  predicate AtEnd(dag: Dag, worker: Worker) { worker.phase.Finished? && IsTerminal(dag, worker.job.node) }

  /** A worker with rows to queue, or none, queues them and goes. */
  lemma RowsAreBrought(dag: Dag, s: Sys, t: Sys, w: nat) returns (u: Sys, added: set<NodeId>)
    requires Sound(dag, t) && Gently(dag, s, t) && w in t.workers && !AtEnd(dag, t.workers[w])
    requires t.workers[w].phase.Scheduling? || t.workers[w].phase.Finished?
    ensures Gently(dag, s, u) && u.workers == t.workers - {w} && Grows(t.db, u.db, added)
    ensures forall n :: n in added <==> Brings(dag, t, w, n)
  {
    if t.workers[w].phase == Scheduling([]) {
      GentlyStep(dag, s, t, CrashStep(w));
      u, added := Leave(t, w), {};
    } else if t.workers[w].phase.Scheduling? {
      u := ListIsQueued(dag, s, t, w);
      added := Elements(t.workers[w].phase.todo);
    } else {
      u, added := ReadyAreBrought(dag, s, t, w);
    }
  }

  lemma ReadyAreBrought(dag: Dag, s: Sys, t: Sys, w: nat) returns (u: Sys, added: set<NodeId>)
    requires Sound(dag, t) && Gently(dag, s, t) && w in t.workers
    requires t.workers[w].phase.Finished? && !IsTerminal(dag, t.workers[w].job.node)
    ensures Gently(dag, s, u) && u.workers == t.workers - {w} && Grows(t.db, u.db, added)
    ensures forall n :: n in added <==> Brings(dag, t, w, n)
  {
    var Worker(job, Finished(outputs)) := t.workers[w];
    var ready := ReadySuccessors(dag, job.node, NodeState(t.db), outputs);
    assert FlatWorker(dag, t.workers[w]);
    assert !ShouldLoop(FindNode(dag.nodes, job.node).value, outputs, job.iteration);
    GentlyStep(dag, s, t, AdvanceStep(w, 0));
    added := Elements(ready);
    if ready == [] {
      u := Leave(t, w);
    } else {
      var m := GoTo(t, w, Scheduling(ready));
      assert m == Apply(dag, t, AdvanceStep(w, 0));
      AdvanceKnown(dag, t, AdvanceStep(w, 0));
      u := ListIsQueued(dag, s, m, w);
      assert m.workers - {w} == t.workers - {w};
    }
  }

  // ---- first the workers -----------------------------------------------------------------------

  ghost predicate SameSuccesses(a: Db, b: Db) { forall n :: HasStatus(a, n, Succeeded) <==> HasStatus(b, n, Succeeded) }

  lemma BringsStill(dag: Dag, s: Sys, t: Sys, w: nat, n: NodeId)
    requires w in s.workers && w in t.workers && s.workers[w] == t.workers[w] && Brings(dag, t, w, n)
    requires SameSuccesses(s.db, t.db)
    ensures Brings(dag, s, w, n)
  {
    if t.workers[w].phase.Finished? {
      var p, outputs := t.workers[w].job.node, t.workers[w].phase.outputs;
      ReadyIsSuccessor(dag, p, NodeState(t.db), outputs, n);
      forall q | HasEdge(dag.edges, q, n) ensures HasStatus(s.db, q, Succeeded) { NodeStateMeaning(t.db, q); }
      StillReady(dag, s, t, p, outputs, n);
    }
  }

  /** A worker whose row is gone; it goes on in its turn. */
  predicate IsStray(s: Sys, w: nat)
    requires w in s.workers
  {
    CanSucceed(s.workers[w].phase) && s.workers[w].job.id !in s.db.queue
  }

  /** On the way to a state without lists or choices but at terminal nodes: what had a source in s has a row, or
      a worker who runs it or brings one. */
  ghost predicate Settling(dag: Dag, s: Sys, t: Sys) {
    SameSuccesses(s.db, t.db) && UndoneNodes(dag, t.db) <= Again(dag, s) && t.db.status == s.db.status
    && (forall w | w in t.workers :: w in s.workers && s.workers[w] == t.workers[w]
                                     && (t.workers[w].phase.Scheduling? || t.workers[w].phase.Finished?
                                         || IsStray(t, w)))
    && (forall w | w in s.workers && AtEnd(dag, s.workers[w]) :: w in t.workers)
    && (forall n | HasSource(dag, s, n) ::
          HasJob(t, n) || exists w | w in t.workers :: Brings(dag, t, w, n))
  }

  ghost predicate Settled(dag: Dag, t: Sys) {
    forall w | w in t.workers :: AtEnd(dag, t.workers[w]) || IsStray(t, w)
  }

  lemma BroughtIsAgain(dag: Dag, s: Sys, t: Sys, w: nat, n: NodeId)
    requires Sound(dag, s) && Settling(dag, s, t) && w in t.workers && Brings(dag, t, w, n)
    ensures n in Again(dag, s)
  {
    BringsStill(dag, s, t, w, n);
    assert FlatWorker(dag, s.workers[w]);
    if s.workers[w].phase.Finished? {
      ReadyAreDeclared(dag, s.workers[w].job.node, NodeState(s.db), s.workers[w].phase.outputs);
    }
    AgainClosed(dag, s, n);
  }

  lemma StrayStays(t: Sys, u: Sys, added: set<NodeId>, v: nat)
    requires Known(t) && Grows(t.db, u.db, added) && v in t.workers && IsStray(t, v)
    requires v in u.workers && u.workers[v] == t.workers[v]
    ensures IsStray(u, v)
  {}

  lemma SettlingGoesOn(dag: Dag, s: Sys, t: Sys, w: nat, u: Sys, added: set<NodeId>)
    requires Sound(dag, s) && Known(t) && Settling(dag, s, t) && w in t.workers && !AtEnd(dag, t.workers[w])
    requires t.workers[w].phase.Scheduling? || t.workers[w].phase.Finished?
    requires u.workers == t.workers - {w} && Grows(t.db, u.db, added)
    requires forall n :: n in added <==> Brings(dag, t, w, n)
    ensures Settling(dag, s, u)
  {
    GrowsUndone(dag, t.db, u.db, added);
    forall n | n in added ensures n in Again(dag, s) { BroughtIsAgain(dag, s, t, w, n); }
    forall v | v in u.workers && IsStray(t, v) ensures IsStray(u, v) { StrayStays(t, u, added, v); }
    forall n | HasSource(dag, s, n)
      ensures HasJob(u, n) || exists v | v in u.workers :: Brings(dag, u, v, n)
    {
      SourceGoesOn(dag, t, w, u, added, n);
    }
  }

  lemma SourceGoesOn(dag: Dag, t: Sys, w: nat, u: Sys, added: set<NodeId>, n: NodeId)
    requires w in t.workers && u.workers == t.workers - {w} && Grows(t.db, u.db, added)
    requires t.workers[w].phase.Scheduling? || t.workers[w].phase.Finished?
    requires forall m :: m in added <==> Brings(dag, t, w, m)
    requires HasJob(t, n) || exists v | v in t.workers :: Brings(dag, t, v, n)
    ensures HasJob(u, n) || exists v | v in u.workers :: Brings(dag, u, v, n)
  {
    if HasQueued(t.db, n) {
      QueuedStays(t.db, u.db, n);
    } else if v :| IsRunning(t, v, n) {
      assert IsRunning(u, v, n);
    } else {
      var v :| v in t.workers && Brings(dag, t, v, n);
      if v != w {
        BringsStill(dag, u, t, v, n);
      }
    }
  }

  lemma {:induction false} WorkersSettle(dag: Dag, s: Sys, t: Sys) returns (u: Sys)
    requires Sound(dag, s) && Gently(dag, s, t) && Settling(dag, s, t)
    ensures Gently(dag, s, u) && Settling(dag, s, u) && Settled(dag, u)
    decreases t.workers.Keys
  {
    u := t;
    if w :| w in t.workers && !AtEnd(dag, t.workers[w]) && !IsStray(t, w) {
      GentlySound(dag, s, t);
      var m, added := RowsAreBrought(dag, s, t, w);
      SettlingGoesOn(dag, s, t, w, m, added);
      assert m.workers.Keys == t.workers.Keys - {w};
      u := WorkersSettle(dag, s, m);
    }
  }

  /** Everyone else crashes, a row left behind. */
  lemma SettlingStarts(dag: Dag, s: Sys) returns (t: Sys)
    requires Sound(dag, s) && UndoneNodes(dag, s.db) <= Again(dag, s)
    ensures Gently(dag, s, t) && Settling(dag, s, t)
  {
    GentlyStays(dag, s);
    var gone := set w | w in s.workers && !s.workers[w].phase.Scheduling? && !s.workers[w].phase.Finished?
                        && !IsStray(s, w);
    TheyCrash(dag, s, s, gone);
    t := s.(workers := s.workers - gone);
    forall n | HasSource(dag, s, n)
      ensures HasJob(t, n) || exists w | w in t.workers :: Brings(dag, t, w, n)
    {
      SourceOutlives(dag, s, gone, t, n);
    }
  }

  lemma SourceOutlives(dag: Dag, s: Sys, gone: set<nat>, t: Sys, n: NodeId)
    requires Sound(dag, s) && HasSource(dag, s, n) && t == s.(workers := s.workers - gone)
    requires forall w | w in gone :: w in s.workers && !s.workers[w].phase.Scheduling?
                                     && !s.workers[w].phase.Finished? && !IsStray(s, w)
    ensures HasJob(t, n) || exists w | w in t.workers :: Brings(dag, t, w, n)
  {
    if HasQueued(s.db, n) {
      QueuedStays(s.db, t.db, n);
    } else if w :| IsRunning(s, w, n) {
      if w in gone {
        assert RowFor(t.db, s.workers[w].job.id, n);
      } else {
        assert IsRunning(t, w, n);
      }
    } else {
      var w :| w in s.workers && Brings(dag, s, w, n);
      assert w in t.workers && Brings(dag, t, w, n);
    }
  }

  // ---- then the nodes in order -----------------------------------------------------------------

  /** When those before i have run: the j-th has a job, or follows one that is still to run. */
  ghost predicate Due(dag: Dag, s: Sys, t: Sys, order: seq<NodeId>, i: nat, j: nat)
    requires i <= j < |order|
  {
    HasJob(t, order[j])
    || ((exists k | i <= k < j :: HasEdge(dag.edges, order[k], order[j]))
        && Prepared(dag, s, order[j], Elements(order[..j])))
  }

  ghost predicate HasEnd(dag: Dag, s: Sys) { exists w | w in s.workers :: AtEnd(dag, s.workers[w]) }

  /** The state when those before i have run. */
  ghost predicate Progress(dag: Dag, s: Sys, t: Sys, order: seq<NodeId>, i: nat)
    requires i <= |order|
  {
    Settled(dag, t) && UndoneNodes(dag, t.db) <= Again(dag, s) && t.db.status != Cancelled
    && (forall n | HasStatus(t.db, n, Succeeded) :: n in Again(dag, s) || HasStatus(s.db, n, Succeeded))
    && (forall n | HasStatus(s.db, n, Succeeded) :: HasStatus(t.db, n, Succeeded))
    && (forall j | 0 <= j < i :: HasStatus(t.db, order[j], Succeeded))
    && (forall j | i <= j < |order| :: Due(dag, s, t, order, i, j))
    && (HasEnd(dag, s) || (exists j | 0 <= j < i :: IsTerminal(dag, order[j])) ==> HasEnd(dag, t))
  }

  lemma ProgressStarts(dag: Dag, s: Sys, t: Sys, order: seq<NodeId>)
    requires IsPlan(dag, s, order) && Settling(dag, s, t) && Settled(dag, t) && s.db.status != Cancelled
    ensures Progress(dag, s, t, order, 0)
  {
    forall n | HasSource(dag, s, n) ensures HasJob(t, n) {
      if !HasJob(t, n) {
        var w :| w in t.workers && Brings(dag, t, w, n);
        NoneIsBroughtAtEnd(dag, t, w, n);
      }
    }
    forall j | 0 <= j < |order| ensures Due(dag, s, t, order, 0, j) {
      assert InTurn(dag, s, order, j);
      if !HasSource(dag, s, order[j]) {
        var p :| p in Elements(order[..j]) && HasEdge(dag.edges, p, order[j]);
        var k :| 0 <= k < |order[..j]| && order[..j][k] == p;
        assert HasEdge(dag.edges, order[k], order[j]);
      }
    }
  }

  lemma NoneIsBroughtAtEnd(dag: Dag, t: Sys, w: nat, n: NodeId)
    requires w in t.workers && (AtEnd(dag, t.workers[w]) || IsStray(t, w))
    ensures !Brings(dag, t, w, n)
  {
    if t.workers[w].phase.Finished? {
      TerminalHasNoneReady(dag, t.workers[w].job.node, NodeState(t.db), t.workers[w].phase.outputs);
    }
  }

  /** The tables once a job of n has been handled, before anything is scheduled. */
  ghost predicate HasRun(dag: Dag, a: Db, b: Db, n: NodeId) {
    (forall m :: HasStatus(b, m, Succeeded) <==> m == n || HasStatus(a, m, Succeeded))
    && UndoneNodes(dag, b) <= UndoneNodes(dag, a)
    && (forall m | m != n && HasQueued(a, m) :: HasQueued(b, m))
    && b.queue.Keys <= a.queue.Keys && b.nextId == a.nextId
  }

  lemma JobHasRun(dag: Dag, a: Db, b: Db, id: nat, n: NodeId)
    requires (id in a.queue ==> a.queue[id].node == n) && (n, 0) in a.runNodes
    requires b.runNodes == a.runNodes[(n, 0) := Succeeded] && b.nextId == a.nextId
    requires b.queue.Keys == a.queue.Keys - {id} && forall other | other in b.queue :: SameRow(a, b, other)
    ensures HasRun(dag, a, b, n)
  {
    UndoneAfter(dag, a, b, n);
    forall m | m != n && HasQueued(a, m) ensures HasQueued(b, m) {
      var other :| RowFor(a, other, m);
      assert other in b.queue && SameRow(a, b, other) && RowFor(b, other, m);
    }
  }

  ghost predicate PredecessorsDone(dag: Dag, db: Db, n: NodeId) {
    forall q | HasEdge(dag.edges, q, n) :: HasStatus(db, q, Succeeded)
  }

  lemma EdgeMakesReady(dag: Dag, db: Db, p: NodeId, outputs: seq<Entry>, n: NodeId)
    requires FiresAll(dag, p, outputs) && HasEdge(dag.edges, p, n) && PredecessorsDone(dag, db, n)
    ensures n in ReadySuccessors(dag, p, NodeState(db), outputs)
  {
    var i :| 0 <= i < |dag.edges| && dag.edges[i].src == p && dag.edges[i].dst == n;
    assert Fires(dag.edges[i], p, outputs);
    ReadyMeaning(dag, p, NodeState(db), outputs, n);
    forall q | HasEdge(dag.edges, q, n) ensures q in NodeState(db) && NodeState(db)[q] == Succeeded {
      NodeStateMeaning(db, q);
    }
  }

  /** All that follows p and has its predecessors done is among the added. */
  ghost predicate AddsFollowers(dag: Dag, db: Db, p: NodeId, added: set<NodeId>) {
    forall n | HasEdge(dag.edges, p, n) && PredecessorsDone(dag, db, n) :: n in added
  }

  /** Of the workers of t only w, who is about n if about anything, is not as it was. */
  predicate OnlyMoves(t: Sys, u: Sys, w: nat, n: NodeId) {
    (forall v | v in t.workers && v != w :: v in u.workers && u.workers[v] == t.workers[v])
    && (w in t.workers ==> t.workers[w].job.node == n)
  }

  lemma PreparedIsDone(dag: Dag, s: Sys, t: Sys, order: seq<NodeId>, i: nat, j: nat, db: Db)
    requires i < j < |order| && Progress(dag, s, t, order, i) && HasRun(dag, t.db, db, order[i])
    requires Prepared(dag, s, order[j], Elements(order[..j]))
    requires forall k | i < k < j :: !HasEdge(dag.edges, order[k], order[j])
    ensures PredecessorsDone(dag, db, order[j])
  {
    forall q | HasEdge(dag.edges, q, order[j]) ensures HasStatus(db, q, Succeeded) {
      if q in Elements(order[..j]) {
        var l :| 0 <= l < |order[..j]| && order[..j][l] == q;
        assert order[l] == q && l <= i;
      }
    }
  }

  lemma DueGoesOn(dag: Dag, s: Sys, t: Sys, order: seq<NodeId>, i: nat, j: nat, db: Db, u: Sys, added: set<NodeId>,
                  w: nat)
    requires i < j < |order| && IsPlan(dag, s, order) && Progress(dag, s, t, order, i)
    requires HasRun(dag, t.db, db, order[i]) && Grows(db, u.db, added) && AddsFollowers(dag, db, order[i], added)
    requires OnlyMoves(t, u, w, order[i])
    ensures Due(dag, s, u, order, i + 1, j)
  {
    assert Due(dag, s, t, order, i, j) && order[j] != order[i];
    if HasQueued(t.db, order[j]) {
      QueuedStays(db, u.db, order[j]);
    } else if v :| IsRunning(t, v, order[j]) {
      assert IsRunning(u, v, order[j]);
    } else if forall k | i < k < j :: !HasEdge(dag.edges, order[k], order[j]) {
      PreparedIsDone(dag, s, t, order, i, j, db);
      assert HasEdge(dag.edges, order[i], order[j]);
    }
  }

  lemma ProgressGoesOn(dag: Dag, s: Sys, t: Sys, order: seq<NodeId>, i: nat, db: Db, u: Sys, added: set<NodeId>,
                       w: nat)
    requires i < |order| && IsPlan(dag, s, order) && Progress(dag, s, t, order, i) && order[i] in Again(dag, s)
    requires HasRun(dag, t.db, db, order[i]) && Grows(db, u.db, added) && AddsFollowers(dag, db, order[i], added)
    requires OnlyMoves(t, u, w, order[i])
    requires added <= Again(dag, s) && Settled(dag, u) && u.db.status != Cancelled
    requires HasEnd(dag, t) || IsTerminal(dag, order[i]) ==> HasEnd(dag, u)
    ensures Progress(dag, s, u, order, i + 1)
  {
    GrowsUndone(dag, db, u.db, added);
    var next := i + 1;
    forall j | next <= j < |order| ensures Due(dag, s, u, order, next, j) {
      DueGoesOn(dag, s, t, order, i, j, db, u, added, w);
    }
    forall j | 0 <= j < next ensures HasStatus(u.db, order[j], Succeeded) {
      assert j < i ==> HasStatus(t.db, order[j], Succeeded);
    }
  }

  lemma AddedIsAgain(dag: Dag, s: Sys, t: Sys, p: NodeId, outputs: seq<Entry>, n: NodeId)
    requires Sound(dag, s) && p in Again(dag, s) && n in ReadySuccessors(dag, p, NodeState(t.db), outputs)
    requires forall q | HasStatus(t.db, q, Succeeded) :: q in Again(dag, s) || HasStatus(s.db, q, Succeeded)
    ensures n in Again(dag, s)
  {
    ReadyIsSuccessor(dag, p, NodeState(t.db), outputs, n);
    ReadyAreDeclared(dag, p, NodeState(t.db), outputs);
    forall q | HasEdge(dag.edges, q, n) ensures q in Again(dag, s) || HasStatus(s.db, q, Succeeded) {
      NodeStateMeaning(t.db, q);
    }
    AgainClosed(dag, s, n);
  }

  /** The i-th node has run in m, and its worker, the only one that moved, has its followers still to schedule. */
  ghost predicate Ran(dag: Dag, t: Sys, order: seq<NodeId>, i: nat, m: Sys, w: nat, outputs: seq<Entry>)
    requires i < |order|
  {
    HasRun(dag, t.db, m.db, order[i]) && m.db.status != Cancelled && FiresAll(dag, order[i], outputs)
    && w in m.workers && m.workers - {w} == t.workers - {w}
    && (w in t.workers ==> IsRunning(t, w, order[i]))
    && m.workers[w].phase == Finished(outputs) && m.workers[w].job.node == order[i]
  }

  lemma SettledHoldsNone(dag: Dag, t: Sys)
    requires Settled(dag, t) && Known(t)
    ensures NoneHolds(t)
  {}

  lemma RowRuns(dag: Dag, s: Sys, t: Sys, order: seq<NodeId>, i: nat, id: nat, outputs: seq<Entry>)
    returns (m: Sys, w: nat)
    requires Sound(dag, t) && i < |order| && Gently(dag, s, t) && FiresAll(dag, order[i], outputs)
    requires NoneHolds(t) && t.db.status != Cancelled && RowFor(t.db, id, order[i])
    ensures Gently(dag, s, m) && Ran(dag, t, order, i, m, w, outputs)
  {
    w := t.nextWorker;
    m := RowSucceeds(dag, s, t, id, outputs);
    JobHasRun(dag, t.db, m.db, id, order[i]);
  }

  lemma StrayRuns(dag: Dag, s: Sys, t: Sys, order: seq<NodeId>, i: nat, w: nat, outputs: seq<Entry>)
    returns (m: Sys)
    requires Sound(dag, t) && i < |order| && Gently(dag, s, t) && FiresAll(dag, order[i], outputs)
    requires t.db.status != Cancelled && IsRunning(t, w, order[i])
    ensures Gently(dag, s, m) && Ran(dag, t, order, i, m, w, outputs)
  {
    assert FlatWorker(dag, t.workers[w]);
    m := WorkerSucceeds(dag, s, t, w, outputs);
    JobHasRun(dag, t.db, m.db, t.workers[w].job.id, order[i]);
    assert m.workers - {w} == t.workers - {w};
  }

  lemma JobRuns(dag: Dag, s: Sys, t: Sys, order: seq<NodeId>, i: nat) returns (m: Sys, w: nat, outputs: seq<Entry>)
    requires Sound(dag, t) && Satisfiable(dag) && i < |order| && Gently(dag, s, t)
    requires NoneHolds(t) && t.db.status != Cancelled && HasJob(t, order[i])
    ensures Gently(dag, s, m) && Ran(dag, t, order, i, m, w, outputs)
  {
    JobIsDeclared(dag, t, order[i]);
    outputs :| FiresAll(dag, order[i], outputs);
    if id :| RowFor(t.db, id, order[i]) {
      m, w := RowRuns(dag, s, t, order, i, id, outputs);
    } else {
      w :| IsRunning(t, w, order[i]);
      m := StrayRuns(dag, s, t, order, i, w, outputs);
    }
  }

  lemma JobIsDeclared(dag: Dag, t: Sys, n: NodeId)
    requires Flat(dag, t) && HasJob(t, n)
    ensures Declared(dag, n)
  {
    if w :| IsRunning(t, w, n) { assert FlatWorker(dag, t.workers[w]); }
  }

  /** The next node of the plan runs, and its worker schedules what follows. */
  lemma NextRuns(dag: Dag, s: Sys, t: Sys, order: seq<NodeId>, i: nat) returns (u: Sys)
    requires Sound(dag, s) && Satisfiable(dag) && IsPlan(dag, s, order)
    requires i < |order| && order[i] in Again(dag, s) && Gently(dag, s, t) && Progress(dag, s, t, order, i)
    ensures Gently(dag, s, u) && Progress(dag, s, u, order, i + 1)
  {
    assert Due(dag, s, t, order, i, i);
    GentlySound(dag, s, t);
    SettledHoldsNone(dag, t);
    var m, w, outputs := JobRuns(dag, s, t, order, i);
    if IsTerminal(dag, order[i]) {
      u := m;
      StaysAtEnd(dag, s, t, order, i, m, w, outputs);
    } else {
      u := FollowersAreBrought(dag, s, t, order, i, m, w, outputs);
    }
  }

  lemma WorkersStaySettled(dag: Dag, t: Sys, order: seq<NodeId>, i: nat, m: Sys, w: nat, outputs: seq<Entry>, u: Sys,
                           added: set<NodeId>)
    requires i < |order| && Known(t) && Settled(dag, t) && Ran(dag, t, order, i, m, w, outputs)
    requires Grows(m.db, u.db, added) && u.workers - {w} == t.workers - {w}
    ensures forall v | v in u.workers && v != w :: AtEnd(dag, u.workers[v]) || IsStray(u, v)
    ensures OnlyMoves(t, u, w, order[i])
    ensures HasEnd(dag, t) ==> HasEnd(dag, u)
  {
    forall v | v in t.workers && v != w ensures v in u.workers && u.workers[v] == t.workers[v] {
      assert v in t.workers - {w} && v in u.workers - {w};
    }
    forall v | v in u.workers && v != w ensures v in t.workers && u.workers[v] == t.workers[v] {
      assert v in u.workers - {w} && v in t.workers - {w};
    }
    if HasEnd(dag, t) {
      var v :| v in t.workers && AtEnd(dag, t.workers[v]);
      assert v != w;
    }
  }

  lemma StaysAtEnd(dag: Dag, s: Sys, t: Sys, order: seq<NodeId>, i: nat, m: Sys, w: nat, outputs: seq<Entry>)
    requires IsPlan(dag, s, order) && Known(t)
    requires i < |order| && order[i] in Again(dag, s) && Progress(dag, s, t, order, i) && IsTerminal(dag, order[i])
    requires Ran(dag, t, order, i, m, w, outputs)
    ensures Progress(dag, s, m, order, i + 1)
  {
    LeadsNowhere(dag, order[i], m.db);
    WorkersStaySettled(dag, t, order, i, m, w, outputs, m, {});
    ProgressGoesOn(dag, s, t, order, i, m.db, m, {}, w);
  }

  lemma LeadsNowhere(dag: Dag, n: NodeId, db: Db)
    requires IsTerminal(dag, n)
    ensures AddsFollowers(dag, db, n, {}) && Grows(db, db, {})
  {
    forall x ensures !HasEdge(dag.edges, n, x) { SuccessorsMeaning(dag.edges, n, x); }
  }

  lemma AllAreBrought(dag: Dag, s: Sys, t: Sys, order: seq<NodeId>, i: nat, m: Sys, w: nat, outputs: seq<Entry>,
                      added: set<NodeId>)
    requires Sound(dag, s) && i < |order| && order[i] in Again(dag, s) && Progress(dag, s, t, order, i)
    requires Ran(dag, t, order, i, m, w, outputs) && forall n :: n in added <==> Brings(dag, m, w, n)
    ensures added <= Again(dag, s) && AddsFollowers(dag, m.db, order[i], added)
  {
    forall n | n in added ensures n in Again(dag, s) { AddedIsAgain(dag, s, m, order[i], outputs, n); }
    forall n | HasEdge(dag.edges, order[i], n) && PredecessorsDone(dag, m.db, n) ensures n in added {
      EdgeMakesReady(dag, m.db, order[i], outputs, n);
    }
  }

  lemma FollowersAreBrought(dag: Dag, s: Sys, t: Sys, order: seq<NodeId>, i: nat, m: Sys, w: nat,
                            outputs: seq<Entry>)
    returns (u: Sys)
    requires Sound(dag, s) && IsPlan(dag, s, order) && Known(t) && Gently(dag, s, m)
    requires i < |order| && order[i] in Again(dag, s) && Progress(dag, s, t, order, i) && !IsTerminal(dag, order[i])
    requires Ran(dag, t, order, i, m, w, outputs)
    ensures Gently(dag, s, u) && Progress(dag, s, u, order, i + 1)
  {
    var added := {};
    GentlySound(dag, s, m);
    u, added := RowsAreBrought(dag, s, m, w);
    AllAreBrought(dag, s, t, order, i, m, w, outputs, added);
    assert u.workers - {w} == t.workers - {w};
    WorkersStaySettled(dag, t, order, i, m, w, outputs, u, added);
    ProgressGoesOn(dag, s, t, order, i, m.db, u, added, w);
  }

  ghost predicate CanProgress(dag: Dag, s: Sys, order: seq<NodeId>, i: nat)
    requires i <= |order|
  {
    exists t :: Gently(dag, s, t) && Progress(dag, s, t, order, i)
  }

  ghost predicate ComesTo(dag: Dag, s: Sys, order: seq<NodeId>, k: nat) {
    k <= |order| && CanProgress(dag, s, order, k)
  }

  lemma PlanGoesOn(dag: Dag, s: Sys, order: seq<NodeId>, i: nat)
    requires Sound(dag, s) && Satisfiable(dag) && IsPlan(dag, s, order) && Elements(order) <= Again(dag, s)
    requires i < |order|
    ensures ComesTo(dag, s, order, i) ==> ComesTo(dag, s, order, i + 1)
  {
    if t :| Gently(dag, s, t) && Progress(dag, s, t, order, i) {
      assert order[i] in Elements(order);
      var u := NextRuns(dag, s, t, order, i);
    }
  }

  /** When all have run a worker at a terminal node closes the run. */
  lemma EndCloses(dag: Dag, s: Sys, t: Sys) returns (u: Sys)
    requires Sound(dag, s) && Gently(dag, s, t) && HasEnd(dag, t) && UndoneNodes(dag, t.db) == {}
    ensures Gently(dag, s, u) && u.db.status == Succeeded
  {
    GentlySound(dag, s, t);
    var w :| w in t.workers && AtEnd(dag, t.workers[w]);
    assert FlatWorker(dag, t.workers[w]);
    DoneMeansAllDone(dag, t.db);
    assert WillClose(dag, t, w);
    ClosingDecision(dag, t, w, 0);
    GentlyStep(dag, s, t, AdvanceStep(w, 0));
    u := Apply(dag, t, AdvanceStep(w, 0));
    GentlyStep(dag, s, u, CloseStep(w));
    u := Apply(dag, u, CloseStep(w));
  }

  lemma PlanLeavesNothing(dag: Dag, s: Sys, t: Sys, order: seq<NodeId>)
    requires Elements(order) == Again(dag, s) && Progress(dag, s, t, order, |order|)
    ensures UndoneNodes(dag, t.db) == {}
  {
    forall n ensures n !in UndoneNodes(dag, t.db) {
      if n in Again(dag, s) {
        var j :| 0 <= j < |order| && order[j] == n;
        assert HasStatus(t.db, order[j], Succeeded);
      }
    }
  }

  lemma PlanStarts(dag: Dag, s: Sys, order: seq<NodeId>)
    requires Sound(dag, s) && IsPlan(dag, s, order) && s.db.status != Cancelled
    requires UndoneNodes(dag, s.db) <= Again(dag, s)
    ensures ComesTo(dag, s, order, 0)
  {
    var t := SettlingStarts(dag, s);
    t := WorkersSettle(dag, s, t);
    ProgressStarts(dag, s, t, order);
  }

  lemma PlanEnds(dag: Dag, s: Sys, order: seq<NodeId>) returns (u: Sys)
    requires Sound(dag, s) && CanRevive(dag, s) && Elements(order) == Again(dag, s)
    requires ComesTo(dag, s, order, |order|)
    ensures Gently(dag, s, u) && u.db.status == Succeeded
  {
    var t :| Gently(dag, s, t) && Progress(dag, s, t, order, |order|);
    PlanLeavesNothing(dag, s, t, order);
    if z :| z in Again(dag, s) && IsTerminal(dag, z) {
      var j :| 0 <= j < |order| && order[j] == z;
    }
    u := EndCloses(dag, s, t);
  }

  ghost function Course(dag: Dag, s: Sys, order: seq<NodeId>): nat -> bool {
    (k: nat) => ComesTo(dag, s, order, k)
  }

  lemma PlanIsOnward(dag: Dag, s: Sys, order: seq<NodeId>, k: nat)
    requires Sound(dag, s) && Satisfiable(dag) && IsPlan(dag, s, order) && Elements(order) <= Again(dag, s)
    requires k < |order|
    ensures Onward(Course(dag, s, order), k)
  {
    PlanGoesOn(dag, s, order, k);
  }

  lemma CourseIsRun(dag: Dag, s: Sys, order: seq<NodeId>, i: nat)
    requires forall k: nat | k < i :: Onward(Course(dag, s, order), k)
    requires ComesTo(dag, s, order, 0)
    ensures ComesTo(dag, s, order, i)
  {
    AllTheWay(Course(dag, s, order), 0, i);
  }

  /** A plan can be followed as far as one likes. */
  lemma PlanWorks(dag: Dag, s: Sys, order: seq<NodeId>, i: nat)
    requires Sound(dag, s) && Satisfiable(dag) && IsPlan(dag, s, order) && Elements(order) <= Again(dag, s)
    requires i <= |order| && ComesTo(dag, s, order, 0)
    ensures ComesTo(dag, s, order, i)
  {
    forall k: nat | k < i ensures Onward(Course(dag, s, order), k) { PlanIsOnward(dag, s, order, k); }
    CourseIsRun(dag, s, order, i);
  }

  lemma ReviveSucceeds(dag: Dag, s: Sys) returns (u: Sys)
    requires Sound(dag, s) && Satisfiable(dag) && CanRevive(dag, s) && s.db.status != Cancelled
    ensures Gently(dag, s, u) && u.db.status == Succeeded
  {
    assert Elements([]) == {};
    var order := RerunPlan(dag, s, []);
    PlanStarts(dag, s, order);
    PlanWorks(dag, s, order, |order|);
    u := PlanEnds(dag, s, order);
  }

  // ---- all executions --------------------------------------------------------------------------

  lemma StartSound(dag: Dag, now: int)
    requires WellFormed(dag)
    ensures Sound(dag, Start(dag, now))
  {}

  lemma ExecutionSound(dag: Dag, now: int, steps: seq<Step>, s: Sys)
    requires WellFormed(dag) && Execution(dag, now, steps, s)
    ensures Sound(dag, s)
  {
    StartSound(dag, now);
    SoundThen(dag, Start(dag, now), steps, s);
  }

  // ---- the decision to close -------------------------------------------------------------------

  /** In every interleaving of a well-formed graph, the decision to close is truthful, so that no continuation
      reports a success with a failed node, exactly when at that moment no job is left, be it a row, a worker with
      a job to finish or one with a row to enqueue; otherwise, unless the run is cancelled, a failure can come to
      be reported and overwritten. */
  lemma ClosingIsTruthfulIff(dag: Dag, now: int, steps: seq<Step>, s: Sys, w: nat)
    requires WellFormed(dag) && Execution(dag, now, steps, s) && w in s.workers && WillClose(dag, s, w)
    ensures var closing := GoTo(s, w, Closing);
            Enabled(dag, s, AdvanceStep(w, now)) && closing == Apply(dag, s, AdvanceStep(w, now))
            && (LiesLater(dag, closing) <==> HasWork(dag, closing))
            && (s.db.status != Cancelled ==> (BuriesFailure(dag, closing) <==> HasWork(dag, closing)))
  {
    var closing := GoTo(s, w, Closing);
    ExecutionSound(dag, now, steps, s);
    ClosingDecision(dag, s, w, now);
    FlatDone(dag, s);
    GoToKeepsRows(s, w, Closing);
    ClosedLiesIff(dag, closing, w);
    if s.db.status != Cancelled { FailureBuriedIff(dag, closing, w); }
  }

  /** No row is left, and no worker has one to enqueue. */
  predicate NothingLeft(dag: Dag, s: Sys) {
    s.db.queue == map[] && forall w | w in s.workers :: !WillEnqueue(dag, s, w)
  }

  /** While leases hold whoever is about a job has its row, so that the workers about one need no looking at. */
  lemma LeasedClosingIsTruthfulIff(dag: Dag, now: int, steps: seq<Step>, s: Sys, w: nat)
    requires WellFormed(dag) && Execution(dag, now, steps, s) && Leased(dag, now, steps)
    requires w in s.workers && WillClose(dag, s, w)
    ensures LiesLater(dag, GoTo(s, w, Closing)) <==> !NothingLeft(dag, GoTo(s, w, Closing))
  {
    var closing := GoTo(s, w, Closing);
    ClosingIsTruthfulIff(dag, now, steps, s, w);
    ExclusiveAlways(dag, now, steps, s);
    ExclusiveStep(dag, s, AdvanceStep(w, now));
  }

  // ---- the condition ---------------------------------------------------------------------------

  /** In every interleaving of a well-formed graph, whatever its conditions and whether leases hold or not: a run
      not succeeded never comes to be, and a failed one stays failed, unless a worker has decided to close it, or
      what can run again includes every node not done, and some terminal node or none while a worker at one has
      still to choose. */
  lemma NeverRevived(dag: Dag, now: int, steps: seq<Step>, s: Sys, t: Sys)
    requires WellFormed(dag) && Execution(dag, now, steps, s) && Reaches(dag, s, t)
    requires s.db.status != Succeeded && !SomeAt(s, Closing) && !CanRevive(dag, s)
    ensures t.db.status != Succeeded && (s.db.status == Failed ==> t.db.status == Failed)
  {
    ExecutionSound(dag, now, steps, s);
    WithinStart(dag, s);
    var more :| Exec(dag, s, more) == Some(t);
    WithinForEver(dag, s, more, t);
  }

  /** And if the conditions can be met together, this is exactly when: a run neither succeeded nor cancelled, failed
      or not, can still come to be marked succeeded. Sweeping rows of live workers makes no difference. */
  lemma RevivableIff(dag: Dag, now: int, steps: seq<Step>, s: Sys)
    requires WellFormed(dag) && Satisfiable(dag) && Execution(dag, now, steps, s)
    requires s.db.status != Succeeded && s.db.status != Cancelled
    ensures (exists t :: Reaches(dag, s, t) && t.db.status == Succeeded) <==> SomeAt(s, Closing) || CanRevive(dag, s)
    ensures (exists t :: Gently(dag, s, t) && t.db.status == Succeeded) <==> SomeAt(s, Closing) || CanRevive(dag, s)
  {
    if SomeAt(s, Closing) || CanRevive(dag, s) {
      var u := RevivedThen(dag, now, steps, s);
      GentlyReaches(dag, s, u);
    } else {
      forall t | Reaches(dag, s, t) ensures t.db.status != Succeeded { NeverRevived(dag, now, steps, s, t); }
      forall t | Gently(dag, s, t) ensures t.db.status != Succeeded { GentlyReaches(dag, s, t); }
    }
  }

  lemma RevivedThen(dag: Dag, now: int, steps: seq<Step>, s: Sys) returns (u: Sys)
    requires WellFormed(dag) && Satisfiable(dag) && Execution(dag, now, steps, s) && s.db.status != Cancelled
    requires SomeAt(s, Closing) || CanRevive(dag, s)
    ensures Gently(dag, s, u) && u.db.status == Succeeded
  {
    if CanRevive(dag, s) {
      ExecutionSound(dag, now, steps, s);
      u := ReviveSucceeds(dag, s);
    } else {
      var w :| w in s.workers && s.workers[w].phase == Closing;
      GentlyStays(dag, s);
      GentlyStep(dag, s, s, CloseStep(w));
      u := Apply(dag, s, CloseStep(w));
    }
  }

  /** In particular a failed run stays failed exactly when neither is the case. */
  lemma FailedStaysIff(dag: Dag, now: int, steps: seq<Step>, s: Sys)
    requires WellFormed(dag) && Satisfiable(dag) && Execution(dag, now, steps, s) && s.db.status == Failed
    ensures (forall t | Reaches(dag, s, t) :: t.db.status == Failed) <==> !SomeAt(s, Closing) && !CanRevive(dag, s)
  {
    RevivableIff(dag, now, steps, s);
    if !SomeAt(s, Closing) && !CanRevive(dag, s) {
      forall t | Reaches(dag, s, t) ensures t.db.status == Failed { NeverRevived(dag, now, steps, s, t); }
    }
  }
}
