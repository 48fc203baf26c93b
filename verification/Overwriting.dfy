/** When a terminal status of a run can still be overwritten: exact conditions on any state of the interleaved
    system, for any graph (services/workflow-worker/app/main.py). */
module Overwriting {
  import opened Json
  import opened Dag
  import opened RunStore
  import opened Interleaving
  import opened SerialRuns
  import opened Termination
  import opened LoopingRuns

  // ---- continuations ---------------------------------------------------------------------

  /** Some continuation leads from s to t. */
  ghost predicate Reaches(dag: Dag, s: Sys, t: Sys) { exists steps :: Exec(dag, s, steps) == Some(t) }

  ghost predicate Sparing(dag: Dag, s: Sys, steps: seq<Step>) {
    forall k | 0 <= k < |steps| :: var m := Exec(dag, s, steps[..k]); m.Some? ==> Spares(m.value, steps[k])
  }

  /** One that sweeps no row a worker still holds. */
  ghost predicate Gently(dag: Dag, s: Sys, t: Sys) {
    exists steps :: Exec(dag, s, steps) == Some(t) && Sparing(dag, s, steps)
  }

  lemma GentlyReaches(dag: Dag, s: Sys, t: Sys)
    requires Gently(dag, s, t)
    ensures Reaches(dag, s, t)
  {}

  lemma GentlyStays(dag: Dag, s: Sys)
    ensures Gently(dag, s, s)
  {
    assert Exec(dag, s, []) == Some(s) && Sparing(dag, s, []);
  }

  lemma GentlyStep(dag: Dag, s: Sys, t: Sys, step: Step)
    requires Gently(dag, s, t) && Enabled(dag, t, step) && Spares(t, step)
    ensures Gently(dag, s, Apply(dag, t, step))
  {
    var steps :| Exec(dag, s, steps) == Some(t) && Sparing(dag, s, steps);
    Extend(dag, s, steps, step);
    var longer := steps + [step];
    forall k | 0 <= k < |longer| && Exec(dag, s, longer[..k]).Some?
      ensures Spares(Exec(dag, s, longer[..k]).value, longer[k])
    {
      if k < |steps| {
        assert longer[..k] == steps[..k];
      } else {
        assert longer[..k] == steps;
      }
    }
    assert Sparing(dag, s, longer);
  }

  // ---- how a worker or a row comes to fail ---------------------------------------------------

  /** The worker's job can still be finalised as failed. */
  predicate CanFail(phase: Phase) {
    phase.Claimed? || phase.Rejecting? || phase.Admitted? || phase.Starting? || phase.Executing?
  }

  function StepsToFailure(phase: Phase): nat {
    match phase
    case Claimed => 2
    case Admitted => 3
    case Starting => 2
    case _ => 1
  }

  /** The step on its shortest way there. */
  function FailingStep(w: nat, phase: Phase): Step {
    match phase
    case Claimed => FetchStep(w, false)
    case Admitted => StartNodeStep(w)
    case Starting => StartRunStep(w)
    case Executing => FailStep(w)
    case _ => RejectStep(w)
  }

  ghost predicate HasFailed(db: Db) { exists key | key in db.runNodes :: db.runNodes[key] == Failed }

  /** t is like s but that worker w has finalised its job as failed and is about to report it. */
  ghost predicate JustFailed(s: Sys, t: Sys, w: nat) {
    At(t, w, Reporting) && t.workers - {w} == s.workers - {w} && t.db.status != Cancelled
    && (s.db.status == Succeeded ==> t.db.status == Succeeded)
    && w in s.workers && t.log == s.log + [Final(s.workers[w].job, Failed)]
  }

  lemma FailingMove(dag: Dag, t: Sys, w: nat)
    requires w in t.workers && CanFail(t.workers[w].phase) && t.db.status != Cancelled
    ensures var phase := t.workers[w].phase;
            var step := FailingStep(w, phase);
            Enabled(dag, t, step) && Spares(t, step)
            && var u := Apply(dag, t, step);
               w in u.workers && u.workers - {w} == t.workers - {w} && u.workers[w].job == t.workers[w].job
               && t.db.runNodes.Keys == u.db.runNodes.Keys
               && u.db.status != Cancelled && (t.db.status == Succeeded ==> u.db.status == Succeeded)
               && u.log == (if StepsToFailure(phase) == 1 then t.log + [Final(t.workers[w].job, Failed)] else t.log)
               && if StepsToFailure(phase) == 1 then At(u, w, Reporting)
                  else CanFail(u.workers[w].phase) && StepsToFailure(u.workers[w].phase) < StepsToFailure(phase)
  {}

  lemma FinalMove(dag: Dag, t: Sys, w: nat)
    requires w in t.workers && (t.workers[w].phase.Rejecting? || t.workers[w].phase.Executing?)
    requires (t.workers[w].job.node, t.workers[w].job.iteration) in t.db.runNodes
    ensures HasFailed(Apply(dag, t, FailingStep(w, t.workers[w].phase)).db)
  {
    var u := Apply(dag, t, FailingStep(w, t.workers[w].phase));
    assert u.db.runNodes[(t.workers[w].job.node, t.workers[w].job.iteration)] == Failed;
  }

  /** Unless the run is cancelled such a worker can be led to fail, the others standing still. */
  lemma {:induction false} WorkerFails(dag: Dag, s: Sys, t: Sys, w: nat) returns (u: Sys)
    requires Gently(dag, s, t) && w in t.workers && CanFail(t.workers[w].phase) && t.db.status != Cancelled
    ensures Gently(dag, s, u) && JustFailed(t, u, w)
    ensures (t.workers[w].job.node, t.workers[w].job.iteration) in t.db.runNodes ==> HasFailed(u.db)
    decreases StepsToFailure(t.workers[w].phase)
  {
    var phase := t.workers[w].phase;
    FailingMove(dag, t, w);
    var next := Apply(dag, t, FailingStep(w, phase));
    GentlyStep(dag, s, t, FailingStep(w, phase));
    if StepsToFailure(phase) == 1 {
      u := next;
      if (t.workers[w].job.node, t.workers[w].job.iteration) in t.db.runNodes { FinalMove(dag, t, w); }
    } else {
      u := WorkerFails(dag, s, next, w);
    }
  }

  lemma LossTwice(workers: map<nat, Worker>, gone: set<nat>, v: nat)
    requires v in gone
    ensures (workers - {v}) - (gone - {v}) == workers - gone
  {}

  /** The workers in `gone` crash. */
  lemma {:induction false} TheyCrash(dag: Dag, s: Sys, t: Sys, gone: set<nat>)
    requires Gently(dag, s, t) && gone <= t.workers.Keys
    ensures Gently(dag, s, t.(workers := t.workers - gone))
    decreases gone
  {
    if gone == {} {
      assert t.workers - gone == t.workers;
    } else {
      var v :| v in gone;
      GentlyStep(dag, s, t, CrashStep(v));
      TheyCrash(dag, s, Leave(t, v), gone - {v});
      LossTwice(t.workers, gone, v);
    }
  }

  predicate SameRow(a: Db, b: Db, id: nat) {
    id in a.queue && id in b.queue && a.queue[id].node == b.queue[id].node
      && a.queue[id].iteration == b.queue[id].iteration
  }

  /** No worker holds a row of the queue, and the next worker is new. */
  predicate NoneHolds(s: Sys) {
    s.nextWorker !in s.workers
    && forall w | w in s.workers && Holding(s.workers[w].phase) :: s.workers[w].job.id !in s.db.queue
  }

  /** A sweep late enough gives it back. */
  lemma RowIsReleased(dag: Dag, s: Sys, t: Sys, id: nat) returns (u: Sys, late: int)
    requires Gently(dag, s, t) && NoneHolds(t) && id in t.db.queue
    ensures Gently(dag, s, u) && u.workers == t.workers && u.nextWorker == t.nextWorker
    ensures u.db.runNodes == t.db.runNodes && u.db.status == t.db.status && u.db.queue.Keys == t.db.queue.Keys
    ensures u.db.nextId == t.db.nextId && forall other :: other in u.db.queue ==> SameRow(t.db, u.db, other)
    ensures u.db.queue[id] == t.db.queue[id].(claim := None)
  {
    var row := t.db.queue[id];
    late := if row.claim.Some? then row.claim.value.expires + 1 else 0;
    GentlyStep(dag, s, t, SweepStep(late));
    u := Apply(dag, t, SweepStep(late));
  }

  /** A row of the queue can be claimed again once nobody holds it. */
  lemma RowIsHeld(dag: Dag, s: Sys, t: Sys, id: nat) returns (u: Sys)
    requires Gently(dag, s, t) && NoneHolds(t) && id in t.db.queue
    ensures Gently(dag, s, u) && u.workers == t.workers[t.nextWorker := Worker(JobOf(t.db, id), Claimed)]
    ensures u.db.runNodes == t.db.runNodes && u.db.status == t.db.status && u.db.queue.Keys == t.db.queue.Keys
    ensures u.db.nextId == t.db.nextId && forall other :: other in u.db.queue ==> SameRow(t.db, u.db, other)
  {
    var m, late := RowIsReleased(dag, s, t, id);
    var since := t.db.queue[id].availableAt;
    var claim := ClaimStep(id, "worker", if since < late then late else since, 0);
    GentlyStep(dag, s, m, claim);
    u := Apply(dag, m, claim);
  }

  // ---- a success overwritten ---------------------------------------------------------------

  /** Worker w will put a row into the queue. */
  predicate WillEnqueue(dag: Dag, s: Sys, w: nat)
    requires w in s.workers
  {
    var job := s.workers[w].job;
    match s.workers[w].phase
    case Finished(outputs) =>
      Declared(dag, job.node)
      && (ShouldLoop(FindNode(dag.nodes, job.node).value, outputs, job.iteration)
          || ReadySuccessors(dag, job.node, NodeState(s.db), outputs) != [])
    case Scheduling(todo) => todo != []
    case _ => false
  }

  /** Some job is still to be done: a row is queued, a worker is about one, or will enqueue one. */
  predicate HasWork(dag: Dag, s: Sys) {
    s.db.queue != map[]
    || exists w | w in s.workers :: CanFail(s.workers[w].phase) || WillEnqueue(dag, s, w)
  }

  predicate SomeAt(s: Sys, phase: Phase) { exists w | w in s.workers :: s.workers[w].phase == phase }

  /** Every job about has its node row. */
  predicate RowsKnown(s: Sys) {
    (forall id | id in s.db.queue :: (s.db.queue[id].node, s.db.queue[id].iteration) in s.db.runNodes)
    && forall w | w in s.workers :: (s.workers[w].job.node, s.workers[w].job.iteration) in s.db.runNodes
  }

  /** u has a row queued, and is otherwise like t but for worker w, who holds none. */
  ghost predicate GotQueued(t: Sys, u: Sys, w: nat) {
    u.db.queue != map[] && u.db.status == t.db.status && (RowsKnown(t) ==> RowsKnown(u))
    && u.workers - {w} == t.workers - {w} && u.nextWorker == t.nextWorker
    && (w in u.workers ==> u.workers[w].phase.Scheduling?)
  }

  lemma EnqueueQueues(t: Sys, w: nat)
    requires w in t.workers && t.workers[w].phase.Scheduling? && t.workers[w].phase.todo != []
    ensures GotQueued(t, EnqueueBy(t, w, 0), w)
  {
    var u := EnqueueBy(t, w, 0);
    assert t.db.nextId in u.db.queue;
    forall id | id in u.db.queue
      ensures (u.db.queue[id].node, u.db.queue[id].iteration) in u.db.runNodes || !RowsKnown(t)
    {
      assert id != t.db.nextId ==> u.db.queue[id] == t.db.queue[id];
    }
  }

  lemma TodoIsQueued(dag: Dag, s: Sys, t: Sys, w: nat) returns (u: Sys)
    requires Gently(dag, s, t) && w in t.workers && t.workers[w].phase.Scheduling? && t.workers[w].phase.todo != []
    ensures Gently(dag, s, u) && GotQueued(t, u, w)
  {
    GentlyStep(dag, s, t, EnqueueStep(w, 0));
    u := Apply(dag, t, EnqueueStep(w, 0));
    EnqueueQueues(t, w);
  }

  lemma LoopQueues(t: Sys, w: nat)
    requires w in t.workers
    ensures GotQueued(t, LoopBy(t, w, 0), w)
  {
    var u := LoopBy(t, w, 0);
    assert t.db.nextId in u.db.queue;
    forall id | id in u.db.queue
      ensures (u.db.queue[id].node, u.db.queue[id].iteration) in u.db.runNodes || !RowsKnown(t)
    {
      assert id != t.db.nextId ==> u.db.queue[id] == t.db.queue[id];
    }
  }

  /** A finished worker that will enqueue has queued its next iteration or holds a list after its next step. */
  lemma FinishedGoesOn(dag: Dag, t: Sys, w: nat)
    requires w in t.workers && t.workers[w].phase.Finished? && WillEnqueue(dag, t, w)
    ensures Enabled(dag, t, AdvanceStep(w, 0))
    ensures var u := Apply(dag, t, AdvanceStep(w, 0));
            if w in u.workers then
              u == GoTo(t, w, u.workers[w].phase) && u.workers[w].phase.Scheduling? && u.workers[w].phase.todo != []
            else u == LoopBy(t, w, 0)
  {}

  lemma GoToKeepsRows(t: Sys, w: nat, phase: Phase)
    requires w in t.workers
    ensures RowsKnown(t) ==> RowsKnown(GoTo(t, w, phase))
    ensures GoTo(t, w, phase).workers - {w} == t.workers - {w}
  {}

  /** A worker that will enqueue does so. */
  lemma WorkIsQueued(dag: Dag, s: Sys, t: Sys, w: nat) returns (u: Sys)
    requires Gently(dag, s, t) && w in t.workers && WillEnqueue(dag, t, w)
    ensures Gently(dag, s, u) && GotQueued(t, u, w)
  {
    if t.workers[w].phase.Finished? {
      FinishedGoesOn(dag, t, w);
      GentlyStep(dag, s, t, AdvanceStep(w, 0));
      var m := Apply(dag, t, AdvanceStep(w, 0));
      if w in m.workers {
        GoToKeepsRows(t, w, m.workers[w].phase);
        u := TodoIsQueued(dag, s, m, w);
      } else {
        LoopQueues(t, w);
        u := m;
      }
    } else {
      u := TodoIsQueued(dag, s, t, w);
    }
  }

  /** The workers in `keep` are past their jobs and numbered before the next. */
  predicate AreBystanders(dag: Dag, t: Sys, keep: set<nat>) {
    forall w | w in keep ::
      w in t.workers && w < t.nextWorker && !Holding(t.workers[w].phase) && !WillEnqueue(dag, t, w)
  }

  /** u has a failure about to be reported by worker v, and the bystanders stand as in t. */
  ghost predicate FailedBeside(t: Sys, u: Sys, v: nat, keep: set<nat>) {
    At(u, v, Reporting) && v !in keep && u.db.status != Cancelled
    && (t.db.status == Succeeded ==> u.db.status == Succeeded)
    && (RowsKnown(t) ==> HasFailed(u.db))
    && forall w | w in keep :: w in t.workers && w in u.workers && u.workers[w] == t.workers[w]
  }

  /** A queued row of a run that is not cancelled can be led to fail, bystanders standing by. */
  lemma QueueFails(dag: Dag, s: Sys, t: Sys, keep: set<nat>) returns (u: Sys, v: nat)
    requires Gently(dag, s, t) && t.db.queue != map[] && t.db.status != Cancelled
    requires forall w | w in keep :: w in t.workers && w < t.nextWorker && !Holding(t.workers[w].phase)
    ensures Gently(dag, s, u) && FailedBeside(t, u, v, keep)
  {
    var gone := t.workers.Keys - keep;
    TheyCrash(dag, s, t, gone);
    var alone := t.(workers := t.workers - gone);
    var id :| id in t.db.queue;
    v := t.nextWorker;
    var m := RowIsHeld(dag, s, alone, id);
    u := WorkerFails(dag, s, m, v);
    forall w | w in keep ensures w in u.workers && u.workers[w] == t.workers[w] {
      assert w in alone.workers && w in m.workers - {v} && w in u.workers - {v};
    }
  }

  lemma WorkerFailsBeside(dag: Dag, s: Sys, t: Sys, v: nat, keep: set<nat>) returns (u: Sys)
    requires Gently(dag, s, t) && v in t.workers && CanFail(t.workers[v].phase) && t.db.status != Cancelled
    requires AreBystanders(dag, t, keep)
    ensures Gently(dag, s, u) && FailedBeside(t, u, v, keep)
  {
    u := WorkerFails(dag, s, t, v);
    forall w | w in keep ensures w in u.workers && u.workers[w] == t.workers[w] {
      assert w in t.workers - {v} && w in u.workers - {v};
    }
  }

  /** Work that is left can be led to fail, bystanders standing by. */
  lemma WorkFails(dag: Dag, s: Sys, t: Sys, keep: set<nat>) returns (u: Sys, v: nat)
    requires Gently(dag, s, t) && HasWork(dag, t) && t.db.status != Cancelled && AreBystanders(dag, t, keep)
    ensures Gently(dag, s, u) && FailedBeside(t, u, v, keep)
  {
    if t.db.queue != map[] {
      u, v := QueueFails(dag, s, t, keep);
    } else {
      v :| v in t.workers && (CanFail(t.workers[v].phase) || WillEnqueue(dag, t, v));
      if CanFail(t.workers[v].phase) {
        u := WorkerFailsBeside(dag, s, t, v, keep);
      } else {
        var m := WorkIsQueued(dag, s, t, v);
        forall w | w in keep ensures w in m.workers && m.workers[w] == t.workers[w] {
          assert w != v && w in t.workers - {v} && w in m.workers - {v};
        }
        u, v := QueueFails(dag, s, m, keep);
      }
    }
  }

  /** Nothing is left to be done and nobody is about to report a failure. */
  ghost predicate IsQuiet(dag: Dag, s: Sys) { !HasWork(dag, s) && !SomeAt(s, Reporting) }

  lemma QuietAdvance(dag: Dag, s: Sys, w: nat, now: int)
    requires !HasWork(dag, s) && Enabled(dag, s, AdvanceStep(w, now))
    ensures var t := Apply(dag, s, AdvanceStep(w, now));
            t.db == s.db && (t == Leave(s, w) || t == GoTo(s, w, Closing))
  {
    assert !WillEnqueue(dag, s, w);
  }

  /** With nothing left to do, steps only let workers go, close, or report. */
  lemma IdleStep(dag: Dag, s: Sys, step: Step)
    requires !HasWork(dag, s) && Enabled(dag, s, step)
    ensures var t := Apply(dag, s, step);
            t.db.runNodes == s.db.runNodes && t.db.queue == map[]
            && t.workers.Keys <= s.workers.Keys
            && forall v | v in t.workers :: t.workers[v] == s.workers[v] || t.workers[v].phase == Closing
  {
    var t := Apply(dag, s, step);
    if step.AdvanceStep? {
      QuietAdvance(dag, s, step.w, step.now);
    } else if step.SweepStep? || step.DiscardStep? {
      assert t.db.queue == map[];
    }
  }

  lemma IdleKept(dag: Dag, s: Sys, step: Step)
    requires !HasWork(dag, s) && Enabled(dag, s, step)
    ensures !HasWork(dag, Apply(dag, s, step))
    ensures IsQuiet(dag, s) ==> IsQuiet(dag, Apply(dag, s, step))
  {
    var t := Apply(dag, s, step);
    IdleStep(dag, s, step);
    assert NodeState(t.db) == NodeState(s.db);
    forall v | v in t.workers ensures !CanFail(t.workers[v].phase) && !WillEnqueue(dag, t, v) {
      assert t.workers[v] == s.workers[v] ==> (WillEnqueue(dag, t, v) <==> WillEnqueue(dag, s, v));
    }
  }

  /** What has no work left never gets any, and its rows stay as they are. */
  lemma {:induction false} IdleForEver(dag: Dag, s: Sys, steps: seq<Step>, t: Sys)
    requires !HasWork(dag, s) && Exec(dag, s, steps) == Some(t)
    ensures !HasWork(dag, t) && t.db.runNodes == s.db.runNodes
    ensures IsQuiet(dag, s) ==> IsQuiet(dag, t)
    decreases |steps|
  {
    if steps != [] {
      var m := Exec(dag, s, steps[..|steps| - 1]).value;
      IdleForEver(dag, s, steps[..|steps| - 1], m);
      IdleStep(dag, m, steps[|steps| - 1]);
      IdleKept(dag, m, steps[|steps| - 1]);
    }
  }

  lemma QuietSuccessStep(dag: Dag, s: Sys, step: Step)
    requires IsQuiet(dag, s) && s.db.status == Succeeded && Enabled(dag, s, step)
    ensures Apply(dag, s, step).db.status == Succeeded
  {}

  lemma {:induction false} QuietSuccessStays(dag: Dag, s: Sys, steps: seq<Step>, t: Sys)
    requires IsQuiet(dag, s) && s.db.status == Succeeded && Exec(dag, s, steps) == Some(t)
    ensures t.db.status == Succeeded
    decreases |steps|
  {
    if steps != [] {
      var m := Exec(dag, s, steps[..|steps| - 1]).value;
      IdleForEver(dag, s, steps[..|steps| - 1], m);
      QuietSuccessStays(dag, s, steps[..|steps| - 1], m);
      QuietSuccessStep(dag, m, steps[|steps| - 1]);
    }
  }

  /** A run marked succeeded can still become anything else, namely failed, exactly when some job is still to
      be done or a failure to be reported; sparing the rows of live workers makes no difference. */
  lemma SuccessOverwrittenIff(dag: Dag, s: Sys)
    requires s.db.status == Succeeded
    ensures (exists t :: Reaches(dag, s, t) && t.db.status != Succeeded) <==> HasWork(dag, s) || SomeAt(s, Reporting)
    ensures (exists t :: Gently(dag, s, t) && t.db.status == Failed) <==> HasWork(dag, s) || SomeAt(s, Reporting)
  {
    if HasWork(dag, s) || SomeAt(s, Reporting) {
      var u, w := s, 0;
      GentlyStays(dag, s);
      if HasWork(dag, s) {
        u, w := WorkFails(dag, s, s, {});
      } else {
        w :| w in s.workers && s.workers[w].phase == Reporting;
      }
      GentlyStep(dag, s, u, ReportStep(w));
      var t := Apply(dag, u, ReportStep(w));
      GentlyReaches(dag, s, t);
    } else {
      forall t | Reaches(dag, s, t) ensures t.db.status == Succeeded {
        var steps :| Exec(dag, s, steps) == Some(t);
        QuietSuccessStays(dag, s, steps, t);
      }
    }
  }

  // ---- a cancellation overwritten -----------------------------------------------------------

  /** The worker's next step decides to close the run. */
  predicate WillClose(dag: Dag, s: Sys, w: nat)
    requires w in s.workers
  {
    var job := s.workers[w].job;
    match s.workers[w].phase
    case Finished(outputs) =>
      Declared(dag, job.node)
      && !ShouldLoop(FindNode(dag.nodes, job.node).value, outputs, job.iteration)
      && IsTerminal(dag, job.node) && AllDone(dag, NodeState(s.db))
    case _ => false
  }

  /** A worker that has read the run before it was cancelled, and has yet to write a status. */
  predicate Threatens(dag: Dag, s: Sys, w: nat)
    requires w in s.workers
  {
    var phase := s.workers[w].phase;
    (CanFail(phase) && !phase.Claimed?) || phase.Reporting? || phase.Closing? || WillClose(dag, s, w)
  }

  predicate IsThreatened(dag: Dag, s: Sys) { exists w | w in s.workers :: Threatens(dag, s, w) }

  lemma ClosingDecision(dag: Dag, s: Sys, w: nat, now: int)
    requires Enabled(dag, s, AdvanceStep(w, now))
    ensures WillClose(dag, s, w) <==> At(Apply(dag, s, AdvanceStep(w, now)), w, Closing)
    ensures WillClose(dag, s, w) ==> Apply(dag, s, AdvanceStep(w, now)) == GoTo(s, w, Closing)
  {
    var Worker(job, Finished(outputs)) := s.workers[w];
    if IsTerminal(dag, job.node) { TerminalHasNoneReady(dag, job.node, NodeState(s.db), outputs); }
  }

  /** A threat can be carried out. */
  lemma ThreatCarriedOut(dag: Dag, s: Sys, w: nat) returns (t: Sys)
    requires s.db.status == Cancelled && w in s.workers && Threatens(dag, s, w)
    ensures Gently(dag, s, t) && t.db.status != Cancelled
  {
    GentlyStays(dag, s);
    var phase := s.workers[w].phase;
    if CanFail(phase) {
      t := StartedReports(dag, s, s, w);
    } else if phase.Reporting? {
      GentlyStep(dag, s, s, ReportStep(w));
      t := Apply(dag, s, ReportStep(w));
    } else {
      t := s;
      if phase.Finished? {
        ClosingDecision(dag, s, w, 0);
        GentlyStep(dag, s, s, AdvanceStep(w, 0));
        t := Apply(dag, s, AdvanceStep(w, 0));
      }
      GentlyStep(dag, s, t, CloseStep(w));
      t := Apply(dag, t, CloseStep(w));
    }
  }

  /** Past the reading of the run a worker does not ask for its status again. */
  lemma {:induction false} StartedReports(dag: Dag, s: Sys, t: Sys, w: nat) returns (u: Sys)
    requires Gently(dag, s, t) && w in t.workers
    requires (CanFail(t.workers[w].phase) && !t.workers[w].phase.Claimed?) || t.workers[w].phase.Reporting?
    ensures Gently(dag, s, u) && u.db.status == Failed
    decreases if t.workers[w].phase.Reporting? then 0 else StepsToFailure(t.workers[w].phase)
  {
    var phase := t.workers[w].phase;
    var step := if phase.Reporting? then ReportStep(w) else FailingStep(w, phase);
    GentlyStep(dag, s, t, step);
    u := Apply(dag, t, step);
    if !phase.Reporting? { u := StartedReports(dag, s, u, w); }
  }

  /** A further row of iteration 0 or later makes no node look succeeded. */
  lemma EnqueueUndoes(dag: Dag, db: Db, n: NodeId, iteration: nat, now: int)
    requires AllDone(dag, NodeState(Enqueue(db, n, iteration, now)))
    ensures AllDone(dag, NodeState(db))
  {
    var m := Enqueue(db, n, iteration, now);
    forall i | 0 <= i < |dag.nodes| && dag.nodes[i].id in NodeState(db)
      ensures NodeState(db)[dag.nodes[i].id] == Succeeded
    {
      var key := (dag.nodes[i].id, 0);
      assert key in db.runNodes && key in m.runNodes && m.runNodes[key] == db.runNodes[key];
      assert dag.nodes[i].id in NodeState(m);
    }
  }

  /** No more nodes look succeeded, and workers stand as they did or cannot write a status. */
  ghost predicate Calms(dag: Dag, s: Sys, t: Sys) {
    t.db.status == Cancelled
    && (AllDone(dag, NodeState(t.db)) ==> AllDone(dag, NodeState(s.db)))
    && forall v | v in t.workers :: Unchanged(s, t, v) || Idle(t.workers[v].phase)
  }

  predicate Unchanged(s: Sys, t: Sys, v: nat)
    requires v in t.workers
  {
    v in s.workers && t.workers[v] == s.workers[v]
  }

  predicate Idle(phase: Phase) { phase.Claimed? || phase.Skipping? || phase.Scheduling? }

  lemma CalmAdvance(dag: Dag, s: Sys, w: nat, now: int)
    requires s.db.status == Cancelled && Enabled(dag, s, AdvanceStep(w, now)) && !WillClose(dag, s, w)
    ensures Calms(dag, s, Apply(dag, s, AdvanceStep(w, now)))
  {
    var Worker(job, Finished(outputs)) := s.workers[w];
    if ShouldLoop(FindNode(dag.nodes, job.node).value, outputs, job.iteration) {
      CalmLoop(dag, s, w, now);
    } else {
      ClosingDecision(dag, s, w, now);
    }
  }

  lemma CalmLoop(dag: Dag, s: Sys, w: nat, now: int)
    requires s.db.status == Cancelled && w in s.workers
    ensures Calms(dag, s, LoopBy(s, w, now))
  {
    var job := s.workers[w].job;
    var looped := Enqueue(s.db, job.node, job.iteration + 1, now);
    if AllDone(dag, NodeState(looped)) { EnqueueUndoes(dag, s.db, job.node, job.iteration + 1, now); }
  }

  lemma CalmEnqueue(dag: Dag, s: Sys, w: nat, now: int)
    requires s.db.status == Cancelled && Enabled(dag, s, EnqueueStep(w, now))
    ensures Calms(dag, s, Apply(dag, s, EnqueueStep(w, now)))
  {
    var n := s.workers[w].phase.todo[0];
    if AllDone(dag, NodeState(Enqueue(s.db, n, 0, now))) { EnqueueUndoes(dag, s.db, n, 0, now); }
  }

  lemma CalmRest(dag: Dag, s: Sys, step: Step)
    requires s.db.status == Cancelled && Enabled(dag, s, step)
    requires step.ClaimStep? || step.FetchStep? || step.DiscardStep? || step.SweepStep? || step.CrashStep?
             || step.CancelStep?
    ensures Calms(dag, s, Apply(dag, s, step))
  {
    assert NodeState(Apply(dag, s, step).db) == NodeState(s.db);
  }

  /** Of an unthreatened cancelled run a step enqueues at most, and changes no status. */
  lemma CalmStep(dag: Dag, s: Sys, step: Step)
    requires s.db.status == Cancelled && !IsThreatened(dag, s) && Enabled(dag, s, step)
    ensures Calms(dag, s, Apply(dag, s, step))
  {
    if step.ClaimStep? || step.FetchStep? || step.DiscardStep? || step.SweepStep? || step.CrashStep?
       || step.CancelStep? {
      CalmRest(dag, s, step);
    } else {
      assert !Threatens(dag, s, step.w);
      if step.AdvanceStep? { CalmAdvance(dag, s, step.w, step.now); }
      if step.EnqueueStep? { CalmEnqueue(dag, s, step.w, step.now); }
    }
  }

  lemma ThreatFades(dag: Dag, s: Sys, t: Sys, v: nat)
    requires Calms(dag, s, t) && v in t.workers && !IsThreatened(dag, s)
    ensures !Threatens(dag, t, v)
  {
    if Unchanged(s, t, v) { assert !Threatens(dag, s, v); }
  }

  lemma CalmKept(dag: Dag, s: Sys, step: Step)
    requires s.db.status == Cancelled && !IsThreatened(dag, s) && Enabled(dag, s, step)
    ensures Apply(dag, s, step).db.status == Cancelled && !IsThreatened(dag, Apply(dag, s, step))
  {
    var t := Apply(dag, s, step);
    CalmStep(dag, s, step);
    forall v | v in t.workers ensures !Threatens(dag, t, v) { ThreatFades(dag, s, t, v); }
  }

  lemma {:induction false} CalmForEver(dag: Dag, s: Sys, steps: seq<Step>, t: Sys)
    requires s.db.status == Cancelled && !IsThreatened(dag, s) && Exec(dag, s, steps) == Some(t)
    ensures t.db.status == Cancelled && !IsThreatened(dag, t)
    decreases |steps|
  {
    if steps != [] {
      var m := Exec(dag, s, steps[..|steps| - 1]).value;
      CalmForEver(dag, s, steps[..|steps| - 1], m);
      CalmKept(dag, m, steps[|steps| - 1]);
    }
  }

  /** A cancelled run stays cancelled in every continuation exactly when no worker is past reading the run
      without having written its outcome; finished workers count if their next step would close the run now. */
  lemma CancelOverwrittenIff(dag: Dag, s: Sys)
    requires s.db.status == Cancelled
    ensures (exists t :: Reaches(dag, s, t) && t.db.status != Cancelled) <==> IsThreatened(dag, s)
  {
    if IsThreatened(dag, s) {
      var w :| w in s.workers && Threatens(dag, s, w);
      var t := ThreatCarriedOut(dag, s, w);
      GentlyReaches(dag, s, t);
    } else {
      forall t | Reaches(dag, s, t) ensures t.db.status == Cancelled {
        var steps :| Exec(dag, s, steps) == Some(t);
        CalmForEver(dag, s, steps, t);
      }
    }
  }

  // ---- a failure overwritten -------------------------------------------------------------------

  ghost predicate AllRowsSucceeded(db: Db) { forall key | key in db.runNodes :: db.runNodes[key] == Succeeded }

  /** From s on a failure is reported and then overwritten by a success, the failed row still there. */
  ghost predicate BuriesFailure(dag: Dag, s: Sys) {
    exists m, u :: Gently(dag, s, m) && m.db.status == Failed && Reaches(dag, m, u)
                   && u.db.status == Succeeded && HasFailed(u.db)
  }

  /** A worker that has decided to close buries a failure exactly when some job was still to be done. */
  lemma FailureBuriedIff(dag: Dag, s: Sys, w: nat)
    requires At(s, w, Closing) && w < s.nextWorker && s.db.status != Cancelled
    requires RowsKnown(s) && AllRowsSucceeded(s.db)
    ensures BuriesFailure(dag, s) <==> HasWork(dag, s)
  {
    if HasWork(dag, s) {
      GentlyStays(dag, s);
      var u, v := WorkFails(dag, s, s, {w});
      GentlyStep(dag, s, u, ReportStep(v));
      var m := Apply(dag, u, ReportStep(v));
      assert m.db.runNodes == u.db.runNodes;
      GentlyStays(dag, m);
      GentlyStep(dag, m, m, CloseStep(w));
      var t := Apply(dag, m, CloseStep(w));
      GentlyReaches(dag, m, t);
      assert t.db.runNodes == u.db.runNodes && HasFailed(t.db);
    } else if BuriesFailure(dag, s) {
      var m, u :| Gently(dag, s, m) && m.db.status == Failed && Reaches(dag, m, u)
                  && u.db.status == Succeeded && HasFailed(u.db);
      var first :| Exec(dag, s, first) == Some(m) && Sparing(dag, s, first);
      IdleForEver(dag, s, first, m);
      var then' :| Exec(dag, m, then') == Some(u);
      IdleForEver(dag, m, then', u);
    }
  }

  /** A success is reported, or has been, of a run in which a node has failed. */
  ghost predicate LiesLater(dag: Dag, s: Sys) {
    exists u :: Reaches(dag, s, u) && u.db.status == Succeeded && HasFailed(u.db)
  }

  lemma ClosedLiesIff(dag: Dag, s: Sys, w: nat)
    requires At(s, w, Closing) && RowsKnown(s) && AllRowsSucceeded(s.db)
    ensures LiesLater(dag, s) <==> HasWork(dag, s)
  {
    if HasWork(dag, s) {
      GentlyStays(dag, s);
      GentlyStep(dag, s, s, CloseStep(w));
      var closed := Apply(dag, s, CloseStep(w));
      WorkOutlivesClosing(dag, s, w);
      var u, v := WorkFails(dag, s, closed, {});
      GentlyReaches(dag, s, u);
    } else if LiesLater(dag, s) {
      var u :| Reaches(dag, s, u) && u.db.status == Succeeded && HasFailed(u.db);
      var steps :| Exec(dag, s, steps) == Some(u);
      IdleForEver(dag, s, steps, u);
    }
  }

  lemma WorkOutlivesClosing(dag: Dag, s: Sys, w: nat)
    requires At(s, w, Closing) && HasWork(dag, s) && RowsKnown(s)
    ensures HasWork(dag, Apply(dag, s, CloseStep(w))) && RowsKnown(Apply(dag, s, CloseStep(w)))
  {
    var t := Apply(dag, s, CloseStep(w));
    assert NodeState(t.db) == NodeState(s.db);
    if s.db.queue == map[] {
      var v :| v in s.workers && (CanFail(s.workers[v].phase) || WillEnqueue(dag, s, v));
      assert v in t.workers && t.workers[v] == s.workers[v] && (WillEnqueue(dag, t, v) <==> WillEnqueue(dag, s, v));
    }
  }

  // ---- rows and jobs of iteration 0 -------------------------------------------------------------------

  /** All rows and jobs are of declared nodes and of iteration 0. */
  ghost predicate Flat(dag: Dag, s: Sys) {
    (forall key | key in s.db.runNodes :: key.1 == 0 && Declared(dag, key.0))
    && (forall id | id in s.db.queue :: s.db.queue[id].iteration == 0 && Declared(dag, s.db.queue[id].node))
    && forall w | w in s.workers :: FlatWorker(dag, s.workers[w])
  }

  ghost predicate FlatWorker(dag: Dag, worker: Worker) {
    worker.job.iteration == 0 && Declared(dag, worker.job.node)
    && (worker.phase.Scheduling? ==> forall n | n in worker.phase.todo :: Declared(dag, n))
  }

  lemma FlatSnapshot(dag: Dag, s: Sys, w: nat, now: int)
    requires WellFormed(dag) && Flat(dag, s) && Enabled(dag, s, AdvanceStep(w, now))
    ensures Flat(dag, Apply(dag, s, AdvanceStep(w, now)))
  {
    var Worker(job, Finished(outputs)) := s.workers[w];
    assert !ShouldLoop(FindNode(dag.nodes, job.node).value, outputs, job.iteration);
    assert EdgesDeclared(dag);
    ReadyAreDeclared(dag, job.node, NodeState(s.db), outputs);
    assert FlatWorker(dag, s.workers[w]);
  }

  lemma FlatEnqueue(dag: Dag, s: Sys, w: nat, now: int)
    requires Flat(dag, s) && Enabled(dag, s, EnqueueStep(w, now))
    ensures Flat(dag, Apply(dag, s, EnqueueStep(w, now)))
  {
    var todo := s.workers[w].phase.todo;
    assert FlatWorker(dag, s.workers[w]) && todo[0] in todo;
    assert forall n | n in todo[1..] :: n in todo;
  }

  lemma FlatClaim(dag: Dag, s: Sys, step: Step)
    requires Flat(dag, s) && Enabled(dag, s, step) && step.ClaimStep?
    ensures Flat(dag, Apply(dag, s, step))
  {}

  lemma FlatMove(dag: Dag, s: Sys, step: Step)
    requires Flat(dag, s) && Enabled(dag, s, step)
    requires !step.AdvanceStep? && !step.EnqueueStep? && !step.ClaimStep?
    ensures Flat(dag, Apply(dag, s, step))
  {
    var t := Apply(dag, s, step);
    assert t.db.runNodes.Keys == s.db.runNodes.Keys;
    forall v | v in t.workers ensures FlatWorker(dag, t.workers[v]) {
      assert FlatWorker(dag, s.workers[v]);
    }
  }

  lemma FlatStep(dag: Dag, s: Sys, step: Step)
    requires WellFormed(dag) && Flat(dag, s) && Enabled(dag, s, step)
    ensures Flat(dag, Apply(dag, s, step))
  {
    if step.AdvanceStep? {
      FlatSnapshot(dag, s, step.w, step.now);
    } else if step.EnqueueStep? {
      FlatEnqueue(dag, s, step.w, step.now);
    } else if step.ClaimStep? {
      FlatClaim(dag, s, step);
    } else {
      FlatMove(dag, s, step);
    }
  }

  lemma FlatDone(dag: Dag, s: Sys)
    requires Flat(dag, s) && AllDone(dag, NodeState(s.db))
    ensures AllRowsSucceeded(s.db)
  {
    forall key | key in s.db.runNodes ensures s.db.runNodes[key] == Succeeded {
      DeclaredIsListed(dag.nodes, key.0);
      var i :| 0 <= i < |dag.nodes| && dag.nodes[i].id == key.0;
      assert key == (key.0, 0) && key.0 in NodeState(s.db);
    }
  }

  // ---- a failed node that cannot run again ------------------------------------------------------------

  ghost predicate LeadsTo(dag: Dag, a: NodeId, n: NodeId) { a == n || Connected(dag.edges, a, n) }

  /** Neither n nor any node before it has a job left: no row, no worker about it or just done with it, and no
      place in a list to be enqueued. */
  ghost predicate IsSpent(dag: Dag, s: Sys, n: NodeId) {
    (forall id | id in s.db.queue :: !LeadsTo(dag, s.db.queue[id].node, n))
    && forall w | w in s.workers :: IsSpentFor(dag, s.workers[w], n)
  }

  ghost predicate IsSpentFor(dag: Dag, worker: Worker, n: NodeId) {
    match worker.phase
    case Scheduling(todo) => forall m | m in todo :: !LeadsTo(dag, m, n)
    case Finished(_) => !LeadsTo(dag, worker.job.node, n)
    case _ => CanFail(worker.phase) ==> !LeadsTo(dag, worker.job.node, n)
  }

  ghost predicate IsStuck(dag: Dag, s: Sys, n: NodeId) {
    IsSpent(dag, s, n) && Declared(dag, n) && (n, 0) in s.db.runNodes && s.db.runNodes[(n, 0)] == Failed
  }

  lemma StuckIsNotDone(dag: Dag, s: Sys, n: NodeId)
    requires IsStuck(dag, s, n)
    ensures !AllDone(dag, NodeState(s.db))
  {
    DeclaredIsListed(dag.nodes, n);
    var i :| 0 <= i < |dag.nodes| && dag.nodes[i].id == n;
    assert n in NodeState(s.db);
  }

  lemma LeadsFurther(dag: Dag, a: NodeId, b: NodeId, n: NodeId)
    requires HasEdge(dag.edges, a, b) && LeadsTo(dag, b, n)
    ensures LeadsTo(dag, a, n)
  {
    EdgeConnects(dag.edges, a, b);
    if b != n { ConnectedTransitive(dag.edges, a, b, n); }
  }

  lemma StuckLoop(dag: Dag, s: Sys, n: NodeId, w: nat, now: int)
    requires IsStuck(dag, s, n) && w in s.workers && s.workers[w].phase.Finished?
    ensures IsStuck(dag, LoopBy(s, w, now), n)
  {
    assert IsSpentFor(dag, s.workers[w], n);
  }

  lemma StuckSnapshot(dag: Dag, s: Sys, n: NodeId, w: nat, outputs: seq<Entry>)
    requires IsStuck(dag, s, n) && w in s.workers && s.workers[w].phase.Finished?
    ensures IsStuck(dag, SnapshotBy(dag, s, w, outputs), n)
    ensures !At(SnapshotBy(dag, s, w, outputs), w, Closing)
  {
    var node := s.workers[w].job.node;
    assert IsSpentFor(dag, s.workers[w], n);
    StuckIsNotDone(dag, s, n);
    forall m | m in ReadySuccessors(dag, node, NodeState(s.db), outputs) ensures !LeadsTo(dag, m, n) {
      ReadyIsSuccessor(dag, node, NodeState(s.db), outputs, m);
      if LeadsTo(dag, m, n) { LeadsFurther(dag, node, m, n); }
    }
  }

  lemma StuckAdvance(dag: Dag, s: Sys, n: NodeId, w: nat, now: int)
    requires IsStuck(dag, s, n) && Enabled(dag, s, AdvanceStep(w, now))
    ensures IsStuck(dag, Apply(dag, s, AdvanceStep(w, now)), n)
    ensures !At(Apply(dag, s, AdvanceStep(w, now)), w, Closing)
  {
    var Worker(job, Finished(outputs)) := s.workers[w];
    if ShouldLoop(FindNode(dag.nodes, job.node).value, outputs, job.iteration) {
      StuckLoop(dag, s, n, w, now);
    } else {
      StuckSnapshot(dag, s, n, w, outputs);
    }
  }

  lemma StuckEnqueue(dag: Dag, s: Sys, n: NodeId, w: nat, now: int)
    requires IsStuck(dag, s, n) && Enabled(dag, s, EnqueueStep(w, now))
    ensures IsStuck(dag, Apply(dag, s, EnqueueStep(w, now)), n)
  {
    var todo := s.workers[w].phase.todo;
    assert IsSpentFor(dag, s.workers[w], n) && todo[0] in todo;
    assert forall m | m in todo[1..] :: m in todo;
  }

  lemma StuckMove(dag: Dag, s: Sys, n: NodeId, step: Step)
    requires IsStuck(dag, s, n) && Enabled(dag, s, step) && !step.AdvanceStep? && !step.EnqueueStep?
    ensures IsStuck(dag, Apply(dag, s, step), n)
  {
    var t := Apply(dag, s, step);
    if step.RejectStep? || step.FailStep? || step.SucceedStep? || step.StartNodeStep? {
      assert IsSpentFor(dag, s.workers[step.w], n);
    }
    forall v | v in t.workers ensures IsSpentFor(dag, t.workers[v], n) {
      if v in s.workers { assert IsSpentFor(dag, s.workers[v], n); }
    }
  }

  lemma StuckStep(dag: Dag, s: Sys, n: NodeId, step: Step)
    requires IsStuck(dag, s, n) && Enabled(dag, s, step)
    ensures IsStuck(dag, Apply(dag, s, step), n)
    ensures step.AdvanceStep? ==> !At(Apply(dag, s, step), step.w, Closing)
  {
    if step.AdvanceStep? {
      StuckAdvance(dag, s, n, step.w, step.now);
    } else if step.EnqueueStep? {
      StuckEnqueue(dag, s, n, step.w, step.now);
    } else {
      StuckMove(dag, s, n, step);
    }
  }

  lemma {:induction false} FailureStays(dag: Dag, s: Sys, n: NodeId, steps: seq<Step>, t: Sys)
    requires IsStuck(dag, s, n) && s.db.status == Failed && !SomeAt(s, Closing)
    requires Exec(dag, s, steps) == Some(t)
    ensures IsStuck(dag, t, n) && t.db.status == Failed && !SomeAt(t, Closing)
    decreases |steps|
  {
    if steps != [] {
      var m, step := Exec(dag, s, steps[..|steps| - 1]).value, steps[|steps| - 1];
      FailureStays(dag, s, n, steps[..|steps| - 1], m);
      StuckStep(dag, m, n, step);
      NobodyCloses(dag, m, step);
    }
  }

  lemma NobodyCloses(dag: Dag, m: Sys, step: Step)
    requires Enabled(dag, m, step) && !SomeAt(m, Closing)
    requires step.AdvanceStep? ==> !At(Apply(dag, m, step), step.w, Closing)
    ensures !SomeAt(Apply(dag, m, step), Closing)
    ensures m.db.status == Failed ==> Apply(dag, m, step).db.status == Failed
  {
    var t := Apply(dag, m, step);
    forall v | v in t.workers ensures t.workers[v].phase != Closing {
      assert v in m.workers && t.workers[v] == m.workers[v] ==> m.workers[v].phase != Closing;
    }
  }

  /** A failed run with a failed node that cannot run again stays failed in every continuation exactly when no
      worker has decided to close it. */
  lemma FailureOverwrittenIff(dag: Dag, s: Sys, n: NodeId)
    requires s.db.status == Failed && IsStuck(dag, s, n)
    ensures (exists t :: Reaches(dag, s, t) && t.db.status != Failed) <==> SomeAt(s, Closing)
  {
    if SomeAt(s, Closing) {
      var w :| w in s.workers && s.workers[w].phase == Closing;
      GentlyStays(dag, s);
      GentlyStep(dag, s, s, CloseStep(w));
      var t := Apply(dag, s, CloseStep(w));
      GentlyReaches(dag, s, t);
    } else {
      forall t | Reaches(dag, s, t) ensures t.db.status == Failed {
        var steps :| Exec(dag, s, steps) == Some(t);
        FailureStays(dag, s, n, steps, t);
      }
    }
  }

  // ---- a failed node that can ---------------------------------------------------------------------------

  /** The declared nodes whose iteration 0 stands in the way of closing. */
  ghost function UndoneNodes(dag: Dag, db: Db): set<NodeId> {
    set key | key in db.runNodes && key.1 == 0 && Declared(dag, key.0) && db.runNodes[key] != Succeeded :: key.0
  }

  ghost predicate RowFor(db: Db, id: nat, n: NodeId) {
    id in db.queue && db.queue[id].node == n && db.queue[id].iteration == 0
  }

  /** A state at rest: no worker, no cancellation, every row with its node row. */
  predicate AtRest(s: Sys) { s.workers == map[] && s.db.status != Cancelled && RowsKnown(s) }

  /** The worker's job can still be finalised as succeeded. */
  predicate CanSucceed(phase: Phase) {
    phase.Claimed? || phase.Admitted? || phase.Starting? || phase.Executing?
  }

  function StepsToRunning(phase: Phase): nat {
    match phase
    case Claimed => 3
    case Admitted => 2
    case Starting => 1
    case _ => 0
  }

  function StartingStep(w: nat, phase: Phase): Step {
    match phase
    case Claimed => FetchStep(w, true)
    case Admitted => StartNodeStep(w)
    case _ => StartRunStep(w)
  }

  /** u is like t but that worker w has gone on with its job, whose node may run by now. */
  predicate GoesOnWith(t: Sys, u: Sys, w: nat)
    requires w in t.workers
  {
    var job := t.workers[w].job;
    w in u.workers && u.workers == t.workers[w := Worker(job, u.workers[w].phase)]
    && (u.db.runNodes == t.db.runNodes || u.db.runNodes == t.db.runNodes[(job.node, job.iteration) := Running])
    && u.db.queue == t.db.queue && u.db.nextId == t.db.nextId && u.db.status != Cancelled
  }

  lemma StartingMove(dag: Dag, t: Sys, w: nat)
    requires w in t.workers && CanSucceed(t.workers[w].phase) && t.workers[w].phase != Executing
    requires t.db.status != Cancelled && Declared(dag, t.workers[w].job.node)
    ensures var step := StartingStep(w, t.workers[w].phase);
            Enabled(dag, t, step) && Spares(t, step)
            && var u := Apply(dag, t, step);
               GoesOnWith(t, u, w) && CanSucceed(u.workers[w].phase)
               && StepsToRunning(u.workers[w].phase) < StepsToRunning(t.workers[w].phase)
  {}

  lemma GoesOnTwice(t: Sys, m: Sys, u: Sys, w: nat)
    requires w in t.workers && GoesOnWith(t, m, w) && GoesOnWith(m, u, w)
    ensures GoesOnWith(t, u, w)
  {}

  /** Unless the run is cancelled such a worker comes to execute. */
  lemma {:induction false} WorkerExecutes(dag: Dag, s: Sys, t: Sys, w: nat) returns (u: Sys)
    requires Gently(dag, s, t) && w in t.workers && CanSucceed(t.workers[w].phase)
    requires t.db.status != Cancelled && Declared(dag, t.workers[w].job.node)
    ensures Gently(dag, s, u) && GoesOnWith(t, u, w) && u.workers[w].phase == Executing
    decreases StepsToRunning(t.workers[w].phase)
  {
    var phase := t.workers[w].phase;
    if phase == Executing {
      u := t;
      assert t.workers == t.workers[w := t.workers[w]];
    } else {
      StartingMove(dag, t, w);
      var m := Apply(dag, t, StartingStep(w, phase));
      GentlyStep(dag, s, t, StartingStep(w, phase));
      u := WorkerExecutes(dag, s, m, w);
      GoesOnTwice(t, m, u, w);
    }
  }

  /** u is like t but that worker w has finalised its job as succeeded. */
  predicate HasSucceededWith(t: Sys, u: Sys, w: nat, outputs: seq<Entry>)
    requires w in t.workers
  {
    var job := t.workers[w].job;
    u.workers == t.workers[w := Worker(job, Finished(outputs))]
    && u.db.runNodes == t.db.runNodes[(job.node, job.iteration) := Succeeded]
    && u.db.status != Cancelled && u.db.queue == t.db.queue - {job.id} && u.db.nextId == t.db.nextId
  }

  lemma ExecutingSucceeds(t: Sys, m: Sys, w: nat, outputs: seq<Entry>)
    requires w in t.workers && GoesOnWith(t, m, w)
    requires (t.workers[w].job.node, t.workers[w].job.iteration) in t.db.runNodes
    ensures HasSucceededWith(t, FinalizeBy(m, w, Succeeded, Finished(outputs)), w, outputs)
  {
    var key := (t.workers[w].job.node, t.workers[w].job.iteration);
    assert t.db.runNodes[key := Running][key := Succeeded] == t.db.runNodes[key := Succeeded];
  }

  lemma WorkerSucceeds(dag: Dag, s: Sys, t: Sys, w: nat, outputs: seq<Entry>) returns (u: Sys)
    requires Gently(dag, s, t) && w in t.workers && CanSucceed(t.workers[w].phase)
    requires t.db.status != Cancelled && Declared(dag, t.workers[w].job.node)
    requires (t.workers[w].job.node, t.workers[w].job.iteration) in t.db.runNodes
    ensures Gently(dag, s, u) && HasSucceededWith(t, u, w, outputs)
  {
    var m := WorkerExecutes(dag, s, t, w);
    ExecutingSucceeds(t, m, w, outputs);
    GentlyStep(dag, s, m, SucceedStep(w, outputs));
    u := Apply(dag, m, SucceedStep(w, outputs));
  }

  /** The steps of a new worker from a queued row that nobody holds to its success. */
  lemma RowSucceeds(dag: Dag, s: Sys, t: Sys, id: nat, outputs: seq<Entry>) returns (u: Sys)
    requires Gently(dag, s, t) && NoneHolds(t) && id in t.db.queue && Declared(dag, t.db.queue[id].node)
    requires t.db.status != Cancelled && (t.db.queue[id].node, t.db.queue[id].iteration) in t.db.runNodes
    ensures Gently(dag, s, u) && u.workers == t.workers[t.nextWorker := Worker(JobOf(t.db, id), Finished(outputs))]
    ensures u.db.runNodes == t.db.runNodes[(t.db.queue[id].node, t.db.queue[id].iteration) := Succeeded]
    ensures u.db.status != Cancelled && u.db.queue.Keys == t.db.queue.Keys - {id} && u.db.nextId == t.db.nextId
    ensures forall other :: other in u.db.queue ==> SameRow(t.db, u.db, other)
  {
    var m := RowIsHeld(dag, s, t, id);
    u := WorkerSucceeds(dag, s, m, t.nextWorker, outputs);
    assert m.workers[t.nextWorker := u.workers[t.nextWorker]] == t.workers[t.nextWorker := u.workers[t.nextWorker]];
  }

  /** The node of a row is done after all, and its worker gone before it schedules anything. */
  lemma NodeRerun(dag: Dag, s: Sys, t: Sys, id: nat, n: NodeId) returns (u: Sys)
    requires Gently(dag, s, t) && AtRest(t) && RowFor(t.db, id, n) && Declared(dag, n)
    ensures Gently(dag, s, u) && AtRest(u) && UndoneNodes(dag, u.db) == UndoneNodes(dag, t.db) - {n}
    ensures forall other :: other in t.db.queue && other != id ==> SameRow(t.db, u.db, other)
  {
    var w := t.nextWorker;
    var m := RowSucceeds(dag, s, t, id, []);
    GentlyStep(dag, s, m, CrashStep(w));
    u := Apply(dag, m, CrashStep(w));
    assert u.workers == map[];
    assert (n, 0) in t.db.runNodes;
    UndoneAfter(dag, t.db, u.db, n);
    forall other | other in u.db.queue
      ensures (u.db.queue[other].node, u.db.queue[other].iteration) in u.db.runNodes
    {
      assert SameRow(t.db, u.db, other);
    }
  }

  lemma UndoneAfter(dag: Dag, a: Db, b: Db, n: NodeId)
    requires (n, 0) in a.runNodes && b.runNodes == a.runNodes[(n, 0) := Succeeded]
    ensures UndoneNodes(dag, b) == UndoneNodes(dag, a) - {n}
  {
    forall x ensures x in UndoneNodes(dag, b) <==> x in UndoneNodes(dag, a) - {n} {
      assert x in UndoneNodes(dag, a) <==> (x, 0) in a.runNodes && Declared(dag, x) && a.runNodes[(x, 0)] != Succeeded;
      assert x in UndoneNodes(dag, b) <==> (x, 0) in b.runNodes && Declared(dag, x) && b.runNodes[(x, 0)] != Succeeded;
    }
  }

  /** All nodes that are not done are done over, but for the one whose row is kept for the end. */
  lemma {:induction false} OthersRerun(dag: Dag, s: Sys, t: Sys, last: nat, n: NodeId) returns (u: Sys)
    requires Gently(dag, s, t) && AtRest(t) && RowFor(t.db, last, n)
    requires forall m :: m in UndoneNodes(dag, t.db) && m != n ==> exists id :: RowFor(t.db, id, m)
    ensures Gently(dag, s, u) && AtRest(u) && RowFor(u.db, last, n) && UndoneNodes(dag, u.db) <= {n}
    decreases UndoneNodes(dag, t.db)
  {
    u := t;
    if m :| m in UndoneNodes(dag, t.db) && m != n {
      var id :| RowFor(t.db, id, m);
      var next := NodeRerun(dag, s, t, id, m);
      assert SameRow(t.db, next.db, last);
      forall x | x in UndoneNodes(dag, next.db) && x != n ensures exists other :: RowFor(next.db, other, x) {
        var other :| RowFor(t.db, other, x);
        assert SameRow(t.db, next.db, other) && RowFor(next.db, other, x);
      }
      u := OthersRerun(dag, s, next, last, n);
    }
  }

  lemma DoneMeansAllDone(dag: Dag, db: Db)
    requires UndoneNodes(dag, db) == {}
    ensures AllDone(dag, NodeState(db))
  {
    forall i | 0 <= i < |dag.nodes| && dag.nodes[i].id in NodeState(db)
      ensures NodeState(db)[dag.nodes[i].id] == Succeeded
    {
      var x := dag.nodes[i].id;
      DeclaredIsListed(dag.nodes, x);
      assert (x, 0) in db.runNodes && (db.runNodes[(x, 0)] == Succeeded || x in UndoneNodes(dag, db));
    }
  }

  /** The last row, of a terminal node, closes the run. */
  lemma LastCloses(dag: Dag, s: Sys, t: Sys, id: nat, n: NodeId) returns (u: Sys)
    requires Gently(dag, s, t) && AtRest(t) && RowFor(t.db, id, n) && UndoneNodes(dag, t.db) <= {n}
    requires Declared(dag, n) && IsTerminal(dag, n)
    ensures Gently(dag, s, u) && u.db.status == Succeeded
  {
    var w := t.nextWorker;
    var m := RowSucceeds(dag, s, t, id, []);
    assert (n, 0) in t.db.runNodes;
    UndoneAfter(dag, t.db, m.db, n);
    assert UndoneNodes(dag, m.db) == {};
    DoneMeansAllDone(dag, m.db);
    assert WillClose(dag, m, w);
    ClosingDecision(dag, m, w, 0);
    GentlyStep(dag, s, m, AdvanceStep(w, 0));
    u := Apply(dag, m, AdvanceStep(w, 0));
    GentlyStep(dag, s, u, CloseStep(w));
    u := Apply(dag, u, CloseStep(w));
  }

  /** A run that is not cancelled, failed or not, can come to succeed if every node in the way of closing has a
      row of its own left, and some declared terminal node has one. */
  lemma FailureUndone(dag: Dag, s: Sys, last: nat, n: NodeId)
    requires s.db.status != Cancelled && RowsKnown(s)
    requires RowFor(s.db, last, n) && Declared(dag, n) && IsTerminal(dag, n)
    requires forall m :: m in UndoneNodes(dag, s.db) ==> exists id :: RowFor(s.db, id, m)
    ensures exists t :: Gently(dag, s, t) && t.db.status == Succeeded
  {
    GentlyStays(dag, s);
    TheyCrash(dag, s, s, s.workers.Keys);
    var alone := s.(workers := s.workers - s.workers.Keys);
    assert alone.workers == map[];
    var m := OthersRerun(dag, s, alone, last, n);
    var t := LastCloses(dag, s, m, last, n);
  }

  // ---- a row finalised twice ------------------------------------------------------------------------

  ghost predicate FinalisedTwice(s: Sys, id: nat) {
    exists j, k | 0 <= j < k < |s.log| :: s.log[j].job.id == id && s.log[k].job.id == id
  }

  /** Worker w has still to finalise row id. */
  predicate IsAboutRow(s: Sys, w: nat, id: nat) {
    w in s.workers && CanFail(s.workers[w].phase) && s.workers[w].job.id == id
  }

  ghost predicate IsLogged(s: Sys, id: nat) { exists k | 0 <= k < |s.log| :: s.log[k].job.id == id }

  /** At most one finalisation of row id there is or will be. */
  ghost predicate IsOnce(s: Sys, id: nat) {
    (forall v, w | IsAboutRow(s, v, id) && IsAboutRow(s, w, id) :: v == w)
    && !FinalisedTwice(s, id)
    && (IsLogged(s, id) ==> id !in s.db.queue && forall w :: !IsAboutRow(s, w, id))
    && (forall w | IsAboutRow(s, w, id) && id in s.db.queue :: s.db.queue[id].claim.Some?)
    && id < s.db.nextId
  }

  lemma OnceOutcome(s: Sys, w: nat, status: Status, phase: Phase, id: nat)
    requires IsOnce(s, id) && w in s.workers && CanFail(s.workers[w].phase) && !CanFail(phase)
    ensures IsOnce(FinalizeBy(s, w, status, phase), id)
  {
    var t, n := FinalizeBy(s, w, status, phase), |s.log|;
    assert t.log[n] == Final(s.workers[w].job, status) && forall k | 0 <= k < n :: t.log[k] == s.log[k];
    forall v | IsAboutRow(t, v, id) ensures IsAboutRow(s, v, id) && v != w {}
    if IsAboutRow(s, w, id) {
      assert !IsLogged(s, id);
    } else {
      assert t.log[n].job.id != id;
      if IsLogged(t, id) { assert IsLogged(s, id); }
    }
  }

  lemma OnceMove(dag: Dag, s: Sys, step: Step, id: nat)
    requires IsOnce(s, id) && Enabled(dag, s, step) && Spares(s, step)
    requires !step.RejectStep? && !step.FailStep? && !step.SucceedStep? && !step.ClaimStep? && !step.AdvanceStep?
    ensures IsOnce(Apply(dag, s, step), id)
  {
    var t := Apply(dag, s, step);
    assert t.log == s.log;
    forall v | IsAboutRow(t, v, id) ensures IsAboutRow(s, v, id) {}
  }

  lemma OnceAdvance(dag: Dag, s: Sys, w: nat, now: int, id: nat)
    requires IsOnce(s, id) && Enabled(dag, s, AdvanceStep(w, now))
    ensures IsOnce(Apply(dag, s, AdvanceStep(w, now)), id)
  {
    var t := Apply(dag, s, AdvanceStep(w, now));
    assert t.log == s.log;
    forall v | IsAboutRow(t, v, id) ensures IsAboutRow(s, v, id) {}
  }

  lemma OnceClaim(dag: Dag, s: Sys, step: Step, id: nat)
    requires IsOnce(s, id) && Enabled(dag, s, step) && step.ClaimStep?
    ensures IsOnce(Apply(dag, s, step), id)
  {
    var t := Apply(dag, s, step);
    assert t.log == s.log;
    forall v | IsAboutRow(t, v, id) && v != s.nextWorker ensures IsAboutRow(s, v, id) {}
  }

  lemma {:induction false} OnceForEver(dag: Dag, s: Sys, steps: seq<Step>, t: Sys, id: nat)
    requires IsOnce(s, id) && Exec(dag, s, steps) == Some(t) && Sparing(dag, s, steps)
    ensures IsOnce(t, id)
    decreases |steps|
  {
    if steps != [] {
      var init, last := steps[..|steps| - 1], |steps| - 1;
      var m := Exec(dag, s, init).value;
      SparingPrefix(dag, s, steps);
      OnceForEver(dag, s, init, m, id);
      OnceStep(dag, m, steps[last], id);
    }
  }

  lemma SparingPrefix(dag: Dag, s: Sys, steps: seq<Step>)
    requires Sparing(dag, s, steps) && steps != [] && Exec(dag, s, steps[..|steps| - 1]).Some?
    ensures Sparing(dag, s, steps[..|steps| - 1])
    ensures Spares(Exec(dag, s, steps[..|steps| - 1]).value, steps[|steps| - 1])
  {
    var init := steps[..|steps| - 1];
    assert forall k | 0 <= k < |init| :: init[..k] == steps[..k] && init[k] == steps[k];
  }

  lemma OnceStep(dag: Dag, s: Sys, step: Step, id: nat)
    requires IsOnce(s, id) && Enabled(dag, s, step) && Spares(s, step)
    ensures IsOnce(Apply(dag, s, step), id)
  {
    match step
    case RejectStep(w) => OnceOutcome(s, w, Failed, Reporting, id);
    case FailStep(w) => OnceOutcome(s, w, Failed, Reporting, id);
    case SucceedStep(w, outputs) => OnceOutcome(s, w, Succeeded, Finished(outputs), id);
    case ClaimStep(_, _, _, _) => OnceClaim(dag, s, step, id);
    case AdvanceStep(w, now) => OnceAdvance(dag, s, w, now, id);
    case _ => OnceMove(dag, s, step, id);
  }

  /** The row is claimed again, and both workers fail. */
  lemma SweptRowFailsTwice(dag: Dag, s: Sys, id: nat, w: nat) returns (t: Sys)
    requires IsAboutRow(s, w, id) && id in s.db.queue && s.db.queue[id].claim == None
    requires s.db.status != Cancelled && s.nextWorker !in s.workers
    ensures Gently(dag, s, t) && FinalisedTwice(t, id)
  {
    var claim, v := ClaimStep(id, "worker", s.db.queue[id].availableAt, 0), s.nextWorker;
    GentlyStays(dag, s);
    GentlyStep(dag, s, s, claim);
    var m := Apply(dag, s, claim);
    var u := WorkerFails(dag, s, m, w);
    assert v in m.workers - {w} && v in u.workers && u.workers[v] == m.workers[v];
    t := WorkerFails(dag, s, u, v);
    var n := |s.log|;
    assert t.log[n].job.id == id && t.log[n + 1].job.id == id;
  }

  /** While leases have held, a sweep lets row id be finalised twice exactly if it gives the row back under a worker
      that has still to finalise it, even if no later sweep does. */
  lemma FinalisedTwiceIff(dag: Dag, s: Sys, id: nat, now: int)
    requires Exclusive(s) && id in s.db.queue && s.db.status != Cancelled
    ensures var swept := Apply(dag, s, Step.SweepStep(now));
            (exists t :: Gently(dag, swept, t) && FinalisedTwice(t, id))
            <==> Stale(s.db.queue[id], now) && exists w :: IsAboutRow(s, w, id)
  {
    var swept := Apply(dag, s, Step.SweepStep(now));
    if w :| Stale(s.db.queue[id], now) && IsAboutRow(s, w, id) {
      assert IsAboutRow(swept, w, id);
      var t := SweptRowFailsTwice(dag, swept, id, w);
    } else {
      SweptIsOnce(dag, s, id, now);
      forall t | Gently(dag, swept, t) ensures !FinalisedTwice(t, id) {
        var steps :| Exec(dag, swept, steps) == Some(t) && Sparing(dag, swept, steps);
        OnceForEver(dag, swept, steps, t, id);
      }
    }
  }

  lemma SweptIsOnce(dag: Dag, s: Sys, id: nat, now: int)
    requires Exclusive(s) && id in s.db.queue
    requires !Stale(s.db.queue[id], now) || forall w :: !IsAboutRow(s, w, id)
    ensures IsOnce(Apply(dag, s, Step.SweepStep(now)), id)
  {
    var t := Apply(dag, s, Step.SweepStep(now));
    forall w | IsAboutRow(t, w, id) ensures IsAboutRow(s, w, id) {}
    assert !IsLogged(t, id);
  }
}
