/** When a node can be queued more than once: exactly if some node has two predecessors neither of which leads to
    the other (services/workflow-worker/app/main.py). */
module Joins {
  import opened Json
  import opened Dag
  import opened RunStore
  import opened Interleaving
  import opened SerialRuns
  import opened Termination
  import opened LoopingRuns
  import opened Overwriting
  import opened Reviving

  /** Two predecessors of n, neither of which leads to the other. */
  ghost predicate MeetAt(dag: Dag, p: NodeId, q: NodeId, n: NodeId) {
    p != q && HasEdge(dag.edges, p, n) && HasEdge(dag.edges, q, n)
    && !Connected(dag.edges, p, q) && !Connected(dag.edges, q, p)
  }

  ghost predicate HasJoin(dag: Dag) { exists p, q, n :: MeetAt(dag, p, q, n) }

  // ---- while the predecessors of every node lead to one another --------------------------------

  /** Some worker has n on its list. */
  ghost predicate IsListed(s: Sys, n: NodeId) {
    exists w | w in s.workers :: s.workers[w].phase.Scheduling? && n in s.workers[w].phase.todo
  }

  /** n has come up: it has a node row, or is on a list. */
  ghost predicate IsShown(s: Sys, n: NodeId) { (n, 0) in s.db.runNodes || IsListed(s, n) }

  predicate IsFinished(s: Sys, w: nat, n: NodeId) {
    w in s.workers && s.workers[w].phase.Finished? && s.workers[w].job.node == n
  }

  predicate IsRow(s: Sys, id: nat, n: NodeId) { id in s.db.queue && s.db.queue[id].node == n }

  /** The snapshot behind n has still to be taken. */
  ghost predicate IsPending(s: Sys, n: NodeId) {
    (exists id :: IsRow(s, id, n)) || (exists w :: IsFinished(s, w, n)) || IsListed(s, n)
  }

  /** A node comes up after all its ancestors have been left behind. */
  ghost predicate LeftBehind(dag: Dag, s: Sys) {
    forall n, a | IsShown(s, n) && Connected(dag.edges, a, n) :: !IsPending(s, a)
  }

  /** No node has two rows, or two finished workers, or one of each. */
  ghost predicate HasOneJob(s: Sys) {
    (forall n, a, b | IsRow(s, a, n) && IsRow(s, b, n) :: a == b)
    && (forall n, v, w | IsFinished(s, v, n) && IsFinished(s, w, n) :: v == w)
    && forall n, id, w :: !(IsRow(s, id, n) && IsFinished(s, w, n))
  }

  /** Lists are disjoint, without repetition, and of nodes that have no row yet. */
  ghost predicate ListsAreFresh(s: Sys) {
    (forall w | w in s.workers && s.workers[w].phase.Scheduling? :: NoDuplicates(s.workers[w].phase.todo))
    && (forall n | IsListed(s, n) :: (n, 0) !in s.db.runNodes)
    && forall v, w, n | v in s.workers && w in s.workers && v != w
                        && s.workers[v].phase.Scheduling? && s.workers[w].phase.Scheduling? ::
         !(n in s.workers[v].phase.todo && n in s.workers[w].phase.todo)
  }

  ghost predicate Orderly(dag: Dag, s: Sys) { LeftBehind(dag, s) && HasOneJob(s) && ListsAreFresh(s) }

  /** t holds nothing that s does not. */
  ghost predicate Shrinks(s: Sys, t: Sys) {
    (forall id, n | IsRow(t, id, n) :: IsRow(s, id, n))
    && (forall w | w in t.workers && (t.workers[w].phase.Finished? || t.workers[w].phase.Scheduling?) ::
          w in s.workers && s.workers[w] == t.workers[w])
    && t.db.runNodes.Keys == s.db.runNodes.Keys
  }

  lemma ShrinkKeeps(dag: Dag, s: Sys, t: Sys)
    requires Orderly(dag, s) && Shrinks(s, t)
    ensures Orderly(dag, t)
  {
    forall n | IsListed(t, n) ensures IsListed(s, n) {
      var w :| w in t.workers && t.workers[w].phase.Scheduling? && n in t.workers[w].phase.todo;
      assert s.workers[w] == t.workers[w];
    }
    forall n, w | IsFinished(t, w, n) ensures IsFinished(s, w, n) {}
    forall n | IsPending(t, n) ensures IsPending(s, n) {}
    forall n | IsShown(t, n) ensures IsShown(s, n) {}
  }

  lemma RestShrinks(dag: Dag, s: Sys, step: Step)
    requires Enabled(dag, s, step) && s.nextWorker !in s.workers
    requires !step.SucceedStep? && !step.EnqueueStep? && !step.AdvanceStep?
    ensures Shrinks(s, Apply(dag, s, step))
  {}

  lemma SuccessKeeps(dag: Dag, s: Sys, w: nat, outputs: seq<Entry>)
    requires Orderly(dag, s) && Exclusive(s) && At(s, w, Executing)
    ensures Orderly(dag, FinalizeBy(s, w, Succeeded, Finished(outputs)))
  {
    var t, job := FinalizeBy(s, w, Succeeded, Finished(outputs)), s.workers[w].job;
    assert IsRow(s, job.id, job.node);
    forall id, n | IsRow(t, id, n) ensures IsRow(s, id, n) && id != job.id {}
    forall v, n | IsFinished(t, v, n) && v != w ensures IsFinished(s, v, n) {}
    forall n | IsListed(t, n) ensures IsListed(s, n) {
      var v :| v in t.workers && t.workers[v].phase.Scheduling? && n in t.workers[v].phase.todo;
      assert s.workers[v] == t.workers[v];
    }
    forall n | IsPending(t, n) ensures IsPending(s, n) {
      if v :| IsFinished(t, v, n) { assert v == w ==> n == job.node; }
    }
    assert t.db.runNodes.Keys == s.db.runNodes.Keys;
    assert forall n | IsShown(t, n) :: IsShown(s, n);
  }

  lemma ListShrinks(s: Sys, w: nat, n: NodeId)
    requires w in s.workers && s.workers[w].phase.Scheduling? && s.workers[w].phase.todo != []
    requires IsListed(EnqueueBy(s, w, 0), n) && ListsAreFresh(s)
    ensures IsListed(s, n) && n != s.workers[w].phase.todo[0]
  {
    var t, todo := EnqueueBy(s, w, 0), s.workers[w].phase.todo;
    var v :| v in t.workers && t.workers[v].phase.Scheduling? && n in t.workers[v].phase.todo;
    if v == w {
      var i :| 0 <= i < |todo[1..]| && todo[1..][i] == n;
      assert todo[i + 1] == n && todo[0] != todo[i + 1];
    } else {
      assert s.workers[v] == t.workers[v];
    }
  }

  lemma TailIsDistinct(todo: seq<NodeId>)
    requires NoDuplicates(todo) && todo != []
    ensures NoDuplicates(todo[1..])
  {
    forall i, j | 0 <= i < j < |todo[1..]| ensures todo[1..][i] != todo[1..][j] { assert todo[i + 1] != todo[j + 1]; }
  }

  lemma EnqueuedLists(s: Sys, w: nat)
    requires w in s.workers && s.workers[w].phase.Scheduling? && s.workers[w].phase.todo != [] && ListsAreFresh(s)
    ensures ListsAreFresh(EnqueueBy(s, w, 0))
  {
    var t, todo := EnqueueBy(s, w, 0), s.workers[w].phase.todo;
    TailIsDistinct(todo);
    forall n | IsListed(t, n) ensures (n, 0) !in t.db.runNodes { ListShrinks(s, w, n); }
    forall v, x, n | v in t.workers && x in t.workers && v != x
                     && t.workers[v].phase.Scheduling? && t.workers[x].phase.Scheduling?
      ensures !(n in t.workers[v].phase.todo && n in t.workers[x].phase.todo)
    {
      assert forall m | m in todo[1..] :: m in todo;
    }
  }

  lemma EnqueueKeeps(dag: Dag, s: Sys, w: nat, now: int)
    requires Orderly(dag, s) && RowsKnown(s) && Flat(dag, s)
    requires w in s.workers && s.workers[w].phase.Scheduling? && s.workers[w].phase.todo != []
    ensures Orderly(dag, EnqueueBy(s, w, now))
  {
    var t, x := EnqueueBy(s, w, now), s.workers[w].phase.todo[0];
    assert t.workers == EnqueueBy(s, w, 0).workers && t.db.runNodes == EnqueueBy(s, w, 0).db.runNodes;
    EnqueuedLists(s, w);
    assert IsListed(s, x);
    forall n | IsListed(t, n) ensures IsListed(s, n) {
      assert IsListed(EnqueueBy(s, w, 0), n);
      ListShrinks(s, w, n);
    }
    forall v, n | IsFinished(t, v, n) ensures IsFinished(s, v, n) {}
    forall id, n | IsRow(t, id, n) ensures IsRow(s, id, n) || (n == x && id == s.db.nextId) {}
    forall id ensures !IsRow(s, id, x) {}
    forall v ensures !IsFinished(s, v, x) { if v in s.workers { assert FlatWorker(dag, s.workers[v]); } }
    assert forall n | IsPending(t, n) :: IsPending(s, n);
    assert forall n | IsShown(t, n) :: IsShown(s, n);
  }

  /** Everything that leads to a node that is listed or has a row has a row. */
  lemma AncestorsKnown(dag: Dag, s: Sys, a: NodeId, n: NodeId)
    requires Ordered(dag, s) && IsShown(s, n) && Connected(dag.edges, a, n)
    ensures exists i: nat :: (a, i) in s.db.runNodes
  {
    var m := LastEdge(dag.edges, a, n);
    GroundedShown(dag, s, n);
    assert m in EverSucceeded(s.log);
    EverSucceededKnown(dag, s, m);
    if m != a {
      assert Present(s, m);
      var p :| IsPath(dag.edges, p) && p[0] == a && p[|p| - 1] == m;
      AncestorsAlong(dag, s, p);
      EverSucceededKnown(dag, s, a);
    }
  }

  lemma AncestorShown(dag: Dag, s: Sys, a: NodeId, n: NodeId)
    requires Ordered(dag, s) && Flat(dag, s) && IsShown(s, n) && Connected(dag.edges, a, n)
    ensures (a, 0) in s.db.runNodes
  {
    AncestorsKnown(dag, s, a, n);
    var i: nat :| (a, i) in s.db.runNodes;
    assert (a, i).1 == 0;
  }

  lemma GroundedShown(dag: Dag, s: Sys, n: NodeId)
    requires Ordered(dag, s) && IsShown(s, n)
    ensures Grounded(dag, s.log, n)
  {
    if (n, 0) in s.db.runNodes {
      assert Grounded(dag, s.log, (n, 0).0);
    } else {
      var w :| w in s.workers && s.workers[w].phase.Scheduling? && n in s.workers[w].phase.todo;
      var i :| 0 <= i < |s.workers[w].phase.todo| && s.workers[w].phase.todo[i] == n;
    }
  }

  lemma EverSucceededKnown(dag: Dag, s: Sys, n: NodeId)
    requires Ordered(dag, s) && n in EverSucceeded(s.log)
    ensures exists i: nat :: (n, i) in s.db.runNodes
  {
    var k :| 0 <= k < |s.log| && s.log[k].status == Succeeded && s.log[k].job.iteration == 0 && s.log[k].job.node == n;
    assert (s.log[k].job.node, s.log[k].job.iteration) in s.db.runNodes;
  }

  /** What a finished worker finds ready has not come up before. */
  lemma ReadyIsNew(dag: Dag, s: Sys, w: nat, x: NodeId)
    requires LeftBehind(dag, s) && w in s.workers && s.workers[w].phase.Finished?
    requires x in ReadySuccessors(dag, s.workers[w].job.node, NodeState(s.db), s.workers[w].phase.outputs)
    ensures !IsShown(s, x)
  {
    var p := s.workers[w].job.node;
    ReadyIsSuccessor(dag, p, NodeState(s.db), s.workers[w].phase.outputs, x);
    EdgeConnects(dag.edges, p, x);
    assert IsFinished(s, w, p) && IsPending(s, p);
  }

  /** And no other predecessor of it has still to take its snapshot. */
  lemma OthersAreBehind(dag: Dag, s: Sys, w: nat, x: NodeId, a: NodeId)
    requires WellFormed(dag) && !HasJoin(dag) && Orderly(dag, s) && RowsKnown(s) && Flat(dag, s)
    requires w in s.workers && s.workers[w].phase.Finished?
    requires x in ReadySuccessors(dag, s.workers[w].job.node, NodeState(s.db), s.workers[w].phase.outputs)
    requires Connected(dag.edges, a, x) && a != s.workers[w].job.node
    ensures !IsPending(s, a)
  {
    var q := s.workers[w].job.node;
    ReadyIsSuccessor(dag, q, NodeState(s.db), s.workers[w].phase.outputs, x);
    var p := LastEdge(dag.edges, a, x);
    NodeStateMeaning(s.db, p);
    assert IsShown(s, p);
    if p == a {
      assert FlatWorker(dag, s.workers[w]);
      assert IsShown(s, q) && IsFinished(s, w, q) && IsPending(s, q);
      assert !MeetAt(dag, a, q, x);
    }
  }

  lemma ListedBefore(s: Sys, w: nat, n: NodeId)
    requires IsListed(Leave(s, w), n)
    ensures IsListed(s, n)
  {
    var v :| v in Leave(s, w).workers && Leave(s, w).workers[v].phase.Scheduling?
             && n in Leave(s, w).workers[v].phase.todo;
    assert s.workers[v] == Leave(s, w).workers[v];
  }

  lemma PendingBefore(s: Sys, w: nat, n: NodeId)
    requires IsPending(Leave(s, w), n)
    ensures IsPending(s, n)
  {
    if id :| IsRow(Leave(s, w), id, n) {
      assert IsRow(s, id, n);
    } else if v :| IsFinished(Leave(s, w), v, n) {
      assert IsFinished(s, v, n);
    } else {
      ListedBefore(s, w, n);
    }
  }

  lemma NotPendingThen(s: Sys, w: nat, n: NodeId)
    requires !IsPending(s, n)
    ensures !IsPending(Leave(s, w), n)
  {
    if IsPending(Leave(s, w), n) { PendingBefore(s, w, n); }
  }

  /** The worker's own node has nothing else pending. */
  lemma NothingElse(dag: Dag, s: Sys, w: nat)
    requires Orderly(dag, s) && RowsKnown(s) && Flat(dag, s) && w in s.workers && s.workers[w].phase.Finished?
    ensures !IsPending(Leave(s, w), s.workers[w].job.node)
  {
    var t, q := Leave(s, w), s.workers[w].job.node;
    assert FlatWorker(dag, s.workers[w]) && IsFinished(s, w, q);
    forall id ensures !IsRow(t, id, q) { assert !IsRow(s, id, q); }
    forall v ensures !IsFinished(t, v, q) { if v != w { assert !IsFinished(s, v, q); } }
    assert !IsListed(s, q);
    if IsListed(t, q) { ListedBefore(s, w, q); }
  }

  lemma LeaveShrinks(s: Sys, w: nat)
    ensures Shrinks(s, Leave(s, w))
  {}

  lemma CloseShrinks(s: Sys, w: nat)
    requires w in s.workers
    ensures Shrinks(s, GoTo(s, w, Closing))
  {}

  /** What is pending once the list is there. */
  lemma PendingThen(s: Sys, w: nat, ready: seq<NodeId>, a: NodeId)
    requires w in s.workers && IsPending(GoTo(s, w, Scheduling(ready)), a)
    ensures a in ready || IsPending(Leave(s, w), a)
  {
    var t, u := GoTo(s, w, Scheduling(ready)), Leave(s, w);
    if id :| IsRow(t, id, a) {
      assert IsRow(u, id, a);
    } else if v :| IsFinished(t, v, a) {
      assert IsFinished(u, v, a);
    } else {
      ListedThen(s, w, ready, a);
    }
  }

  lemma ListedThen(s: Sys, w: nat, ready: seq<NodeId>, n: NodeId)
    requires w in s.workers && IsListed(GoTo(s, w, Scheduling(ready)), n)
    ensures n in ready || IsListed(Leave(s, w), n)
  {
    var t, u := GoTo(s, w, Scheduling(ready)), Leave(s, w);
    var v :| v in t.workers && t.workers[v].phase.Scheduling? && n in t.workers[v].phase.todo;
    if v != w { assert v in u.workers && u.workers[v] == t.workers[v]; }
  }

  lemma BehindThen(dag: Dag, s: Sys, w: nat, n: NodeId, a: NodeId)
    requires WellFormed(dag) && !HasJoin(dag) && Orderly(dag, s) && Ordered(dag, s) && Flat(dag, s)
    requires w in s.workers && s.workers[w].phase.Finished?
    requires var ready := ReadySuccessors(dag, s.workers[w].job.node, NodeState(s.db), s.workers[w].phase.outputs);
             var t := GoTo(s, w, Scheduling(ready));
             Ordered(dag, t) && Flat(dag, t) && IsShown(t, n) && Connected(dag.edges, a, n)
    ensures var ready := ReadySuccessors(dag, s.workers[w].job.node, NodeState(s.db), s.workers[w].phase.outputs);
            !IsPending(GoTo(s, w, Scheduling(ready)), a)
  {
    var ready := ReadySuccessors(dag, s.workers[w].job.node, NodeState(s.db), s.workers[w].phase.outputs);
    var t, u := GoTo(s, w, Scheduling(ready)), Leave(s, w);
    if IsPending(t, a) {
      PendingThen(s, w, ready, a);
      if a in ready {
        AncestorShown(dag, t, a, n);
        assert IsShown(s, a);
        ReadyIsNew(dag, s, w, a);
      } else if n in ready {
        LeaveShrinks(s, w);
        LeavesBehind(dag, s, w, n, a);
      } else {
        LeaveShrinks(s, w);
        if IsListed(t, n) { ListedThen(s, w, ready, n); }
        ShrinkKeeps(dag, s, u);
        assert IsShown(u, n);
      }
    }
  }

  lemma LeavesBehind(dag: Dag, s: Sys, w: nat, x: NodeId, a: NodeId)
    requires WellFormed(dag) && !HasJoin(dag) && Orderly(dag, s) && RowsKnown(s) && Flat(dag, s)
    requires w in s.workers && s.workers[w].phase.Finished?
    requires x in ReadySuccessors(dag, s.workers[w].job.node, NodeState(s.db), s.workers[w].phase.outputs)
    requires Connected(dag.edges, a, x)
    ensures !IsPending(Leave(s, w), a)
  {
    NothingElse(dag, s, w);
    if a != s.workers[w].job.node {
      OthersAreBehind(dag, s, w, x, a);
      NotPendingThen(s, w, a);
    }
  }

  lemma ScheduledLists(dag: Dag, s: Sys, w: nat, ready: seq<NodeId>)
    requires Orderly(dag, s) && w in s.workers && NoDuplicates(ready) && forall x | x in ready :: !IsShown(s, x)
    ensures ListsAreFresh(GoTo(s, w, Scheduling(ready)))
  {
    var t := GoTo(s, w, Scheduling(ready));
    LeaveShrinks(s, w);
    ShrinkKeeps(dag, s, Leave(s, w));
    forall n | IsListed(t, n) ensures (n, 0) !in t.db.runNodes { ListedThen(s, w, ready, n); }
    forall v, n | v in s.workers && v != w && s.workers[v].phase.Scheduling? && n in s.workers[v].phase.todo
      ensures n !in ready
    {
      assert IsListed(s, n);
    }
  }

  lemma ScheduledJobs(s: Sys, w: nat, ready: seq<NodeId>)
    requires HasOneJob(s) && w in s.workers
    ensures HasOneJob(GoTo(s, w, Scheduling(ready)))
  {
    var t := GoTo(s, w, Scheduling(ready));
    forall v, n | IsFinished(t, v, n) ensures IsFinished(s, v, n) {}
    forall id, n | IsRow(t, id, n) ensures IsRow(s, id, n) {}
  }

  lemma ScheduleKeeps(dag: Dag, s: Sys, w: nat)
    requires WellFormed(dag) && !HasJoin(dag) && Orderly(dag, s) && Ordered(dag, s) && Flat(dag, s)
    requires w in s.workers && s.workers[w].phase.Finished?
    requires var ready := ReadySuccessors(dag, s.workers[w].job.node, NodeState(s.db), s.workers[w].phase.outputs);
             Ordered(dag, GoTo(s, w, Scheduling(ready))) && Flat(dag, GoTo(s, w, Scheduling(ready)))
    ensures var ready := ReadySuccessors(dag, s.workers[w].job.node, NodeState(s.db), s.workers[w].phase.outputs);
            Orderly(dag, GoTo(s, w, Scheduling(ready)))
  {
    var ready := ReadySuccessors(dag, s.workers[w].job.node, NodeState(s.db), s.workers[w].phase.outputs);
    var t := GoTo(s, w, Scheduling(ready));
    ReadyDistinct(dag, s.workers[w].job.node, NodeState(s.db), s.workers[w].phase.outputs);
    forall x | x in ready ensures !IsShown(s, x) { ReadyIsNew(dag, s, w, x); }
    ScheduledLists(dag, s, w, ready);
    ScheduledJobs(s, w, ready);
    forall n, a | IsShown(t, n) && Connected(dag.edges, a, n) ensures !IsPending(t, a) { BehindThen(dag, s, w, n, a); }
  }

  lemma AdvanceKeeps(dag: Dag, s: Sys, w: nat, now: int)
    requires WellFormed(dag) && !HasJoin(dag) && Orderly(dag, s) && Ordered(dag, s) && Flat(dag, s)
    requires Enabled(dag, s, AdvanceStep(w, now))
    requires Ordered(dag, Apply(dag, s, AdvanceStep(w, now))) && Flat(dag, Apply(dag, s, AdvanceStep(w, now)))
    ensures Orderly(dag, Apply(dag, s, AdvanceStep(w, now)))
  {
    var Worker(job, Finished(outputs)) := s.workers[w];
    var t := Apply(dag, s, AdvanceStep(w, now));
    assert FlatWorker(dag, s.workers[w]);
    assert !ShouldLoop(FindNode(dag.nodes, job.node).value, outputs, job.iteration);
    var ready := ReadySuccessors(dag, job.node, NodeState(s.db), outputs);
    if ready != [] {
      ScheduleKeeps(dag, s, w);
    } else {
      LeaveShrinks(s, w);
      CloseShrinks(s, w);
      ShrinkKeeps(dag, s, t);
    }
  }

  lemma OrderlyStep(dag: Dag, s: Sys, step: Step)
    requires WellFormed(dag) && !HasJoin(dag) && Orderly(dag, s) && Ordered(dag, s) && Flat(dag, s) && Exclusive(s)
    requires Enabled(dag, s, step)
    ensures Orderly(dag, Apply(dag, s, step))
  {
    OrderedStep(dag, s, step);
    FlatStep(dag, s, step);
    if step.SucceedStep? {
      SuccessKeeps(dag, s, step.w, step.outputs);
    } else if step.EnqueueStep? {
      EnqueueKeeps(dag, s, step.w, step.now);
    } else if step.AdvanceStep? {
      AdvanceKeeps(dag, s, step.w, step.now);
    } else {
      RestShrinks(dag, s, step);
      ShrinkKeeps(dag, s, Apply(dag, s, step));
    }
  }

  // ---- every row there ever was ----------------------------------------------------------------

  /** At some point of the execution the queue held row id, of node n. */
  ghost predicate WasQueued(dag: Dag, now: int, steps: seq<Step>, id: nat, n: NodeId) {
    exists k | 0 <= k <= |steps| :: HeldRow(Exec(dag, Start(dag, now), steps[..k]), id, n)
  }

  ghost predicate HeldRow(s: Option<Sys>, id: nat, n: NodeId) { s.Some? && IsRow(s.value, id, n) }

  /** n was queued twice, at one time or at two. */
  ghost predicate QueuedTwice(dag: Dag, now: int, steps: seq<Step>, n: NodeId) {
    exists a, b :: a != b && WasQueued(dag, now, steps, a, n) && WasQueued(dag, now, steps, b, n)
  }

  /** So far every node was queued at most once, and jobs were finalised of rows there were. */
  ghost predicate OnceSoFar(dag: Dag, now: int, steps: seq<Step>, s: Sys) {
    (forall id: nat, n | WasQueued(dag, now, steps, id, n) :: id < s.db.nextId && (n, 0) in s.db.runNodes)
    && (forall n :: !QueuedTwice(dag, now, steps, n))
    && forall k | 0 <= k < |s.log| :: WasQueued(dag, now, steps, s.log[k].job.id, s.log[k].job.node)
  }

  lemma QueuedSince(dag: Dag, now: int, steps: seq<Step>, s: Sys, id: nat, n: NodeId)
    requires Execution(dag, now, steps, s) && steps != [] && WasQueued(dag, now, steps, id, n)
    ensures WasQueued(dag, now, steps[..|steps| - 1], id, n) || IsRow(s, id, n)
  {
    var k :| 0 <= k <= |steps| && HeldRow(Exec(dag, Start(dag, now), steps[..k]), id, n);
    if k < |steps| {
      assert steps[..|steps| - 1][..k] == steps[..k];
    } else {
      assert steps[..k] == steps;
    }
  }

  lemma QueuedBefore(dag: Dag, now: int, steps: seq<Step>, id: nat, n: NodeId)
    requires steps != [] && WasQueued(dag, now, steps[..|steps| - 1], id, n)
    ensures WasQueued(dag, now, steps, id, n)
  {
    var init := steps[..|steps| - 1];
    var k :| 0 <= k <= |init| && HeldRow(Exec(dag, Start(dag, now), init[..k]), id, n);
    assert init[..k] == steps[..k];
  }

  lemma QueuedNow(dag: Dag, now: int, steps: seq<Step>, s: Sys, id: nat, n: NodeId)
    requires Execution(dag, now, steps, s) && IsRow(s, id, n)
    ensures WasQueued(dag, now, steps, id, n)
  {
    assert steps[..|steps|] == steps;
    assert HeldRow(Exec(dag, Start(dag, now), steps[..|steps|]), id, n);
  }

  lemma AdvanceAddsNone(dag: Dag, m: Sys, w: nat, now: int)
    requires WellFormed(dag) && Flat(dag, m) && Enabled(dag, m, AdvanceStep(w, now))
    ensures Apply(dag, m, AdvanceStep(w, now)).db == m.db
  {
    var Worker(job, Finished(outputs)) := m.workers[w];
    assert FlatWorker(dag, m.workers[w]);
    assert !ShouldLoop(FindNode(dag.nodes, job.node).value, outputs, job.iteration);
  }

  lemma RowOrigin(dag: Dag, m: Sys, step: Step, id: nat, n: NodeId)
    requires WellFormed(dag) && Flat(dag, m) && Enabled(dag, m, step) && IsRow(Apply(dag, m, step), id, n)
    ensures IsRow(m, id, n)
            || (step.EnqueueStep? && id == m.db.nextId && n == m.workers[step.w].phase.todo[0])
  {
    if step.AdvanceStep? { AdvanceAddsNone(dag, m, step.w, step.now); }
  }

  /** A row that was not there a step before is of a node that had none yet. */
  lemma NewRows(dag: Dag, m: Sys, step: Step, id: nat, n: NodeId)
    requires WellFormed(dag) && Flat(dag, m) && ListsAreFresh(m) && Enabled(dag, m, step)
    requires IsRow(Apply(dag, m, step), id, n) && !IsRow(m, id, n)
    ensures id == m.db.nextId && (n, 0) !in m.db.runNodes
  {
    RowOrigin(dag, m, step, id, n);
    assert IsListed(m, m.workers[step.w].phase.todo[0]);
  }

  lemma RowsGrow(dag: Dag, m: Sys, step: Step)
    requires Enabled(dag, m, step) && Numbered(m)
    ensures m.db.runNodes.Keys <= Apply(dag, m, step).db.runNodes.Keys && m.db.nextId <= Apply(dag, m, step).db.nextId
  {}

  lemma LogOfRows(dag: Dag, m: Sys, step: Step, k: nat)
    requires Exclusive(m) && Enabled(dag, m, step) && |m.log| <= k < |Apply(dag, m, step).log|
    ensures IsRow(m, Apply(dag, m, step).log[k].job.id, Apply(dag, m, step).log[k].job.node)
  {}

  lemma LogExtends(dag: Dag, m: Sys, step: Step)
    requires Enabled(dag, m, step)
    ensures m.log <= Apply(dag, m, step).log
  {}

  lemma NotTwice(dag: Dag, now: int, steps: seq<Step>, m: Sys, s: Sys, a: nat, b: nat, n: NodeId)
    requires WellFormed(dag) && steps != [] && Execution(dag, now, steps, s)
    requires Execution(dag, now, steps[..|steps| - 1], m) && Enabled(dag, m, steps[|steps| - 1])
    requires s == Apply(dag, m, steps[|steps| - 1])
    requires Sound(dag, m) && Orderly(dag, m) && Orderly(dag, s) && OnceSoFar(dag, now, steps[..|steps| - 1], m)
    requires WasQueued(dag, now, steps, a, n) && WasQueued(dag, now, steps, b, n)
    ensures a == b
  {
    var init, step := steps[..|steps| - 1], steps[|steps| - 1];
    QueuedSince(dag, now, steps, s, a, n);
    QueuedSince(dag, now, steps, s, b, n);
    if IsRow(s, a, n) && !IsRow(m, a, n) { NewRows(dag, m, step, a, n); }
    if IsRow(s, b, n) && !IsRow(m, b, n) { NewRows(dag, m, step, b, n); }
    if IsRow(m, a, n) { QueuedNow(dag, now, init, m, a, n); }
    if IsRow(m, b, n) { QueuedNow(dag, now, init, m, b, n); }
    assert !QueuedTwice(dag, now, init, n);
  }

  lemma OnceStep(dag: Dag, now: int, steps: seq<Step>, m: Sys, s: Sys)
    requires WellFormed(dag) && steps != [] && Execution(dag, now, steps, s)
    requires Execution(dag, now, steps[..|steps| - 1], m) && Enabled(dag, m, steps[|steps| - 1])
    requires s == Apply(dag, m, steps[|steps| - 1])
    requires Sound(dag, m) && Sound(dag, s) && Exclusive(m) && Orderly(dag, m) && Orderly(dag, s)
    requires OnceSoFar(dag, now, steps[..|steps| - 1], m)
    ensures OnceSoFar(dag, now, steps, s)
  {
    var init, step := steps[..|steps| - 1], steps[|steps| - 1];
    RowsGrow(dag, m, step);
    LogExtends(dag, m, step);
    forall id: nat, n | WasQueued(dag, now, steps, id, n) ensures id < s.db.nextId && (n, 0) in s.db.runNodes {
      QueuedSince(dag, now, steps, s, id, n);
    }
    forall n ensures !QueuedTwice(dag, now, steps, n) {
      if a, b :| a != b && WasQueued(dag, now, steps, a, n) && WasQueued(dag, now, steps, b, n) {
        NotTwice(dag, now, steps, m, s, a, b, n);
      }
    }
    forall k | 0 <= k < |s.log| ensures WasQueued(dag, now, steps, s.log[k].job.id, s.log[k].job.node) {
      if k >= |m.log| {
        LogOfRows(dag, m, step, k);
        QueuedNow(dag, now, init, m, s.log[k].job.id, s.log[k].job.node);
      }
      QueuedBefore(dag, now, steps, s.log[k].job.id, s.log[k].job.node);
    }
  }

  lemma NothingBefore(dag: Dag, a: NodeId)
    requires Predecessors(dag.edges, dag.entry) == []
    ensures !Connected(dag.edges, a, dag.entry)
  {
    if Connected(dag.edges, a, dag.entry) {
      var p := LastEdge(dag.edges, a, dag.entry);
      PredecessorsMeaning(dag.edges, p, dag.entry);
    }
  }

  lemma OrderlyStart(dag: Dag, now: int)
    requires WellFormed(dag) && Predecessors(dag.edges, dag.entry) == []
    ensures Orderly(dag, Start(dag, now)) && OnceSoFar(dag, now, [], Start(dag, now))
  {
    var s, none: seq<Step> := Start(dag, now), [];
    forall n | IsShown(s, n) ensures n == dag.entry {}
    forall a ensures !Connected(dag.edges, a, dag.entry) { NothingBefore(dag, a); }
    forall id: nat, n | WasQueued(dag, now, [], id, n) ensures id == 0 && n == dag.entry {
      var k :| 0 <= k <= |none| && HeldRow(Exec(dag, s, none[..k]), id, n);
      assert none[..k] == [];
    }
  }

  lemma {:induction false} OnceAlways(dag: Dag, now: int, steps: seq<Step>, s: Sys)
    requires WellFormed(dag) && !HasJoin(dag) && Predecessors(dag.edges, dag.entry) == []
    requires Execution(dag, now, steps, s) && Leased(dag, now, steps)
    ensures Orderly(dag, s) && OnceSoFar(dag, now, steps, s)
    decreases |steps|
  {
    if steps == [] {
      OrderlyStart(dag, now);
    } else {
      var m := LastStep(dag, now, steps, s);
      LeasedPrefix(dag, now, steps, m);
      OnceAlways(dag, now, steps[..|steps| - 1], m);
      OnceMore(dag, now, steps, m, s);
    }
  }

  lemma OnceMore(dag: Dag, now: int, steps: seq<Step>, m: Sys, s: Sys)
    requires WellFormed(dag) && !HasJoin(dag) && Predecessors(dag.edges, dag.entry) == [] && steps != []
    requires Execution(dag, now, steps, s) && Leased(dag, now, steps[..|steps| - 1])
    requires Execution(dag, now, steps[..|steps| - 1], m) && Enabled(dag, m, steps[|steps| - 1])
    requires s == Apply(dag, m, steps[|steps| - 1])
    requires Orderly(dag, m) && OnceSoFar(dag, now, steps[..|steps| - 1], m)
    ensures Orderly(dag, s) && OnceSoFar(dag, now, steps, s)
  {
    var init := steps[..|steps| - 1];
    ExecutionSound(dag, now, init, m);
    ExecutionSound(dag, now, steps, s);
    OrderedAlways(dag, now, init, m);
    ExclusiveAlways(dag, now, init, m);
    OrderlyStep(dag, m, steps[|steps| - 1]);
    OnceStep(dag, now, steps, m, s);
  }

  /** Exactly once, however the workers interleave: if of two predecessors of a node one always leads to the other,
      and leases hold, no node is queued twice, finalised twice, or queued before an ancestor has scheduled. */
  lemma NodesRunOnce(dag: Dag, now: int, steps: seq<Step>, s: Sys)
    requires WellFormed(dag) && !HasJoin(dag) && Predecessors(dag.edges, dag.entry) == []
    requires Execution(dag, now, steps, s) && Leased(dag, now, steps)
    ensures forall n :: !QueuedTwice(dag, now, steps, n)
    ensures forall j, k | 0 <= j < k < |s.log| :: s.log[j].job.node != s.log[k].job.node
    ensures forall n, a | IsShown(s, n) && Connected(dag.edges, a, n) :: !IsPending(s, a)
  {
    OnceAlways(dag, now, steps, s);
    ExclusiveAlways(dag, now, steps, s);
    forall j, k | 0 <= j < k < |s.log| ensures s.log[j].job.node != s.log[k].job.node {
      assert WasQueued(dag, now, steps, s.log[j].job.id, s.log[j].job.node);
      assert WasQueued(dag, now, steps, s.log[k].job.id, s.log[k].job.node);
      assert !QueuedTwice(dag, now, steps, s.log[k].job.node);
    }
  }

  // ---- otherwise -------------------------------------------------------------------------------

  /** p and q both lead to n, but neither to the other. */
  ghost predicate Parts(dag: Dag, p: NodeId, q: NodeId, n: NodeId) {
    p != q && Connected(dag.edges, p, n) && Connected(dag.edges, q, n)
    && !Connected(dag.edges, p, q) && !Connected(dag.edges, q, p)
  }

  /** p is a predecessor of n that leads to none. */
  ghost predicate IsTop(dag: Dag, p: NodeId, n: NodeId) {
    HasEdge(dag.edges, p, n) && forall m | HasEdge(dag.edges, m, n) :: !Connected(dag.edges, p, m)
  }

  lemma {:induction false} ClimbToTop(dag: Dag, p: NodeId, n: NodeId) returns (top: NodeId)
    requires Acyclic(dag.edges) && HasEdge(dag.edges, p, n)
    ensures IsTop(dag, top, n) && LeadsTo(dag, p, top)
    decreases Rank(dag.edges, p)
  {
    top := p;
    if m :| HasEdge(dag.edges, m, n) && Connected(dag.edges, p, m) {
      RankFallsBelow(dag.edges, p, m);
      top := ClimbToTop(dag, m, n);
      if m != top { ConnectedTransitive(dag.edges, p, m, top); }
    }
  }

  /** Of the nodes where two branches come together take a first one: it has two predecessors that lead to none. */
  lemma {:induction false} FirstJoin(dag: Dag, p: NodeId, q: NodeId, n: NodeId)
    returns (a: NodeId, b: NodeId, z: NodeId)
    requires Acyclic(dag.edges) && Parts(dag, p, q, n)
    ensures a != b && IsTop(dag, a, z) && IsTop(dag, b, z)
    decreases Rank(dag.edges, p) - Rank(dag.edges, n)
  {
    RankFallsBelow(dag.edges, p, n);
    if c :| HasEdge(dag.edges, c, n) && Parts(dag, p, q, c) {
      RankFalls(dag.edges, c, n);
      RankFallsBelow(dag.edges, p, c);
      a, b, z := FirstJoin(dag, p, q, c);
    } else {
      var i := LastEdge(dag.edges, p, n);
      var j := LastEdge(dag.edges, q, n);
      a := ClimbToTop(dag, i, n);
      b := ClimbToTop(dag, j, n);
      z := n;
      LeadsAlong(dag, p, i, a);
      LeadsAlong(dag, q, j, b);
      assert !Parts(dag, p, q, a);
    }
  }

  lemma LeadsAlong(dag: Dag, a: NodeId, b: NodeId, c: NodeId)
    requires LeadsTo(dag, a, b) && LeadsTo(dag, b, c)
    ensures LeadsTo(dag, a, c)
  {
    if a != b && b != c { ConnectedTransitive(dag.edges, a, b, c); }
  }

  /** The nodes that neither a nor b leads to, but for the two. */
  ghost function Beside(dag: Dag, a: NodeId, b: NodeId): set<NodeId> {
    set n | n in Names(dag) && !LeadsTo(dag, a, n) && !LeadsTo(dag, b, n)
  }

  ghost predicate IsRooted(dag: Dag) {
    Predecessors(dag.edges, dag.entry) == []
    && forall n | Declared(dag, n) && n != dag.entry :: Connected(dag.edges, dag.entry, n)
  }

  lemma {:induction false} NamedIsDeclared(nodes: seq<Node>, i: nat)
    requires i < |nodes|
    ensures FindNode(nodes, nodes[i].id).Some?
  {
    if i > 0 { NamedIsDeclared(nodes[1..], i - 1); }
  }

  lemma NameIsDeclared(dag: Dag, n: NodeId)
    requires n in Names(dag)
    ensures Declared(dag, n)
  {
    var i :| 0 <= i < |dag.nodes| && dag.nodes[i].id == n;
    NamedIsDeclared(dag.nodes, i);
  }

  lemma SourceIsDeclared(dag: Dag, p: NodeId, n: NodeId)
    requires WellFormed(dag) && HasEdge(dag.edges, p, n)
    ensures Declared(dag, p) && Declared(dag, n) && p in Names(dag) && n in Names(dag)
  {
    var i :| 0 <= i < |dag.edges| && dag.edges[i].src == p && dag.edges[i].dst == n;
    DeclaredIsNamed(dag, p);
    DeclaredIsNamed(dag, n);
  }

  /** With its predecessors done, any node of a rooted graph can run. */
  lemma CanRunAfter(dag: Dag, n: NodeId, done: set<NodeId>)
    requires WellFormed(dag) && IsRooted(dag) && Declared(dag, n)
    requires forall p | HasEdge(dag.edges, p, n) :: p in done
    ensures CanRerun(dag, Start(dag, 0), n, done)
  {
    if n == dag.entry {
      assert RowFor(Start(dag, 0).db, 0, n);
    } else {
      var p := LastEdge(dag.edges, dag.entry, n);
      assert FollowsOne(dag, n, done);
    }
  }

  lemma BesideIsClosed(dag: Dag, a: NodeId, b: NodeId, p: NodeId, n: NodeId)
    requires WellFormed(dag) && HasEdge(dag.edges, p, n) && n in Beside(dag, a, b)
    ensures p in Beside(dag, a, b)
  {
    SourceIsDeclared(dag, p, n);
    if LeadsTo(dag, a, p) { LeadsOver(dag, a, p, n); }
    if LeadsTo(dag, b, p) { LeadsOver(dag, b, p, n); }
  }

  lemma LeadsOver(dag: Dag, a: NodeId, p: NodeId, n: NodeId)
    requires LeadsTo(dag, a, p) && HasEdge(dag.edges, p, n)
    ensures Connected(dag.edges, a, n)
  {
    EdgeConnects(dag.edges, p, n);
    if a != p { ConnectedTransitive(dag.edges, a, p, n); }
  }

  lemma {:induction false} Highest(dag: Dag, s: set<NodeId>) returns (n: NodeId)
    requires s != {}
    ensures n in s && forall m | m in s :: Rank(dag.edges, m) <= Rank(dag.edges, n)
    decreases s
  {
    n :| n in s;
    if s != {n} {
      var rest := Highest(dag, s - {n});
      if Rank(dag.edges, n) < Rank(dag.edges, rest) { n := rest; }
      assert forall m | m in s :: m == n || m in s - {n} || m !in s;
    }
  }

  /** An order of them all, predecessors first. */
  lemma {:induction false} PlanBeside(dag: Dag, a: NodeId, b: NodeId, order: seq<NodeId>) returns (longer: seq<NodeId>)
    requires WellFormed(dag) && IsRooted(dag) && IsPlan(dag, Start(dag, 0), order)
    requires Elements(order) <= Beside(dag, a, b)
    ensures IsPlan(dag, Start(dag, 0), longer) && Elements(longer) == Beside(dag, a, b)
    decreases Beside(dag, a, b) - Elements(order)
  {
    var left := Beside(dag, a, b) - Elements(order);
    if left == {} {
      assert Beside(dag, a, b) <= Elements(order) + left;
      longer := order;
    } else {
      var n := Highest(dag, left);
      forall p | HasEdge(dag.edges, p, n) ensures p in Elements(order) {
        BesideIsClosed(dag, a, b, p, n);
        RankFalls(dag.edges, p, n);
      }
      NameIsDeclared(dag, n);
      CanRunAfter(dag, n, Elements(order));
      assert n !in order;
      PlanGrows(dag, Start(dag, 0), order, n);
      ElementsMore(order, n);
      longer := PlanBeside(dag, a, b, order + [n]);
    }
  }

  /** Two tops of z: the predecessors of either, and the other predecessors of z, are beside both. */
  ghost predicate AreTops(dag: Dag, a: NodeId, b: NodeId, z: NodeId) {
    a != b && IsTop(dag, a, z) && IsTop(dag, b, z)
  }

  lemma TopsAreClear(dag: Dag, a: NodeId, b: NodeId, z: NodeId, p: NodeId)
    requires WellFormed(dag) && AreTops(dag, a, b, z)
    ensures HasEdge(dag.edges, p, a) ==> p in Beside(dag, a, b)
    ensures HasEdge(dag.edges, p, z) ==> p in Beside(dag, a, b) + {a, b}
  {
    if HasEdge(dag.edges, p, a) {
      SourceIsDeclared(dag, p, a);
      if LeadsTo(dag, a, p) { LeadsOver(dag, a, p, a); }
      if LeadsTo(dag, b, p) { LeadsOver(dag, b, p, a); }
    }
    if HasEdge(dag.edges, p, z) { SourceIsDeclared(dag, p, z); }
  }

  /** The plan that leaves the two for the end. */
  ghost predicate IsJoinPlan(dag: Dag, order: seq<NodeId>, i: nat, a: NodeId, b: NodeId) {
    i + 2 == |order| && IsPlan(dag, Start(dag, 0), order) && order[i] == a && order[i + 1] == b
    && Elements(order[..i]) == Beside(dag, a, b) && Elements(order) <= Again(dag, Start(dag, 0))
  }

  lemma NotBeside(dag: Dag, a: NodeId, b: NodeId)
    ensures a !in Beside(dag, a, b) && b !in Beside(dag, a, b)
  {}

  lemma PlanGetsLonger(dag: Dag, order: seq<NodeId>, n: NodeId)
    requires WellFormed(dag) && IsRooted(dag) && IsPlan(dag, Start(dag, 0), order) && Declared(dag, n)
    requires n !in Elements(order) && forall p | HasEdge(dag.edges, p, n) :: p in Elements(order)
    ensures IsPlan(dag, Start(dag, 0), order + [n]) && Elements(order + [n]) == Elements(order) + {n}
  {
    assert n !in order;
    CanRunAfter(dag, n, Elements(order));
    PlanGrows(dag, Start(dag, 0), order, n);
    ElementsMore(order, n);
  }

  lemma {:induction false} PlanIsAgain(dag: Dag, s: Sys, order: seq<NodeId>, j: nat)
    requires IsPlan(dag, s, order) && j <= |order| && forall n | n in Elements(order) :: Declared(dag, n)
    ensures Elements(order[..j]) <= Again(dag, s)
  {
    if j > 0 {
      PlanIsAgain(dag, s, order, j - 1);
      assert InTurn(dag, s, order, j - 1) && order[j - 1] in Elements(order);
      RerunGrows(dag, s, order[j - 1], Elements(order[..j - 1]), Again(dag, s));
      AgainClosed(dag, s, order[j - 1]);
      assert order[..j] == order[..j - 1] + [order[j - 1]];
      ElementsMore(order[..j - 1], order[j - 1]);
    }
  }

  lemma JoinPlan(dag: Dag, a: NodeId, b: NodeId, z: NodeId) returns (order: seq<NodeId>, i: nat)
    requires WellFormed(dag) && IsRooted(dag) && AreTops(dag, a, b, z)
    ensures IsJoinPlan(dag, order, i, a, b)
  {
    assert Elements([]) == {};
    var first := PlanBeside(dag, a, b, []);
    forall p ensures HasEdge(dag.edges, p, a) ==> p in Elements(first) { TopsAreClear(dag, a, b, z, p); }
    forall p ensures HasEdge(dag.edges, p, b) ==> p in Elements(first) { TopsAreClear(dag, b, a, z, p); }
    SourceIsDeclared(dag, a, z);
    SourceIsDeclared(dag, b, z);
    NotBeside(dag, a, b);
    PlanGetsLonger(dag, first, a);
    PlanGetsLonger(dag, first + [a], b);
    order, i := first + [a] + [b], |first|;
    assert order[..i] == first && order[..|order|] == order;
    forall n | n in Elements(order) ensures Declared(dag, n) {
      if n != a && n != b { NameIsDeclared(dag, n); }
    }
    PlanIsAgain(dag, Start(dag, 0), order, |order|);
  }

  // ---- the two run side by side ----------------------------------------------------------------

  /** When all beside them have run, each of the two has a job. */
  lemma BothHaveJobs(dag: Dag, order: seq<NodeId>, i: nat, a: NodeId, b: NodeId, z: NodeId, t: Sys)
    requires WellFormed(dag) && AreTops(dag, a, b, z) && IsJoinPlan(dag, order, i, a, b)
    requires Progress(dag, Start(dag, 0), t, order, i)
    ensures HasJob(t, a) && HasJob(t, b)
    ensures forall p | HasEdge(dag.edges, p, z) :: p == a || p == b || HasStatus(t.db, p, Succeeded)
  {
    var s := Start(dag, 0);
    assert Due(dag, s, t, order, i, i) && Due(dag, s, t, order, i, i + 1);
    assert HasEdge(dag.edges, b, z);
    if HasEdge(dag.edges, a, b) { EdgeConnects(dag.edges, a, b); }
    forall p | HasEdge(dag.edges, p, z) && p != a && p != b ensures HasStatus(t.db, p, Succeeded) {
      TopsAreClear(dag, a, b, z, p);
      assert p in Elements(order[..i]);
      var j :| 0 <= j < i && order[..i][j] == p;
      assert HasStatus(t.db, order[j], Succeeded);
    }
  }

  lemma RanHoldsNone(dag: Dag, t: Sys, order: seq<NodeId>, i: nat, m: Sys, w: nat, outputs: seq<Entry>)
    requires i < |order| && Settled(dag, t) && Known(m) && Ran(dag, t, order, i, m, w, outputs)
    ensures NoneHolds(m)
  {
    forall v | v in m.workers && Holding(m.workers[v].phase) ensures m.workers[v].job.id !in m.db.queue {
      assert v in m.workers - {w} && v in t.workers - {w} && IsStray(t, v);
    }
  }

  lemma RanLeavesJob(dag: Dag, t: Sys, order: seq<NodeId>, i: nat, m: Sys, w: nat, outputs: seq<Entry>, n: NodeId)
    requires i < |order| && Ran(dag, t, order, i, m, w, outputs) && HasJob(t, n) && n != order[i]
    ensures HasJob(m, n)
  {
    if v :| IsRunning(t, v, n) {
      assert v in t.workers - {w} && v in m.workers - {w} && IsRunning(m, v, n);
    }
  }

  /** Both have run, and neither worker has taken its snapshot. */
  ghost predicate BothWait(dag: Dag, m: Sys, a: NodeId, b: NodeId, v: nat, w: nat) {
    v != w && IsFinished(m, v, a) && IsFinished(m, w, b)
    && FiresAll(dag, a, m.workers[v].phase.outputs) && FiresAll(dag, b, m.workers[w].phase.outputs)
  }

  lemma BothCanWait(dag: Dag, order: seq<NodeId>, i: nat, a: NodeId, b: NodeId, z: NodeId, t: Sys)
    returns (m: Sys, v: nat, w: nat)
    requires WellFormed(dag) && Satisfiable(dag) && AreTops(dag, a, b, z) && IsJoinPlan(dag, order, i, a, b)
    requires Gently(dag, Start(dag, 0), t) && Progress(dag, Start(dag, 0), t, order, i)
    ensures Gently(dag, Start(dag, 0), m) && BothWait(dag, m, a, b, v, w) && PredecessorsDone(dag, m.db, z)
  {
    var s := Start(dag, 0);
    StartSound(dag, 0);
    GentlySound(dag, s, t);
    BothHaveJobs(dag, order, i, a, b, z, t);
    SettledHoldsNone(dag, t);
    var u, first, outputs := JobRuns(dag, s, t, order, i);
    GentlySound(dag, s, u);
    RanHoldsNone(dag, t, order, i, u, first, outputs);
    RanLeavesJob(dag, t, order, i, u, first, outputs, b);
    var x, second, others := JobRuns(dag, s, u, order, i + 1);
    m, v, w := x, first, second;
    BothAreThere(dag, order, i, t, u, first, outputs, m, second, others);
    forall p | HasEdge(dag.edges, p, z) ensures HasStatus(m.db, p, Succeeded) {}
  }

  lemma BothAreThere(dag: Dag, order: seq<NodeId>, i: nat, t: Sys, u: Sys, v: nat, outputs: seq<Entry>,
                     m: Sys, w: nat, others: seq<Entry>)
    requires i + 1 < |order| && order[i] != order[i + 1]
    requires Ran(dag, t, order, i, u, v, outputs) && Ran(dag, u, order, i + 1, m, w, others)
    ensures BothWait(dag, m, order[i], order[i + 1], v, w)
  {
    assert v != w;
    assert v in u.workers - {w} && v in m.workers - {w};
  }

  /** A snapshot that finds z ready queues it. */
  lemma SnapshotQueues(dag: Dag, s: Sys, m: Sys, p: NodeId, z: NodeId, w: nat) returns (u: Sys, x: nat)
    requires Sound(dag, m) && Gently(dag, s, m) && HasEdge(dag.edges, p, z) && PredecessorsDone(dag, m.db, z)
    requires IsFinished(m, w, p) && FiresAll(dag, p, m.workers[w].phase.outputs)
    ensures Gently(dag, s, u) && u.workers == m.workers - {w} && SameSuccesses(m.db, u.db)
    ensures RowFor(u.db, x, z) && x >= m.db.nextId && forall id | id in m.db.queue :: SameRow(m.db, u.db, id)
  {
    SuccessorsMeaning(dag.edges, p, z);
    EdgeMakesReady(dag, m.db, p, m.workers[w].phase.outputs, z);
    assert Brings(dag, m, w, z);
    var n, added := RowsAreBrought(dag, s, m, w);
    u := n;
    x :| RowFor(u.db, x, z) && x >= m.db.nextId;
  }

  /** The first snapshot queues z, and the second queues it again. */
  lemma BothQueue(dag: Dag, m: Sys, a: NodeId, b: NodeId, z: NodeId, v: nat, w: nat) returns (u: Sys, x: nat, y: nat)
    requires WellFormed(dag) && AreTops(dag, a, b, z) && BothWait(dag, m, a, b, v, w)
    requires Gently(dag, Start(dag, 0), m) && PredecessorsDone(dag, m.db, z)
    ensures Gently(dag, Start(dag, 0), u) && x != y && IsRow(u, x, z) && IsRow(u, y, z)
  {
    var s := Start(dag, 0);
    StartSound(dag, 0);
    GentlySound(dag, s, m);
    var n, first := SnapshotQueues(dag, s, m, a, z, v);
    GentlySound(dag, s, n);
    assert w in m.workers - {v};
    u, y := SnapshotQueues(dag, s, n, b, z, w);
    x := first;
    assert SameRow(n.db, u.db, x);
  }

  // ---- the condition ---------------------------------------------------------------------------

  lemma GentlyIsLeased(dag: Dag, s: Sys) returns (steps: seq<Step>)
    requires Gently(dag, Start(dag, 0), s)
    ensures Execution(dag, 0, steps, s) && Leased(dag, 0, steps)
  {
    steps :| Exec(dag, Start(dag, 0), steps) == Some(s) && Sparing(dag, Start(dag, 0), steps);
  }

  /** Some execution in which leases hold queues a node twice. */
  ghost predicate CanQueueTwice(dag: Dag) {
    exists now, steps, s, n ::
      Execution(dag, now, steps, s) && Leased(dag, now, steps) && QueuedTwice(dag, now, steps, n)
  }

  lemma JoinQueuesTwice(dag: Dag)
    requires WellFormed(dag) && Satisfiable(dag) && IsRooted(dag) && HasJoin(dag)
    ensures CanQueueTwice(dag)
  {
    var p, q, n :| MeetAt(dag, p, q, n);
    EdgeConnects(dag.edges, p, n);
    EdgeConnects(dag.edges, q, n);
    var a, b, z := FirstJoin(dag, p, q, n);
    var order, i := JoinPlan(dag, a, b, z);
    JoinPlanRuns(dag, order, i, a, b);
    var t :| Gently(dag, Start(dag, 0), t) && Progress(dag, Start(dag, 0), t, order, i);
    var m, v, w := BothCanWait(dag, order, i, a, b, z, t);
    var u, x, y := BothQueue(dag, m, a, b, z, v, w);
    var steps := GentlyIsLeased(dag, u);
    QueuedNow(dag, 0, steps, u, x, z);
    QueuedNow(dag, 0, steps, u, y, z);
    assert QueuedTwice(dag, 0, steps, z);
  }

  lemma JoinPlanRuns(dag: Dag, order: seq<NodeId>, i: nat, a: NodeId, b: NodeId)
    requires WellFormed(dag) && Satisfiable(dag) && IsJoinPlan(dag, order, i, a, b)
    ensures CanProgress(dag, Start(dag, 0), order, i)
  {
    var s := Start(dag, 0);
    StartSound(dag, 0);
    forall n | n in UndoneNodes(dag, s.db) ensures n in Again(dag, s) {
      assert RowFor(s.db, 0, n);
      AgainClosed(dag, s, n);
    }
    PlanStarts(dag, s, order);
    PlanWorks(dag, s, order, i);
  }

  /** A node can be queued twice, no lease lost, exactly when some node has two predecessors neither of which leads
      to the other: for graphs whose entry leads to every node, and conditions that can be met together. */
  lemma QueuedTwiceIff(dag: Dag)
    requires WellFormed(dag) && Satisfiable(dag) && IsRooted(dag)
    ensures CanQueueTwice(dag) <==> HasJoin(dag)
  {
    if HasJoin(dag) {
      JoinQueuesTwice(dag);
    } else if CanQueueTwice(dag) {
      var now, steps, s, n :|
        Execution(dag, now, steps, s) && Leased(dag, now, steps) && QueuedTwice(dag, now, steps, n);
      NodesRunOnce(dag, now, steps, s);
    }
  }
}
