/** Unconditional graphs handled one job at a time with every job succeeding: every node runs exactly
    once, after all its predecessors, and the drained run is marked succeeded
    (services/workflow-worker/app/main.py, services/workflow-worker/app/dag.py). */
module CompleteRuns {
  import opened Basics
  import opened Json
  import opened Dag
  import opened RunStore
  import opened SerialRuns
  import Conditions

  /** A well-formed graph without conditions in which the entry leads to every other node. */
  ghost predicate Unconditional(dag: Dag) {
    && WellFormed(dag)
    && (forall i | 0 <= i < |dag.edges| :: dag.edges[i].condition == "")
    && (forall n | Declared(dag, n) :: n == dag.entry || Connected(dag.edges, dag.entry, n))
  }

  /** A serial run that is never cancelled and whose jobs all succeed. */
  ghost predicate Smooth(dag: Dag, now: int, events: seq<Event>, dbs: seq<Db>) {
    && Serial(dag, now, events, dbs)
    && (forall i | 0 <= i < |events| :: events[i].HandleEvent? && events[i].outcome.Success?)
  }

  /** The node handled by the i-th job. */
  ghost function NodeAt(events: seq<Event>, dbs: seq<Db>, i: nat): NodeId
    requires i < |events| && i < |dbs| && events[i].HandleEvent? && events[i].id in dbs[i].queue
  {
    dbs[i].queue[events[i].id].node
  }

  ghost predicate HandledBefore(dag: Dag, now: int, events: seq<Event>, dbs: seq<Db>, k: nat, n: NodeId)
    requires Smooth(dag, now, events, dbs) && k <= |events|
  {
    exists i :: 0 <= i < k && NodeAt(events, dbs, i) == n
  }

  /** Whatever the rows allow to start has been started. */
  ghost predicate Prompt(dag: Dag, db: Db) {
    forall s | Declared(dag, s) && s != dag.entry && Predecessors(dag.edges, s) != [] &&
      (forall p | HasEdge(dag.edges, p, s) :: HasStatus(db, p, Succeeded)) :: (s, 0) in db.runNodes
  }

  /** The nodes that have succeeded are exactly those handled. */
  ghost predicate SucceededAreHandled(dag: Dag, now: int, events: seq<Event>, dbs: seq<Db>, k: nat)
    requires Smooth(dag, now, events, dbs) && k <= |events|
  {
    forall n :: HasStatus(dbs[k], n, Succeeded) <==> HandledBefore(dag, now, events, dbs, k, n)
  }

  /** The state after k smooth jobs. */
  ghost predicate OnTrack(dag: Dag, now: int, events: seq<Event>, dbs: seq<Db>, k: nat)
    requires Smooth(dag, now, events, dbs) && k <= |events|
  {
    var db := dbs[k];
    && Tidy(dag, db) && Faithful(db) && Prompt(dag, db)
    && (dag.entry, 0) in db.runNodes
    && db.status != Cancelled && db.status != Failed
    && SucceededAreHandled(dag, now, events, dbs, k)
  }

  /** Unconditional edges all fire. */
  lemma AllFire(dag: Dag, n: NodeId, outputs: seq<Entry>, s: NodeId, state: map<NodeId, Status>)
    requires Unconditional(dag) && HasEdge(dag.edges, n, s)
    requires forall p | HasEdge(dag.edges, p, s) :: p in state && state[p] == Succeeded
    ensures s in ReadySuccessors(dag, n, state, outputs)
  {
    var i :| 0 <= i < |dag.edges| && dag.edges[i].src == n && dag.edges[i].dst == s;
    assert Fires(dag.edges[i], n, outputs);
    ReadyMeaning(dag, n, state, outputs, s);
  }

  lemma EdgeToDeclared(dag: Dag, a: NodeId, b: NodeId)
    requires WellFormed(dag) && HasEdge(dag.edges, a, b)
    ensures Declared(dag, a) && Declared(dag, b)
  {
    var i :| 0 <= i < |dag.edges| && dag.edges[i].src == a && dag.edges[i].dst == b;
  }

  /** Advancing succeeds no further node, loses no row, and starts every ready successor. */
  lemma AdvanceEffect(dag: Dag, db: Db, id: nat, outputs: seq<Entry>, now: int)
    requires WellFormed(dag) && Tidy(dag, db) && Faithful(db)
    requires id in db.queue && db.status != Cancelled && db.status != Failed
    requires Declared(dag, db.queue[id].node)
    ensures var f := Settle(db, id, Succeeded);
      var db' := Advance(dag, f, JobOf(db, id), outputs, now);
      && (forall n :: HasStatus(db', n, Succeeded) <==> HasStatus(f, n, Succeeded))
      && f.runNodes.Keys <= db'.runNodes.Keys
      && (forall r | r in ReadySuccessors(dag, db.queue[id].node, NodeState(f), outputs) :: (r, 0) in db'.runNodes)
      && db'.status != Cancelled && db'.status != Failed
  {
    var f := Settle(db, id, Succeeded);
    SettleTidy(dag, db, id, Succeeded);
    NeverLoops(dag, db, id, outputs);
    var ready := ReadySuccessors(dag, db.queue[id].node, NodeState(f), outputs);
    if ready != [] {
      ReadyStartable(dag, db, id, outputs);
      EnqueueAllTidy(dag, f, ready, now);
      assert Grew(f, EnqueueAll(f, ready, now), set n | n in ready);
    }
  }

  /** A succeeding job leaves nothing behind that could have been started. */
  lemma SuccessEffect(dag: Dag, db: Db, id: nat, outputs: seq<Entry>, now: int)
    requires Unconditional(dag) && Tidy(dag, db) && Faithful(db) && Prompt(dag, db)
    requires id in db.queue && db.status != Cancelled && db.status != Failed
    ensures var db' := Advance(dag, Settle(db, id, Succeeded), JobOf(db, id), outputs, now);
      && (forall n :: HasStatus(db', n, Succeeded) <==> HasStatus(db, n, Succeeded) || n == db.queue[id].node)
      && db.runNodes.Keys <= db'.runNodes.Keys
      && db'.status != Cancelled && db'.status != Failed
      && Prompt(dag, db')
  {
    var m := db.queue[id].node;
    var f := Settle(db, id, Succeeded);
    var db' := Advance(dag, f, JobOf(db, id), outputs, now);
    assert HasStatus(db, m, Pending) && Started(dag, db, m);
    AdvanceEffect(dag, db, id, outputs, now);
    assert forall n :: HasStatus(f, n, Succeeded) <==> HasStatus(db, n, Succeeded) || n == m;
    forall s | Declared(dag, s) && s != dag.entry && Predecessors(dag.edges, s) != [] &&
        (forall p | HasEdge(dag.edges, p, s) :: HasStatus(db', p, Succeeded))
      ensures (s, 0) in db'.runNodes
    {
      if HasEdge(dag.edges, m, s) {
        assert forall p | HasEdge(dag.edges, p, s) :: HasStatus(f, p, Succeeded);
        AllFire(dag, m, outputs, s, NodeState(f));
      } else {
        assert forall p | HasEdge(dag.edges, p, s) :: HasStatus(db, p, Succeeded);
      }
    }
  }

  lemma StartsOnTrack(dag: Dag, now: int, events: seq<Event>, dbs: seq<Db>)
    requires Unconditional(dag) && Smooth(dag, now, events, dbs)
    ensures OnTrack(dag, now, events, dbs, 0)
  {
    SerialKeeps(dag, now, events, dbs, 0);
    assert forall n :: !HasStatus(dbs[0], n, Succeeded);
    forall s | Predecessors(dag.edges, s) != [] ensures exists p :: HasEdge(dag.edges, p, s) {
      PredecessorsMeaning(dag.edges, Predecessors(dag.edges, s)[0], s);
    }
    assert Prompt(dag, dbs[0]);
  }

  lemma HandledGrows(dag: Dag, now: int, events: seq<Event>, dbs: seq<Db>, k: nat, n: NodeId)
    requires Smooth(dag, now, events, dbs) && k < |events|
    ensures HandledBefore(dag, now, events, dbs, k + 1, n)
            <==> HandledBefore(dag, now, events, dbs, k, n) || n == NodeAt(events, dbs, k)
  {}

  /** What one more job does to the state. */
  lemma JobEffect(dag: Dag, now: int, events: seq<Event>, dbs: seq<Db>, k: nat)
    requires Unconditional(dag) && Smooth(dag, now, events, dbs) && k < |events|
    requires OnTrack(dag, now, events, dbs, k)
    ensures var db, db' := dbs[k], dbs[k + 1];
            (forall n :: HasStatus(db', n, Succeeded) <==> HasStatus(db, n, Succeeded) || n == NodeAt(events, dbs, k))
            && db.runNodes.Keys <= db'.runNodes.Keys
            && db'.status != Cancelled && db'.status != Failed
            && Prompt(dag, db')
  {
    var db, e := dbs[k], events[k];
    PlayShape(dag, db, e);
    assert HasStatus(db, db.queue[e.id].node, Pending) && Started(dag, db, db.queue[e.id].node);
    SuccessEffect(dag, db, e.id, e.outcome.outputs, e.now);
  }

  lemma HandledStep(dag: Dag, now: int, events: seq<Event>, dbs: seq<Db>, k: nat, next: nat)
    requires Smooth(dag, now, events, dbs) && next == k + 1 <= |events| && SucceededAreHandled(dag, now, events, dbs, k)
    requires forall n :: HasStatus(dbs[next], n, Succeeded) <==>
             HasStatus(dbs[k], n, Succeeded) || n == NodeAt(events, dbs, k)
    ensures SucceededAreHandled(dag, now, events, dbs, next)
  {
    forall n ensures HasStatus(dbs[next], n, Succeeded) <==> HandledBefore(dag, now, events, dbs, next, n) {
      HandledGrows(dag, now, events, dbs, k, n);
    }
  }

  lemma TrackStep(dag: Dag, now: int, events: seq<Event>, dbs: seq<Db>, k: nat)
    requires Unconditional(dag) && Smooth(dag, now, events, dbs) && k < |events|
    requires OnTrack(dag, now, events, dbs, k)
    ensures OnTrack(dag, now, events, dbs, k + 1)
  {
    JobEffect(dag, now, events, dbs, k);
    HandledStep(dag, now, events, dbs, k, k + 1);
    SerialKeeps(dag, now, events, dbs, k + 1);
  }

  ghost predicate TrackedTo(dag: Dag, now: int, events: seq<Event>, dbs: seq<Db>, k: nat) {
    Smooth(dag, now, events, dbs) && k <= |events| && OnTrack(dag, now, events, dbs, k)
  }

  ghost function Track(dag: Dag, now: int, events: seq<Event>, dbs: seq<Db>): nat -> bool {
    (k: nat) => TrackedTo(dag, now, events, dbs, k)
  }

  lemma TrackIsOnward(dag: Dag, now: int, events: seq<Event>, dbs: seq<Db>, k: nat)
    requires Unconditional(dag) && Smooth(dag, now, events, dbs) && k < |events|
    ensures Onward(Track(dag, now, events, dbs), k)
  {
    if OnTrack(dag, now, events, dbs, k) { TrackStep(dag, now, events, dbs, k); }
  }

  lemma StaysOnTrack(dag: Dag, now: int, events: seq<Event>, dbs: seq<Db>, k: nat)
    requires Unconditional(dag) && Smooth(dag, now, events, dbs) && k <= |events|
    ensures OnTrack(dag, now, events, dbs, k)
  {
    StartsOnTrack(dag, now, events, dbs);
    forall j: nat | j < k ensures Onward(Track(dag, now, events, dbs), j) { TrackIsOnward(dag, now, events, dbs, j); }
    AllTheWay(Track(dag, now, events, dbs), 0, k);
  }

  // ---- the theorem --------------------------------------------------------------------

  /** No node is handled twice, and a node is handled only after all its predecessors. */
  lemma OnceInTopologicalOrder(dag: Dag, now: int, events: seq<Event>, dbs: seq<Db>, i: nat, j: nat)
    requires Unconditional(dag) && Smooth(dag, now, events, dbs) && i < |events| && j < |events|
    ensures i != j ==> NodeAt(events, dbs, i) != NodeAt(events, dbs, j)
    ensures HasEdge(dag.edges, NodeAt(events, dbs, i), NodeAt(events, dbs, j)) ==> i < j
  {
    var a, b := NodeAt(events, dbs, i), NodeAt(events, dbs, j);
    NotHandledTwice(dag, now, events, dbs, i, j);
    NotHandledTwice(dag, now, events, dbs, j, i);
    if HasEdge(dag.edges, a, b) {
      StaysOnTrack(dag, now, events, dbs, j);
      EdgeConnects(dag.edges, a, b);
      assert HasStatus(dbs[j], b, Pending);
      if b == dag.entry {
        StaysOnTrack(dag, now, events, dbs, i);
        assert HasStatus(dbs[i], a, Pending) && Started(dag, dbs[i], a);
        ConnectedTransitive(dag.edges, b, a, b);
      }
      assert HasStatus(dbs[j], a, Succeeded);
      var h :| 0 <= h < j && NodeAt(events, dbs, h) == a;
      NotHandledTwice(dag, now, events, dbs, h, i);
      NotHandledTwice(dag, now, events, dbs, i, h);
    }
  }

  lemma NotHandledTwice(dag: Dag, now: int, events: seq<Event>, dbs: seq<Db>, i: nat, j: nat)
    requires Unconditional(dag) && Smooth(dag, now, events, dbs) && i < |events| && j < |events|
    ensures i < j ==> NodeAt(events, dbs, i) != NodeAt(events, dbs, j)
  {
    StaysOnTrack(dag, now, events, dbs, j);
    assert HasStatus(dbs[j], NodeAt(events, dbs, j), Pending);
    assert i < j && NodeAt(events, dbs, i) == NodeAt(events, dbs, j) ==>
        HandledBefore(dag, now, events, dbs, j, NodeAt(events, dbs, j));
  }

  lemma RankBound(edges: seq<Edge>, n: NodeId)
    ensures Rank(edges, n) <= |Targets(edges)|
  {
    SubsetSize(Below(edges, n), Targets(edges));
  }

  /** Once no row is left, every declared node has succeeded. */
  lemma {:induction false} DrainedMeansAll(dag: Dag, now: int, events: seq<Event>, dbs: seq<Db>, n: NodeId)
    requires Unconditional(dag) && Smooth(dag, now, events, dbs)
    requires dbs[|events|].queue == map[] && Declared(dag, n)
    ensures HasStatus(dbs[|events|], n, Succeeded)
    decreases |Targets(dag.edges)| - Rank(dag.edges, n)
  {
    var db := dbs[|events|];
    StaysOnTrack(dag, now, events, dbs, |events|);
    if n != dag.entry {
      var m := LastEdge(dag.edges, dag.entry, n);
      PredecessorsMeaning(dag.edges, m, n);
      forall p | HasEdge(dag.edges, p, n) ensures HasStatus(db, p, Succeeded) {
        RankFalls(dag.edges, p, n);
        RankBound(dag.edges, p);
        EdgeToDeclared(dag, p, n);
        DrainedMeansAll(dag, now, events, dbs, p);
      }
    }
    assert (n, 0) in db.runNodes;
    assert HasStatus(db, n, Pending) ==> Queued(db, n);
    assert !HasStatus(db, n, Failed);
  }

  /** A drained run has handled every declared node, all of them succeeded, and is marked succeeded. */
  lemma DrainedRunIsComplete(dag: Dag, now: int, events: seq<Event>, dbs: seq<Db>)
    requires Unconditional(dag) && Smooth(dag, now, events, dbs)
    requires dbs[|events|].queue == map[]
    ensures dbs[|events|].status == Succeeded
    ensures forall n | Declared(dag, n) ::
      HasStatus(dbs[|events|], n, Succeeded) && HandledBefore(dag, now, events, dbs, |events|, n)
  {
    StaysOnTrack(dag, now, events, dbs, |events|);
    forall n | Declared(dag, n)
      ensures HasStatus(dbs[|events|], n, Succeeded) && HandledBefore(dag, now, events, dbs, |events|, n)
    {
      DrainedMeansAll(dag, now, events, dbs, n);
    }
    var k := |events| - 1;
    assert |events| > 0 by {
      assert 0 in dbs[0].queue;
    }
    DrainedRunClosesIff(dag, now, events, dbs, k) by {
      StaysOnTrack(dag, now, events, dbs, k);
    }
    var last := NodeAt(events, dbs, k);
    if !IsTerminal(dag, last) {
      var s := Successors(dag.edges, last)[0];
      SuccessorsMeaning(dag.edges, last, s);
      EdgeToDeclared(dag, last, s);
      assert HandledBefore(dag, now, events, dbs, |events|, s);
      var i :| 0 <= i < |events| && NodeAt(events, dbs, i) == s;
      OnceInTopologicalOrder(dag, now, events, dbs, k, i);
      assert false;
    }
  }

  /** A run that is not drained yet has a job to offer, so it can always be carried on to its end. */
  lemma ProgressUntilDrained(dag: Dag, now: int, events: seq<Event>, dbs: seq<Db>, outputs: seq<Entry>)
    returns (next: Event)
    requires Unconditional(dag) && Smooth(dag, now, events, dbs)
    requires dbs[|events|].queue != map[]
    ensures next.HandleEvent? && next.outcome == Success(outputs) && Possible(dbs[|events|], next)
  {
    var db := dbs[|events|];
    FreshRowsUnclaimed(dag, now, events, dbs, |events|);
    var id :| id in db.queue;
    next := HandleEvent(id, "worker", 120, Success(outputs), db.queue[id].availableAt);
  }

  ghost predicate Unclaimed(db: Db) { forall id | id in db.queue :: db.queue[id].claim == None }

  /** Between two jobs no row is claimed. */
  lemma FreshRowsUnclaimed(dag: Dag, now: int, events: seq<Event>, dbs: seq<Db>, k: nat)
    requires Unconditional(dag) && Smooth(dag, now, events, dbs) && k <= |events|
    ensures Unclaimed(dbs[k])
  {
    var holds := (j: nat) => UnclaimedAt(dbs, j);
    forall j: nat | j < k ensures Onward(holds, j) { UnclaimedStep(dag, now, events, dbs, j); }
    AllTheWay(holds, 0, k);
  }

  ghost predicate UnclaimedAt(dbs: seq<Db>, k: nat) { k < |dbs| && Unclaimed(dbs[k]) }

  lemma UnclaimedStep(dag: Dag, now: int, events: seq<Event>, dbs: seq<Db>, k: nat)
    requires Unconditional(dag) && Smooth(dag, now, events, dbs) && k < |events|
    ensures UnclaimedAt(dbs, k) ==> UnclaimedAt(dbs, k + 1)
  {
    SerialKeeps(dag, now, events, dbs, k);
    StaysOnTrack(dag, now, events, dbs, k);
    var db, e := dbs[k], events[k];
    PlayShape(dag, db, e);
    if Unclaimed(db) && Declared(dag, db.queue[e.id].node) {
      AdvanceUnclaimed(dag, Settle(db, e.id, Succeeded), JobOf(db, e.id), e.outcome.outputs, e.now);
    }
  }

  lemma AdvanceUnclaimed(dag: Dag, db: Db, job: Job, outputs: seq<Entry>, now: int)
    requires Declared(dag, job.node) && Unclaimed(db)
    ensures Unclaimed(Advance(dag, db, job, outputs, now))
  {
    EnqueueAllUnclaimed(db, ReadySuccessors(dag, job.node, NodeState(db), outputs), now);
  }

  lemma {:induction false} EnqueueAllUnclaimed(db: Db, nodes: seq<NodeId>, now: int)
    requires Unclaimed(db)
    ensures Unclaimed(EnqueueAll(db, nodes, now))
    decreases |nodes|
  {
    if nodes != [] {
      EnqueueAllUnclaimed(Enqueue(db, nodes[0], 0, now), nodes[1..], now);
    }
  }
}
