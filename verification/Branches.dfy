/** Two branches of one run whose jobs end side by side: without a sweep, a crash or a cancellation, and
    every claim one of an earliest row, a failure is buried, or a join queued twice
    (services/workflow-worker/app/main.py). */
module Branches {
  import opened Json
  import opened Dag
  import opened RunStore
  import opened Interleaving
  import opened SerialRuns
  import opened Overwriting
  import opened Hazards

  // ---- continuations without any of the three --------------------------------------------------

  /** Neither sweep nor crash nor cancellation; and if it is a claim, then of a row available no later than any. */
  predicate IsPlain(s: Sys, step: Step) {
    !step.SweepStep? && !step.CrashStep? && !step.CancelStep?
    && (step.ClaimStep? ==> Earliest(s.db.queue, step.id, step.now))
  }

  /** A run of such steps. */
  ghost predicate LeadsPlainly(dag: Dag, s: Sys, steps: seq<Step>, t: Sys) {
    Exec(dag, s, steps) == Some(t)
    && forall k | 0 <= k < |steps| :: IsPlainAfter(Exec(dag, s, steps[..k]), steps[k])
  }

  predicate IsPlainAfter(s: Option<Sys>, step: Step) { s.Some? && IsPlain(s.value, step) }

  ghost predicate Plainly(dag: Dag, s: Sys, t: Sys) { exists steps :: LeadsPlainly(dag, s, steps, t) }

  lemma PlainlyStays(dag: Dag, s: Sys)
    ensures Plainly(dag, s, s)
  {
    assert LeadsPlainly(dag, s, [], s);
  }

  lemma PlainlyStep(dag: Dag, s: Sys, t: Sys, step: Step)
    requires Plainly(dag, s, t) && Enabled(dag, t, step) && IsPlain(t, step)
    ensures Plainly(dag, s, Apply(dag, t, step))
  {
    var steps :| LeadsPlainly(dag, s, steps, t);
    Extend(dag, s, steps, step);
    var longer := steps + [step];
    forall k | 0 <= k < |longer| ensures IsPlainAfter(Exec(dag, s, longer[..k]), longer[k]) {
      if k < |steps| {
        assert longer[..k] == steps[..k];
      } else {
        assert longer[..k] == steps;
      }
    }
    assert LeadsPlainly(dag, s, longer, Apply(dag, t, step));
  }

  // ---- a row from the queue to its end ---------------------------------------------------------

  predicate IsWaiting(dag: Dag, t: Sys, id: nat) {
    id in t.db.queue && Earliest(t.db.queue, id, t.db.queue[id].availableAt) && Declared(dag, t.db.queue[id].node)
    && (t.db.queue[id].node, t.db.queue[id].iteration) in t.db.runNodes
    && t.db.status != Cancelled && t.nextWorker !in t.workers
  }

  /** A new worker claims a waiting row and is admitted. */
  lemma AdmitRow(dag: Dag, s: Sys, t: Sys, id: nat) returns (u: Sys)
    requires Plainly(dag, s, t) && IsWaiting(dag, t, id)
    ensures Plainly(dag, s, u) && u.workers == t.workers[t.nextWorker := Worker(JobOf(t.db, id), Admitted)]
    ensures u.db.runNodes == t.db.runNodes && u.db.queue - {id} == t.db.queue - {id}
    ensures u.db.nextId == t.db.nextId && u.db.status == t.db.status
    ensures u.nextWorker == t.nextWorker + 1 && u.log == t.log
  {
    var w := t.nextWorker;
    var claim := ClaimStep(id, "worker", t.db.queue[id].availableAt, LEASE);
    PlainlyStep(dag, s, t, claim);
    u := Apply(dag, t, claim);
    PlainlyStep(dag, s, u, FetchStep(w, true));
    u := Apply(dag, u, FetchStep(w, true));
  }

  /** And goes on to the running agent. */
  lemma ExecuteRow(dag: Dag, s: Sys, t: Sys, id: nat) returns (u: Sys)
    requires Plainly(dag, s, t) && IsWaiting(dag, t, id)
    ensures Plainly(dag, s, u) && u.workers == t.workers[t.nextWorker := Worker(JobOf(t.db, id), Executing)]
    ensures u.db.runNodes == t.db.runNodes[(t.db.queue[id].node, t.db.queue[id].iteration) := Running]
    ensures u.db.queue - {id} == t.db.queue - {id} && u.db.nextId == t.db.nextId
    ensures u.db.status == StartRun(t.db).status && u.nextWorker == t.nextWorker + 1 && u.log == t.log
  {
    var w := t.nextWorker;
    u := AdmitRow(dag, s, t, id);
    PlainlyStep(dag, s, u, StartNodeStep(w));
    u := Apply(dag, u, StartNodeStep(w));
    PlainlyStep(dag, s, u, StartRunStep(w));
    u := Apply(dag, u, StartRunStep(w));
  }

  /** The state once a new worker has finalised row id as succeeded. */
  function RowFinished(t: Sys, id: nat): Sys
    requires id in t.db.queue
  {
    Sys(Db(t.db.runNodes[(t.db.queue[id].node, t.db.queue[id].iteration) := Succeeded],
           t.db.queue - {id}, t.db.nextId, StartRun(t.db).status),
        t.workers[t.nextWorker := Worker(JobOf(t.db, id), Finished([]))], t.nextWorker + 1,
        t.log + [Final(JobOf(t.db, id), Succeeded)])
  }

  lemma SucceedState(t: Sys, m: Sys, id: nat)
    requires id in t.db.queue && t.nextWorker !in t.workers
    requires m.workers == t.workers[t.nextWorker := Worker(JobOf(t.db, id), Executing)]
    requires m.db.runNodes == t.db.runNodes[(t.db.queue[id].node, t.db.queue[id].iteration) := Running]
    requires m.db.queue - {id} == t.db.queue - {id} && m.db.nextId == t.db.nextId
    requires m.db.status == StartRun(t.db).status && m.nextWorker == t.nextWorker + 1 && m.log == t.log
    ensures FinalizeBy(m, t.nextWorker, Succeeded, Finished([])) == RowFinished(t, id)
  {
    var u, v := FinalizeBy(m, t.nextWorker, Succeeded, Finished([])), RowFinished(t, id);
    assert u.db.runNodes == v.db.runNodes && u.workers == v.workers;
  }

  /** And on to its success. */
  lemma FinishRow(dag: Dag, s: Sys, t: Sys, id: nat)
    requires Plainly(dag, s, t) && IsWaiting(dag, t, id)
    ensures Plainly(dag, s, RowFinished(t, id))
  {
    var m := ExecuteRow(dag, s, t, id);
    PlainlyStep(dag, s, m, SucceedStep(t.nextWorker, []));
    SucceedState(t, m, id);
  }

  /** The state once a new worker has finalised row id as failed and reported it. */
  function RowFailed(t: Sys, id: nat): Sys
    requires id in t.db.queue
  {
    Sys(Db(t.db.runNodes[(t.db.queue[id].node, t.db.queue[id].iteration) := Failed],
           t.db.queue - {id}, t.db.nextId, Failed),
        t.workers, t.nextWorker + 1, t.log + [Final(JobOf(t.db, id), Failed)])
  }

  lemma FailState(t: Sys, m: Sys, id: nat)
    requires id in t.db.queue && t.nextWorker !in t.workers
    requires m.workers == t.workers[t.nextWorker := Worker(JobOf(t.db, id), Executing)]
    requires m.db.runNodes == t.db.runNodes[(t.db.queue[id].node, t.db.queue[id].iteration) := Running]
    requires m.db.queue - {id} == t.db.queue - {id} && m.db.nextId == t.db.nextId
    requires m.nextWorker == t.nextWorker + 1 && m.log == t.log
    ensures var f := FinalizeBy(m, t.nextWorker, Failed, Reporting);
            Leave(f.(db := MarkFinished(f.db, Failed)), t.nextWorker) == RowFailed(t, id)
  {
    var f := FinalizeBy(m, t.nextWorker, Failed, Reporting);
    var u, v := Leave(f.(db := MarkFinished(f.db, Failed)), t.nextWorker), RowFailed(t, id);
    assert u.db.runNodes == v.db.runNodes && u.workers == v.workers;
  }

  /** Or to a reported failure. */
  lemma FailRow(dag: Dag, s: Sys, t: Sys, id: nat)
    requires Plainly(dag, s, t) && IsWaiting(dag, t, id)
    ensures Plainly(dag, s, RowFailed(t, id))
  {
    var m, w := t, t.nextWorker;
    m := ExecuteRow(dag, s, t, id);
    PlainlyStep(dag, s, m, FailStep(w));
    PlainlyStep(dag, s, Apply(dag, m, FailStep(w)), ReportStep(w));
    FailState(t, m, id);
  }

  /** The entry leads to p and q and nowhere else. */
  ghost predicate FansOut(dag: Dag, p: NodeId, q: NodeId) {
    FindNode(dag.nodes, dag.entry) == Some(Node(dag.entry, NoLoop)) && Declared(dag, p) && Declared(dag, q)
    && dag.entry != p && dag.entry != q && p != q
    && ReadySuccessors(dag, dag.entry, map[dag.entry := Succeeded], []) == [p, q]
  }

  /** The two workers between finalising and advancing. */
  function BothFinished(dag: Dag, p: NodeId, q: NodeId): Sys {
    Sys(Db(map[(dag.entry, 0) := Succeeded, (p, 0) := Succeeded, (q, 0) := Succeeded], map[], 3, Running),
        map[1 := Worker(Job(1, p, 0), Finished([])), 2 := Worker(Job(2, q, 0), Finished([]))], 3,
        [Final(Job(0, dag.entry, 0), Succeeded), Final(Job(1, p, 0), Succeeded), Final(Job(2, q, 0), Succeeded)])
  }

  function FannedOut(dag: Dag, p: NodeId, q: NodeId): Sys {
    Sys(Db(map[(dag.entry, 0) := Succeeded, (p, 0) := Pending, (q, 0) := Pending],
           map[1 := Row(p, 0, 0, None, 0), 2 := Row(q, 0, 0, None, 0)], 3, Running),
        map[], 1, [Final(Job(0, dag.entry, 0), Succeeded)])
  }

  /** The entry alone, finished. */
  function EntryFinished(dag: Dag): Sys {
    Sys(Db(map[(dag.entry, 0) := Succeeded], map[], 1, Running),
        map[0 := Worker(Job(0, dag.entry, 0), Finished([]))], 1, [Final(Job(0, dag.entry, 0), Succeeded)])
  }

  lemma EntryState(dag: Dag)
    ensures RowFinished(Start(dag, 0), 0) == EntryFinished(dag)
  {
    var u := RowFinished(Start(dag, 0), 0);
    assert u.db.runNodes == map[(dag.entry, 0) := Succeeded] && u.db.queue == map[];
    assert u.workers == EntryFinished(dag).workers && u.log == EntryFinished(dag).log;
  }

  lemma EntryFinishes(dag: Dag)
    requires Declared(dag, dag.entry)
    ensures Plainly(dag, Start(dag, 0), EntryFinished(dag))
  {
    var s := Start(dag, 0);
    PlainlyStays(dag, s);
    assert IsWaiting(dag, s, 0);
    FinishRow(dag, s, s, 0);
    EntryState(dag);
  }

  lemma EntrySchedules(dag: Dag, p: NodeId, q: NodeId)
    requires FansOut(dag, p, q)
    ensures Plainly(dag, Start(dag, 0), GoTo(EntryFinished(dag), 0, Scheduling([p, q])))
  {
    var t := EntryFinished(dag);
    EntryFinishes(dag);
    assert NodeState(t.db) == map[dag.entry := Succeeded] by { assert (dag.entry, 0) in t.db.runNodes; }
    PlainlyStep(dag, Start(dag, 0), t, AdvanceStep(0, 0));
  }

  lemma EntryFansTo(dag: Dag, p: NodeId, q: NodeId)
    requires FansOut(dag, p, q)
    ensures Plainly(dag, Start(dag, 0), FannedOut(dag, p, q))
  {
    var s := Start(dag, 0);
    EntrySchedules(dag, p, q);
    var u := GoTo(EntryFinished(dag), 0, Scheduling([p, q]));
    assert [p, q][1..] == [q];
    PlainlyStep(dag, s, u, EnqueueStep(0, 0));
    u := Apply(dag, u, EnqueueStep(0, 0));
    PlainlyStep(dag, s, u, EnqueueStep(0, 0));
    u := Apply(dag, u, EnqueueStep(0, 0));
    assert u.db.runNodes == FannedOut(dag, p, q).db.runNodes && u.db.queue == FannedOut(dag, p, q).db.queue;
    assert u.workers == map[];
    assert u == FannedOut(dag, p, q);
  }

  /** The first branch done. */
  function OneFinished(dag: Dag, p: NodeId, q: NodeId): Sys {
    Sys(Db(map[(dag.entry, 0) := Succeeded, (p, 0) := Succeeded, (q, 0) := Pending], map[2 := Row(q, 0, 0, None, 0)],
           3, Running),
        map[1 := Worker(Job(1, p, 0), Finished([]))], 2,
        [Final(Job(0, dag.entry, 0), Succeeded), Final(Job(1, p, 0), Succeeded)])
  }

  lemma OneState(dag: Dag, p: NodeId, q: NodeId)
    requires FansOut(dag, p, q)
    ensures RowFinished(FannedOut(dag, p, q), 1) == OneFinished(dag, p, q)
  {
    var u, v := RowFinished(FannedOut(dag, p, q), 1), OneFinished(dag, p, q);
    assert u.db.runNodes == v.db.runNodes && u.db.queue == v.db.queue;
    assert u.workers == v.workers && u.log == v.log;
  }

  lemma TwoState(dag: Dag, p: NodeId, q: NodeId)
    requires FansOut(dag, p, q)
    ensures RowFinished(OneFinished(dag, p, q), 2) == BothFinished(dag, p, q)
  {
    var u, v := RowFinished(OneFinished(dag, p, q), 2), BothFinished(dag, p, q);
    assert u.db.runNodes == v.db.runNodes && u.db.queue == v.db.queue;
    assert u.workers == v.workers && u.log == v.log;
  }

  lemma BothFinish(dag: Dag, p: NodeId, q: NodeId)
    requires FansOut(dag, p, q)
    ensures Plainly(dag, Start(dag, 0), BothFinished(dag, p, q))
  {
    var s := Start(dag, 0);
    EntryFansTo(dag, p, q);
    FinishRow(dag, s, FannedOut(dag, p, q), 1);
    OneState(dag, p, q);
    FinishRow(dag, s, OneFinished(dag, p, q), 2);
    TwoState(dag, p, q);
  }

  /** A rank that rises along every edge leaves no room for a cycle. */
  lemma {:induction false} RankRises(edges: seq<Edge>, rank: NodeId -> int, p: seq<NodeId>)
    requires (forall i | 0 <= i < |edges| :: rank(edges[i].src) < rank(edges[i].dst)) && IsPath(edges, p)
    ensures rank(p[0]) < rank(p[|p| - 1])
  {
    assert HasEdge(edges, p[0], p[0 + 1]);
    var i :| 0 <= i < |edges| && edges[i].src == p[0] && edges[i].dst == p[0 + 1];
    if |p| > 2 {
      assert IsPath(edges, p[1..]) by {
        forall k | 0 <= k < |p[1..]| - 1 ensures HasEdge(edges, p[1..][k], p[1..][k + 1]) {
          assert HasEdge(edges, p[k + 1], p[k + 1 + 1]);
        }
      }
      RankRises(edges, rank, p[1..]);
    }
  }

  lemma RankedIsAcyclic(edges: seq<Edge>, rank: NodeId -> int)
    requires forall i | 0 <= i < |edges| :: rank(edges[i].src) < rank(edges[i].dst)
    ensures Acyclic(edges)
  {
    forall n ensures !Connected(edges, n, n) {
      if p :| IsPath(edges, p) && p[0] == n && p[|p| - 1] == n { RankRises(edges, rank, p); }
    }
  }

  // ---- unconditional edges, told by position ---------------------------------------------------

  predicate HasSucceeded(state: map<NodeId, Status>, n: NodeId) { n in state && state[n] == Succeeded }

  predicate Open(dag: Dag, n: NodeId, state: map<NodeId, Status>) {
    forall i | 0 <= i < |dag.edges| && dag.edges[i].dst == n :: HasSucceeded(state, dag.edges[i].src)
  }

  lemma OpenIsUnblocked(dag: Dag, n: NodeId, state: map<NodeId, Status>)
    requires Open(dag, n, state)
    ensures AllSucceeded(Predecessors(dag.edges, n), state)
  {
    forall p | p in Predecessors(dag.edges, n) ensures HasSucceeded(state, p) {
      PredecessorsMeaning(dag.edges, p, n);
    }
  }

  /** The edge at k leads from n to an open node. */
  predicate Serves(dag: Dag, n: NodeId, state: map<NodeId, Status>, k: nat) {
    k < |dag.edges| && dag.edges[k].src == n && dag.edges[k].condition == "" && Open(dag, dag.edges[k].dst, state)
  }

  lemma ReadyByEdge(dag: Dag, n: NodeId, state: map<NodeId, Status>, k: nat)
    requires Serves(dag, n, state, k)
    ensures ReadyFrom(dag, n, state, [], k) == [dag.edges[k].dst] + ReadyFrom(dag, n, state, [], k + 1)
  {
    ReadyFromStep(dag, n, state, [], k);
    OpenIsUnblocked(dag, dag.edges[k].dst, state);
  }

  /** Edges that leave other nodes contribute nothing. */
  lemma {:induction false} ReadySkips(dag: Dag, n: NodeId, state: map<NodeId, Status>, j: nat, k: nat)
    requires j <= k <= |dag.edges| && forall i | j <= i < k :: dag.edges[i].src != n
    ensures ReadyFrom(dag, n, state, [], j) == ReadyFrom(dag, n, state, [], k)
    decreases k - j
  {
    if j < k {
      ReadyFromStep(dag, n, state, [], j);
      ReadySkips(dag, n, state, j + 1, k);
    }
  }

  lemma OneIsReady(dag: Dag, n: NodeId, state: map<NodeId, Status>, k: nat)
    requires Serves(dag, n, state, k)
    requires forall i | 0 <= i < |dag.edges| && i != k :: dag.edges[i].src != n
    ensures ReadySuccessors(dag, n, state, []) == [dag.edges[k].dst]
  {
    ReadySkips(dag, n, state, 0, k);
    ReadyByEdge(dag, n, state, k);
    ReadySkips(dag, n, state, k + 1, |dag.edges|);
    assert dag.edges[0..] == dag.edges && dag.edges[|dag.edges|..] == [];
  }

  lemma TwoAreReady(dag: Dag, n: NodeId, state: map<NodeId, Status>)
    requires Serves(dag, n, state, 0) && Serves(dag, n, state, 1)
    requires forall i | 2 <= i < |dag.edges| :: dag.edges[i].src != n
    ensures ReadySuccessors(dag, n, state, []) == [dag.edges[0].dst, dag.edges[1].dst]
  {
    ReadyByEdge(dag, n, state, 0);
    ReadyByEdge(dag, n, state, 1);
    ReadySkips(dag, n, state, 2, |dag.edges|);
    assert dag.edges[0..] == dag.edges && dag.edges[|dag.edges|..] == [];
  }

  lemma {:induction false} NoSuccessors(edges: seq<Edge>, n: NodeId)
    requires forall i | 0 <= i < |edges| :: edges[i].src != n
    ensures Successors(edges, n) == []
  {
    if edges != [] {
      forall i | 0 <= i < |edges[1..]| ensures edges[1..][i].src != n { assert edges[i + 1].src != n; }
      NoSuccessors(edges[1..], n);
    }
  }

  // ---- the two graphs --------------------------------------------------------------------------

  function Plain(n: NodeId): Node { Node(n, NoLoop) }

  /** An entry with two branches; one of them goes on. */
  function Fork(e: NodeId, p: NodeId, q: NodeId, z: NodeId): Dag {
    Dag(e, [Plain(e), Plain(p), Plain(q), Plain(z)], [Edge(e, p, ""), Edge(e, q, ""), Edge(p, z, "")])
  }

  /** An entry with two branches that join. */
  function Join(e: NodeId, p: NodeId, q: NodeId, z: NodeId): Dag {
    Dag(e, [Plain(e), Plain(p), Plain(q), Plain(z)],
        [Edge(e, p, ""), Edge(e, q, ""), Edge(p, z, ""), Edge(q, z, "")])
  }

  predicate Distinct(e: NodeId, p: NodeId, q: NodeId, z: NodeId) {
    e != p && e != q && e != z && p != q && p != z && q != z
  }

  /** What the two have in common. */
  predicate Splits(dag: Dag, e: NodeId, p: NodeId, q: NodeId, z: NodeId) {
    && Distinct(e, p, q, z)
    && dag.entry == e && dag.nodes == [Plain(e), Plain(p), Plain(q), Plain(z)]
    && 3 <= |dag.edges| <= 4
    && dag.edges[0] == Edge(e, p, "") && dag.edges[1] == Edge(e, q, "") && dag.edges[2] == Edge(p, z, "")
    && (|dag.edges| == 4 ==> dag.edges[3] == Edge(q, z, ""))
  }

  lemma SplitNodes(dag: Dag, e: NodeId, p: NodeId, q: NodeId, z: NodeId)
    requires Splits(dag, e, p, q, z)
    ensures FindNode(dag.nodes, e) == Some(Plain(e)) && FindNode(dag.nodes, p) == Some(Plain(p))
    ensures FindNode(dag.nodes, q) == Some(Plain(q)) && FindNode(dag.nodes, z) == Some(Plain(z))
  {
    var nodes := dag.nodes;
    assert nodes[1..][1..] == nodes[2..] && nodes[2..][1..] == nodes[3..];
    assert FindNode(nodes[3..], z) == Some(Plain(z));
    assert FindNode(nodes[2..], q) == Some(Plain(q)) && FindNode(nodes[2..], z) == Some(Plain(z));
  }

  lemma SplitFansOut(dag: Dag, e: NodeId, p: NodeId, q: NodeId, z: NodeId)
    requires Splits(dag, e, p, q, z)
    ensures FansOut(dag, p, q)
  {
    SplitNodes(dag, e, p, q, z);
    TwoAreReady(dag, e, map[e := Succeeded]);
  }

  /** The node behind p is ready, unless it has another predecessor that is not done. */
  lemma SplitGoesOn(dag: Dag, e: NodeId, p: NodeId, q: NodeId, z: NodeId, state: map<NodeId, Status>)
    requires Splits(dag, e, p, q, z) && HasSucceeded(state, p) && HasSucceeded(state, q)
    ensures ReadySuccessors(dag, p, state, []) == [z]
    ensures |dag.edges| == 4 ==> ReadySuccessors(dag, q, state, []) == [z]
    ensures |dag.edges| == 3 ==> ReadySuccessors(dag, q, state, []) == [] && IsTerminal(dag, q)
  {
    OneIsReady(dag, p, state, 2);
    if |dag.edges| == 4 {
      OneIsReady(dag, q, state, 3);
    } else {
      ReadySkips(dag, q, state, 0, 3);
      assert dag.edges[0..] == dag.edges && dag.edges[|dag.edges|..] == [];
      NoSuccessors(dag.edges, q);
    }
  }

  lemma {:induction false} NoneLoops(nodes: seq<Node>, n: NodeId)
    requires (forall i | 0 <= i < |nodes| :: nodes[i].loop == NoLoop) && FindNode(nodes, n).Some?
    ensures FindNode(nodes, n).value.loop == NoLoop
  {
    if nodes[0].id != n { NoneLoops(nodes[1..], n); }
  }

  lemma SplitIsWellFormed(dag: Dag, e: NodeId, p: NodeId, q: NodeId, z: NodeId)
    requires Splits(dag, e, p, q, z)
    ensures WellFormed(dag)
  {
    SplitNodes(dag, e, p, q, z);
    RankedIsAcyclic(dag.edges, (n: NodeId) => if n == e then 0 else if n == z then 2 else 1);
    forall n | Declared(dag, n) ensures !LoopEnabled(FindNode(dag.nodes, n).value.loop) { NoneLoops(dag.nodes, n); }
  }

  // ---- a failure buried ------------------------------------------------------------------------

  lemma BothState(dag: Dag, p: NodeId, q: NodeId)
    ensures NodeState(BothFinished(dag, p, q).db) == map[dag.entry := Succeeded, p := Succeeded, q := Succeeded]
  {
    var db := BothFinished(dag, p, q).db;
    assert (dag.entry, 0) in db.runNodes && (p, 0) in db.runNodes && (q, 0) in db.runNodes;
    assert NodeState(db).Keys == {dag.entry, p, q};
  }

  /** The branch without successors decides to close. */
  function OneClosing(dag: Dag, p: NodeId, q: NodeId): Sys { GoTo(BothFinished(dag, p, q), 2, Closing) }

  lemma BranchDecides(e: NodeId, p: NodeId, q: NodeId, z: NodeId)
    requires Distinct(e, p, q, z)
    ensures var dag := Fork(e, p, q, z); Plainly(dag, Start(dag, 0), OneClosing(dag, p, q))
  {
    var dag := Fork(e, p, q, z);
    var t := BothFinished(dag, p, q);
    SplitNodes(dag, e, p, q, z);
    SplitFansOut(dag, e, p, q, z);
    BothFinish(dag, p, q);
    BothState(dag, p, q);
    SplitGoesOn(dag, e, p, q, z, NodeState(t.db));
    PlainlyStep(dag, Start(dag, 0), t, AdvanceStep(2, 0));
  }

  /** A worker whose successors are ready goes to schedule them. */
  lemma SchedulesNext(dag: Dag, s: Sys, t: Sys, w: nat, next: seq<NodeId>)
    requires Plainly(dag, s, t) && w in t.workers && t.workers[w].phase == Finished([])
    requires FindNode(dag.nodes, t.workers[w].job.node) == Some(Plain(t.workers[w].job.node))
    requires ReadySuccessors(dag, t.workers[w].job.node, NodeState(t.db), []) == next && next != []
    ensures Plainly(dag, s, GoTo(t, w, Scheduling(next)))
  {
    PlainlyStep(dag, s, t, AdvanceStep(w, 0));
  }

  /** And the other branch goes on. */
  function OneQueued(dag: Dag, p: NodeId, q: NodeId, z: NodeId): Sys {
    Sys(Db(map[(dag.entry, 0) := Succeeded, (p, 0) := Succeeded, (q, 0) := Succeeded, (z, 0) := Pending],
           map[3 := Row(z, 0, 0, None, 0)], 4, Running),
        map[2 := Worker(Job(2, q, 0), Closing)], 3, BothFinished(dag, p, q).log)
  }

  lemma OtherState(dag: Dag, p: NodeId, q: NodeId, z: NodeId)
    requires Distinct(dag.entry, p, q, z)
    ensures EnqueueBy(GoTo(OneClosing(dag, p, q), 1, Scheduling([z])), 1, 0) == OneQueued(dag, p, q, z)
  {
    var u, v := EnqueueBy(GoTo(OneClosing(dag, p, q), 1, Scheduling([z])), 1, 0), OneQueued(dag, p, q, z);
    assert u.db.runNodes == v.db.runNodes && u.db.queue == v.db.queue && u.workers == v.workers;
  }

  lemma OtherGoesOn(e: NodeId, p: NodeId, q: NodeId, z: NodeId)
    requires Distinct(e, p, q, z)
    ensures var dag := Fork(e, p, q, z); Plainly(dag, Start(dag, 0), OneQueued(dag, p, q, z))
  {
    var dag := Fork(e, p, q, z);
    var t := OneClosing(dag, p, q);
    SplitNodes(dag, e, p, q, z);
    BranchDecides(e, p, q, z);
    BothState(dag, p, q);
    SplitGoesOn(dag, e, p, q, z, NodeState(t.db));
    SchedulesNext(dag, Start(dag, 0), t, 1, [z]);
    PlainlyStep(dag, Start(dag, 0), GoTo(t, 1, Scheduling([z])), EnqueueStep(1, 0));
    OtherState(dag, p, q, z);
  }

  /** One of two branches has still to go on when the other decides to close: the run comes to be marked failed and
      then succeeded, the failed node row still there. */
  lemma FanOutBuriesFailure(e: NodeId, p: NodeId, q: NodeId, z: NodeId)
    returns (steps: seq<Step>, m: Sys, more: seq<Step>, t: Sys)
    requires Distinct(e, p, q, z)
    ensures var dag := Fork(e, p, q, z);
            WellFormed(dag) && LeadsPlainly(dag, Start(dag, 0), steps, m) && LeadsPlainly(dag, m, more, t)
    ensures m.db.status == Failed && t.db.status == Succeeded && HasStatus(t.db, z, Failed)
  {
    var dag := Fork(e, p, q, z);
    SplitIsWellFormed(dag, e, p, q, z);
    SplitNodes(dag, e, p, q, z);
    OtherGoesOn(e, p, q, z);
    FailRow(dag, Start(dag, 0), OneQueued(dag, p, q, z), 3);
    m := RowFailed(OneQueued(dag, p, q, z), 3);
    steps :| LeadsPlainly(dag, Start(dag, 0), steps, m);
    PlainlyStays(dag, m);
    PlainlyStep(dag, m, m, CloseStep(2));
    t := Apply(dag, m, CloseStep(2));
    more :| LeadsPlainly(dag, m, more, t);
  }

  // ---- a join queued twice ---------------------------------------------------------------------

  lemma JoinReady(e: NodeId, p: NodeId, q: NodeId, z: NodeId)
    requires Distinct(e, p, q, z)
    ensures var dag, state := Join(e, p, q, z), map[e := Succeeded, p := Succeeded, q := Succeeded];
            ReadySuccessors(dag, p, state, []) == [z] && ReadySuccessors(dag, q, state, []) == [z]
  {
    SplitGoesOn(Join(e, p, q, z), e, p, q, z, map[e := Succeeded, p := Succeeded, q := Succeeded]);
  }

  /** The two workers about to queue z. */
  function BothScheduling(dag: Dag, p: NodeId, q: NodeId, z: NodeId): Sys {
    GoTo(GoTo(BothFinished(dag, p, q), 1, Scheduling([z])), 2, Scheduling([z]))
  }

  lemma BothSchedule(e: NodeId, p: NodeId, q: NodeId, z: NodeId)
    requires Distinct(e, p, q, z)
    ensures var dag := Join(e, p, q, z); Plainly(dag, Start(dag, 0), BothScheduling(dag, p, q, z))
  {
    var dag := Join(e, p, q, z);
    var s, t := Start(dag, 0), BothFinished(dag, p, q);
    SplitNodes(dag, e, p, q, z);
    SplitFansOut(dag, e, p, q, z);
    BothFinish(dag, p, q);
    BothState(dag, p, q);
    JoinReady(e, p, q, z);
    SchedulesNext(dag, s, t, 1, [z]);
    SchedulesNext(dag, s, GoTo(t, 1, Scheduling([z])), 2, [z]);
  }

  /** The node where the branches join, queued once by each. */
  function JoinedTwice(e: NodeId, p: NodeId, q: NodeId, z: NodeId): Db {
    Db(map[(e, 0) := Succeeded, (p, 0) := Succeeded, (q, 0) := Succeeded, (z, 0) := Pending],
       map[3 := Row(z, 0, 0, None, 0), 4 := Row(z, 0, 0, None, 0)], 5, Running)
  }

  function Joined(e: NodeId, p: NodeId, q: NodeId, z: NodeId): Sys {
    Sys(JoinedTwice(e, p, q, z), map[], 3, BothFinished(Join(e, p, q, z), p, q).log)
  }

  lemma JoinedState(e: NodeId, p: NodeId, q: NodeId, z: NodeId)
    requires Distinct(e, p, q, z)
    ensures var u := EnqueueBy(BothScheduling(Join(e, p, q, z), p, q, z), 1, 0);
            At(u, 2, Scheduling([z])) && EnqueueBy(u, 2, 0) == Joined(e, p, q, z)
  {
    var v := EnqueueBy(EnqueueBy(BothScheduling(Join(e, p, q, z), p, q, z), 1, 0), 2, 0);
    assert v.db.queue == JoinedTwice(e, p, q, z).queue && v.db.runNodes == JoinedTwice(e, p, q, z).runNodes;
    assert v.workers == map[];
  }

  lemma JoinComesTwice(e: NodeId, p: NodeId, q: NodeId, z: NodeId)
    requires Distinct(e, p, q, z)
    ensures var dag := Join(e, p, q, z); Plainly(dag, Start(dag, 0), Joined(e, p, q, z))
  {
    var dag := Join(e, p, q, z);
    BothSchedule(e, p, q, z);
    var s, t := Start(dag, 0), BothScheduling(dag, p, q, z);
    PlainlyStep(dag, s, t, EnqueueStep(1, 0));
    PlainlyStep(dag, s, EnqueueBy(t, 1, 0), EnqueueStep(2, 0));
    JoinedState(e, p, q, z);
  }

  /** Both branches finished before either schedules: the queue holds two rows of the node where they join. */
  lemma JoinIsQueuedTwice(e: NodeId, p: NodeId, q: NodeId, z: NodeId) returns (steps: seq<Step>, u: Sys)
    requires Distinct(e, p, q, z)
    ensures var dag := Join(e, p, q, z); WellFormed(dag) && LeadsPlainly(dag, Start(dag, 0), steps, u)
    ensures u.db == JoinedTwice(e, p, q, z) && u.workers == map[]
  {
    var dag := Join(e, p, q, z);
    SplitIsWellFormed(dag, e, p, q, z);
    JoinComesTwice(e, p, q, z);
    u := Joined(e, p, q, z);
    steps :| LeadsPlainly(dag, Start(dag, 0), steps, u);
  }

  /** Once the first of the two rows has failed. */
  function JoinFailed(e: NodeId, p: NodeId, q: NodeId, z: NodeId): Sys {
    Sys(Db(map[(e, 0) := Succeeded, (p, 0) := Succeeded, (q, 0) := Succeeded, (z, 0) := Failed],
           map[4 := Row(z, 0, 0, None, 0)], 5, Failed),
        map[], 4, Joined(e, p, q, z).log + [Final(Job(3, z, 0), Failed)])
  }

  lemma JoinFails(e: NodeId, p: NodeId, q: NodeId, z: NodeId)
    requires Distinct(e, p, q, z)
    ensures var dag := Join(e, p, q, z); Plainly(dag, Start(dag, 0), JoinFailed(e, p, q, z))
  {
    var dag := Join(e, p, q, z);
    SplitNodes(dag, e, p, q, z);
    JoinComesTwice(e, p, q, z);
    FailRow(dag, Start(dag, 0), Joined(e, p, q, z), 3);
    var u, v := RowFailed(Joined(e, p, q, z), 3), JoinFailed(e, p, q, z);
    assert u.db.runNodes == v.db.runNodes && u.db.queue == v.db.queue;
  }

  /** And the second has succeeded. */
  function JoinFinished(e: NodeId, p: NodeId, q: NodeId, z: NodeId): Sys {
    Sys(Db(map[(e, 0) := Succeeded, (p, 0) := Succeeded, (q, 0) := Succeeded, (z, 0) := Succeeded], map[], 5, Failed),
        map[4 := Worker(Job(4, z, 0), Finished([]))], 5,
        JoinFailed(e, p, q, z).log + [Final(Job(4, z, 0), Succeeded)])
  }

  lemma JoinFinishes(e: NodeId, p: NodeId, q: NodeId, z: NodeId)
    requires Distinct(e, p, q, z)
    ensures var dag := Join(e, p, q, z); Plainly(dag, JoinFailed(e, p, q, z), JoinFinished(e, p, q, z))
  {
    var dag, m := Join(e, p, q, z), JoinFailed(e, p, q, z);
    SplitNodes(dag, e, p, q, z);
    PlainlyStays(dag, m);
    FinishRow(dag, m, m, 4);
    var u, v := RowFinished(m, 4), JoinFinished(e, p, q, z);
    assert u.db.runNodes == v.db.runNodes && u.db.queue == v.db.queue && u.workers == v.workers;
  }

  lemma JoinCloses(e: NodeId, p: NodeId, q: NodeId, z: NodeId) returns (t: Sys)
    requires Distinct(e, p, q, z)
    ensures var dag := Join(e, p, q, z); Plainly(dag, JoinFailed(e, p, q, z), t)
    ensures t.db == MarkFinished(JoinFinished(e, p, q, z).db, Succeeded) && t.log == JoinFinished(e, p, q, z).log
  {
    JoinFinishes(e, p, q, z);
    JoinDecides(e, p, q, z);
    t := LastClose(Join(e, p, q, z), JoinFailed(e, p, q, z), JoinFinished(e, p, q, z), 4);
  }

  lemma JoinDecides(e: NodeId, p: NodeId, q: NodeId, z: NodeId)
    requires Distinct(e, p, q, z)
    ensures var dag, u := Join(e, p, q, z), JoinFinished(e, p, q, z);
            Enabled(dag, u, AdvanceStep(4, 0)) && Apply(dag, u, AdvanceStep(4, 0)) == GoTo(u, 4, Closing)
  {
    var dag, u := Join(e, p, q, z), JoinFinished(e, p, q, z);
    SplitNodes(dag, e, p, q, z);
    NoSuccessors(dag.edges, z);
    JoinFinishes(e, p, q, z);
    ClosingDecision(dag, u, 4, 0);
  }

  lemma LastClose(dag: Dag, s: Sys, u: Sys, w: nat) returns (t: Sys)
    requires Plainly(dag, s, u) && w in u.workers
    requires Enabled(dag, u, AdvanceStep(w, 0)) && Apply(dag, u, AdvanceStep(w, 0)) == GoTo(u, w, Closing)
    ensures Plainly(dag, s, t) && t.db == MarkFinished(u.db, Succeeded) && t.log == u.log
  {
    PlainlyStep(dag, s, u, AdvanceStep(w, 0));
    PlainlyStep(dag, s, GoTo(u, w, Closing), CloseStep(w));
    t := Apply(dag, GoTo(u, w, Closing), CloseStep(w));
  }

  /** The job of the first row fails, the run is marked failed, and the job of the second undoes that. */
  lemma JoinUndoesFailure(e: NodeId, p: NodeId, q: NodeId, z: NodeId)
    returns (steps: seq<Step>, m: Sys, more: seq<Step>, t: Sys)
    requires Distinct(e, p, q, z)
    ensures var dag := Join(e, p, q, z);
            WellFormed(dag) && LeadsPlainly(dag, Start(dag, 0), steps, m) && LeadsPlainly(dag, m, more, t)
    ensures m.db.status == Failed && m.db.queue == map[4 := Row(z, 0, 0, None, 0)]
    ensures m.log == Joined(e, p, q, z).log + [Final(Job(3, z, 0), Failed)]
    ensures t.db.status == Succeeded && t.log == m.log + [Final(Job(4, z, 0), Succeeded)]
  {
    var dag := Join(e, p, q, z);
    SplitIsWellFormed(dag, e, p, q, z);
    JoinFails(e, p, q, z);
    m := JoinFailed(e, p, q, z);
    steps :| LeadsPlainly(dag, Start(dag, 0), steps, m);
    t := JoinCloses(e, p, q, z);
    more :| LeadsPlainly(dag, m, more, t);
  }
}
