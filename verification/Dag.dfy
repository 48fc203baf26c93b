/** The workflow graph and its scheduling queries (services/workflow-worker/app/dag.py). */
module Dag {
  import opened Basics
  import opened Json
  import Conditions

  type NodeId = string

  datatype Status = Pending | Running | Succeeded | Failed | Cancelled

  /** The "loop" entry of a node: absent, a bare flag, or a table whose missing limit means 10. */
  datatype Loop = NoLoop | Flag(on: bool) | Table(enabled: bool, maxIterations: Option<int>)

  const DEFAULT_MAX_ITERATIONS := 10

  datatype Node = Node(id: NodeId, loop: Loop)

  /** An empty condition is an unconditional edge. */
  datatype Edge = Edge(src: NodeId, dst: NodeId, condition: string)

  datatype Dag = Dag(entry: NodeId, nodes: seq<Node>, edges: seq<Edge>)

  // ---- loops ------------------------------------------------------------

  predicate LoopEnabled(loop: Loop) {
    match loop
    case NoLoop => false
    case Flag(on) => on
    case Table(enabled, _) => enabled
  }

  function MaxIterations(loop: Loop): int {
    match loop
    case Table(_, Some(m)) => m
    case _ => DEFAULT_MAX_ITERATIONS
  }

  predicate ShouldLoop(node: Node, outputs: seq<Entry>, iteration: int) {
    LoopEnabled(node.loop) &&
    iteration < MaxIterations(node.loop) - 1 &&
    Truthy(Get(outputs, "_loop_continue"))
  }

  // ---- lookups ----------------------------------------------------------

  function FindNode(nodes: seq<Node>, n: NodeId): Option<Node> {
    if nodes == [] then None
    else if nodes[0].id == n then Some(nodes[0])
    else FindNode(nodes[1..], n)
  }

  predicate Declared(dag: Dag, n: NodeId) { FindNode(dag.nodes, n).Some? }

  function Successors(edges: seq<Edge>, n: NodeId): seq<NodeId> {
    if edges == [] then []
    else (if edges[0].src == n then [edges[0].dst] else []) + Successors(edges[1..], n)
  }

  function Predecessors(edges: seq<Edge>, n: NodeId): seq<NodeId> {
    if edges == [] then []
    else (if edges[0].dst == n then [edges[0].src] else []) + Predecessors(edges[1..], n)
  }

  predicate IsTerminal(dag: Dag, n: NodeId) { Successors(dag.edges, n) == [] }

  predicate Fires(e: Edge, n: NodeId, outputs: seq<Entry>) {
    e.src == n && Conditions.Evaluate(e.condition, Dict(outputs))
  }

  /** conditional_successors on a list of edges: the targets whose edge fires, in edge order. */
  function FiringTargets(edges: seq<Edge>, n: NodeId, outputs: seq<Entry>): seq<NodeId> {
    if edges == [] then []
    else (if Fires(edges[0], n, outputs) then [edges[0].dst] else []) + FiringTargets(edges[1..], n, outputs)
  }

  predicate AllSucceeded(ids: seq<NodeId>, state: map<NodeId, Status>) {
    forall p | p in ids :: p in state && state[p] == Succeeded
  }

  /** The targets among `candidates` whose predecessors have all succeeded. */
  function Unblocked(edges: seq<Edge>, candidates: seq<NodeId>, state: map<NodeId, Status>): seq<NodeId> {
    if candidates == [] then []
    else
      (if AllSucceeded(Predecessors(edges, candidates[0]), state) then [candidates[0]] else []) +
      Unblocked(edges, candidates[1..], state)
  }

  function ReadySuccessors(dag: Dag, n: NodeId, state: map<NodeId, Status>, outputs: seq<Entry>): seq<NodeId> {
    Unblocked(dag.edges, FiringTargets(dag.edges, n, outputs), state)
  }

  /** The worker's completion test: every declared node that has a row has succeeded. */
  predicate AllDone(dag: Dag, state: map<NodeId, Status>) {
    forall i | 0 <= i < |dag.nodes| ::
      dag.nodes[i].id in state ==> state[dag.nodes[i].id] == Succeeded
  }

  method ConditionalSuccessors(dag: Dag, n: NodeId, outputs: seq<Entry>) returns (result: seq<NodeId>)
    ensures result == FiringTargets(dag.edges, n, outputs)
  {
    result := [];
    var i := 0;
    while i < |dag.edges|
      invariant 0 <= i <= |dag.edges|
      invariant FiringTargets(dag.edges, n, outputs) == result + FiringTargets(dag.edges[i..], n, outputs)
    {
      if Fires(dag.edges[i], n, outputs) {
        result := result + [dag.edges[i].dst];
      }
      i := i + 1;
    }
  }

  lemma UnblockedStep(edges: seq<Edge>, candidates: seq<NodeId>, i: nat, state: map<NodeId, Status>, ready: seq<NodeId>)
    requires i < |candidates|
    ensures ready + Unblocked(edges, candidates[i..], state) ==
            (if AllSucceeded(Predecessors(edges, candidates[i]), state) then ready + [candidates[i]] else ready) +
            Unblocked(edges, candidates[i + 1..], state)
  {
    assert candidates[i..][1..] == candidates[i + 1..];
  }

  method FindReadySuccessors(dag: Dag, n: NodeId, state: map<NodeId, Status>, outputs: seq<Entry>)
    returns (ready: seq<NodeId>)
    ensures ready == ReadySuccessors(dag, n, state, outputs)
  {
    var candidates := ConditionalSuccessors(dag, n, outputs);
    ready := [];
    var i := 0;
    while i < |candidates|
      invariant 0 <= i <= |candidates|
      invariant Unblocked(dag.edges, candidates, state) == ready + Unblocked(dag.edges, candidates[i..], state)
    {
      var unblocked := AllSucceeded(Predecessors(dag.edges, candidates[i]), state);
      UnblockedStep(dag.edges, candidates, i, state, ready);
      if unblocked {
        ready := ready + [candidates[i]];
      }
      i := i + 1;
    }
  }

  // ---- what the queries mean --------------------------------------------

  predicate HasEdge(edges: seq<Edge>, a: NodeId, b: NodeId) {
    exists i | 0 <= i < |edges| :: edges[i].src == a && edges[i].dst == b
  }

  lemma {:induction false} SuccessorsMeaning(edges: seq<Edge>, a: NodeId, b: NodeId)
    ensures b in Successors(edges, a) <==> HasEdge(edges, a, b)
  {
    if edges != [] {
      SuccessorsMeaning(edges[1..], a, b);
      if HasEdge(edges[1..], a, b) {
        var i :| 0 <= i < |edges[1..]| && edges[1..][i].src == a && edges[1..][i].dst == b;
        assert edges[i + 1].src == a && edges[i + 1].dst == b;
      }
      if HasEdge(edges, a, b) {
        var i :| 0 <= i < |edges| && edges[i].src == a && edges[i].dst == b;
        assert i > 0 ==> edges[1..][i - 1].src == a && edges[1..][i - 1].dst == b;
      }
    }
  }

  lemma {:induction false} PredecessorsMeaning(edges: seq<Edge>, a: NodeId, b: NodeId)
    ensures a in Predecessors(edges, b) <==> HasEdge(edges, a, b)
  {
    if edges != [] {
      PredecessorsMeaning(edges[1..], a, b);
      if HasEdge(edges[1..], a, b) {
        var i :| 0 <= i < |edges[1..]| && edges[1..][i].src == a && edges[1..][i].dst == b;
        assert edges[i + 1].src == a && edges[i + 1].dst == b;
      }
      if HasEdge(edges, a, b) {
        var i :| 0 <= i < |edges| && edges[i].src == a && edges[i].dst == b;
        assert i > 0 ==> edges[1..][i - 1].src == a && edges[1..][i - 1].dst == b;
      }
    }
  }

  lemma {:induction false} FiringMeaning(edges: seq<Edge>, n: NodeId, outputs: seq<Entry>, s: NodeId)
    ensures s in FiringTargets(edges, n, outputs) <==>
            exists i | 0 <= i < |edges| :: Fires(edges[i], n, outputs) && edges[i].dst == s
  {
    if edges != [] {
      FiringMeaning(edges[1..], n, outputs, s);
      if s in FiringTargets(edges[1..], n, outputs) {
        var i :| 0 <= i < |edges[1..]| && Fires(edges[1..][i], n, outputs) && edges[1..][i].dst == s;
        assert Fires(edges[i + 1], n, outputs);
      }
      if i :| 0 <= i < |edges| && Fires(edges[i], n, outputs) && edges[i].dst == s {
        assert i > 0 ==> Fires(edges[1..][i - 1], n, outputs);
      }
    }
  }

  lemma {:induction false} UnblockedMeaning(edges: seq<Edge>, candidates: seq<NodeId>, state: map<NodeId, Status>,
                                            s: NodeId)
    ensures s in Unblocked(edges, candidates, state) <==>
            s in candidates && AllSucceeded(Predecessors(edges, s), state)
  {
    if candidates != [] {
      UnblockedMeaning(edges, candidates[1..], state, s);
    }
  }

  /** A node is scheduled exactly when an edge of the finished node fires towards it and all its
      predecessors have succeeded; the conditions of its other incoming edges play no part. */
  lemma ReadyMeaning(dag: Dag, n: NodeId, state: map<NodeId, Status>, outputs: seq<Entry>, s: NodeId)
    ensures s in ReadySuccessors(dag, n, state, outputs) <==>
            (exists i | 0 <= i < |dag.edges| :: Fires(dag.edges[i], n, outputs) && dag.edges[i].dst == s) &&
            (forall p | HasEdge(dag.edges, p, s) :: p in state && state[p] == Succeeded)
  {
    FiringMeaning(dag.edges, n, outputs, s);
    UnblockedMeaning(dag.edges, FiringTargets(dag.edges, n, outputs), state, s);
    forall p ensures p in Predecessors(dag.edges, s) <==> HasEdge(dag.edges, p, s) {
      PredecessorsMeaning(dag.edges, p, s);
    }
  }

  /** The target of one edge joins the list exactly when the edge starts at n and its condition is met, and in
      the place of the edge. */
  lemma FiringOne(e: Edge, n: NodeId, outputs: seq<Entry>)
    ensures FiringTargets([e], n, outputs)
            == if e.src == n && Conditions.Evaluate(e.condition, Dict(outputs)) then [e.dst] else []
  {
    assert [e][1..] == [];
  }

  lemma {:induction false} FiringJoins(a: seq<Edge>, b: seq<Edge>, n: NodeId, outputs: seq<Entry>)
    ensures FiringTargets(a + b, n, outputs) == FiringTargets(a, n, outputs) + FiringTargets(b, n, outputs)
  {
    if a == [] {
      assert a + b == b;
      assert [] + FiringTargets(b, n, outputs) == FiringTargets(b, n, outputs);
    } else {
      assert (a + b)[1..] == a[1..] + b;
      FiringJoins(a[1..], b, n, outputs);
      Associate(if Fires(a[0], n, outputs) then [a[0].dst] else [], FiringTargets(a[1..], n, outputs),
                FiringTargets(b, n, outputs));
    }
  }

  lemma TerminalIff(dag: Dag, n: NodeId)
    ensures IsTerminal(dag, n) <==> forall i | 0 <= i < |dag.edges| :: dag.edges[i].src != n
  {
    if !IsTerminal(dag, n) {
      var s := Successors(dag.edges, n)[0];
      assert s in Successors(dag.edges, n);
      SuccessorsMeaning(dag.edges, n, s);
    }
    if i :| 0 <= i < |dag.edges| && dag.edges[i].src == n {
      SuccessorsMeaning(dag.edges, n, dag.edges[i].dst);
    }
  }

  /** Node i is the first with that name. */
  predicate IsNode(dag: Dag, i: nat, n: NodeId) {
    i < |dag.nodes| && dag.nodes[i].id == n && forall j | 0 <= j < i :: dag.nodes[j].id != n
  }

  lemma {:induction false} FindsFirst(nodes: seq<Node>, n: NodeId) returns (i: nat)
    ensures i <= |nodes| && forall j | 0 <= j < i :: nodes[j].id != n
    ensures i < |nodes| ==> nodes[i].id == n && FindNode(nodes, n) == Some(nodes[i])
    ensures i == |nodes| ==> FindNode(nodes, n) == None
  {
    if nodes == [] || nodes[0].id == n {
      i := 0;
    } else {
      var k := FindsFirst(nodes[1..], n);
      i := k + 1;
      assert forall j | 0 < j < i :: nodes[j] == nodes[1..][j - 1];
    }
  }

  /** The node that is looked up is the first of its name. */
  lemma FindNodeMeaning(dag: Dag, n: NodeId)
    ensures forall i: nat :: IsNode(dag, i, n) ==> FindNode(dag.nodes, n) == Some(dag.nodes[i])
    ensures Declared(dag, n) <==> exists i: nat :: IsNode(dag, i, n)
    ensures Declared(dag, n) <==> exists i :: 0 <= i < |dag.nodes| && dag.nodes[i].id == n
  {
    var i := FindsFirst(dag.nodes, n);
    assert i < |dag.nodes| ==> IsNode(dag, i, n);
    forall k: nat | IsNode(dag, k, n) ensures k == i {}
  }

  lemma ReadyIsSuccessor(dag: Dag, n: NodeId, state: map<NodeId, Status>, outputs: seq<Entry>, s: NodeId)
    requires s in ReadySuccessors(dag, n, state, outputs)
    ensures HasEdge(dag.edges, n, s)
    ensures forall p | HasEdge(dag.edges, p, s) :: p in state && state[p] == Succeeded
  {
    ReadyMeaning(dag, n, state, outputs, s);
    var i :| 0 <= i < |dag.edges| && Fires(dag.edges[i], n, outputs) && dag.edges[i].dst == s;
    assert dag.edges[i].src == n && dag.edges[i].dst == s;
  }

  // ---- duplicate-free graphs --------------------------------------------

  predicate NoDuplicates<T(==)>(s: seq<T>) {
    forall i, j | 0 <= i < j < |s| :: s[i] != s[j]
  }

  predicate SimpleEdges(edges: seq<Edge>) {
    forall i, j | 0 <= i < j < |edges| :: !(edges[i].src == edges[j].src && edges[i].dst == edges[j].dst)
  }

  /** Two firing edges of n, from the k-th on, share a target that is not blocked. */
  ghost predicate SharesTarget(dag: Dag, n: NodeId, state: map<NodeId, Status>, outputs: seq<Entry>, k: nat) {
    exists i, j | k <= i < j < |dag.edges| ::
      Fires(dag.edges[i], n, outputs) && Fires(dag.edges[j], n, outputs) && dag.edges[i].dst == dag.edges[j].dst
      && AllSucceeded(Predecessors(dag.edges, dag.edges[i].dst), state)
  }

  function ReadyFrom(dag: Dag, n: NodeId, state: map<NodeId, Status>, outputs: seq<Entry>, k: nat): seq<NodeId>
    requires k <= |dag.edges|
  {
    Unblocked(dag.edges, FiringTargets(dag.edges[k..], n, outputs), state)
  }

  lemma ReadyFromStep(dag: Dag, n: NodeId, state: map<NodeId, Status>, outputs: seq<Entry>, k: nat)
    requires k < |dag.edges|
    ensures var e := dag.edges[k];
            var rest := ReadyFrom(dag, n, state, outputs, k + 1);
            ReadyFrom(dag, n, state, outputs, k)
            == if Fires(e, n, outputs) && AllSucceeded(Predecessors(dag.edges, e.dst), state) then [e.dst] + rest
               else rest
  {
    assert dag.edges[k..][0] == dag.edges[k] && dag.edges[k..][1..] == dag.edges[k + 1..];
    var targets := FiringTargets(dag.edges[k + 1..], n, outputs);
    assert [] + targets == targets && ([dag.edges[k].dst] + targets)[1..] == targets;
    assert [] + Unblocked(dag.edges, targets, state) == Unblocked(dag.edges, targets, state);
  }

  lemma ReadyFromMeaning(dag: Dag, n: NodeId, state: map<NodeId, Status>, outputs: seq<Entry>, k: nat, s: NodeId)
    requires k <= |dag.edges|
    ensures s in ReadyFrom(dag, n, state, outputs, k) <==>
            AllSucceeded(Predecessors(dag.edges, s), state)
            && exists j | k <= j < |dag.edges| :: Fires(dag.edges[j], n, outputs) && dag.edges[j].dst == s
  {
    var rest := dag.edges[k..];
    UnblockedMeaning(dag.edges, FiringTargets(rest, n, outputs), state, s);
    FiringMeaning(rest, n, outputs, s);
    assert forall i | 0 <= i < |rest| :: rest[i] == dag.edges[k + i];
    assert forall j | k <= j < |dag.edges| :: dag.edges[j] == rest[j - k];
  }

  /** Edge i leads from n, its condition is met, and every node with an edge to its target has succeeded. */
  ghost predicate Readies(dag: Dag, n: NodeId, state: map<NodeId, Status>, outputs: seq<Entry>, i: int)
    requires 0 <= i < |dag.edges|
  {
    var e := dag.edges[i];
    e.src == n && Conditions.Evaluate(e.condition, Dict(outputs))
    && forall j | 0 <= j < |dag.edges| && dag.edges[j].dst == e.dst ::
         dag.edges[j].src in state && state[dag.edges[j].src] == Succeeded
  }

  lemma ReadiesIff(dag: Dag, n: NodeId, state: map<NodeId, Status>, outputs: seq<Entry>, i: nat)
    requires i < |dag.edges|
    ensures Readies(dag, n, state, outputs, i)
            <==> Fires(dag.edges[i], n, outputs) && AllSucceeded(Predecessors(dag.edges, dag.edges[i].dst), state)
  {
    forall p ensures p in Predecessors(dag.edges, dag.edges[i].dst) <==> HasEdge(dag.edges, p, dag.edges[i].dst) {
      PredecessorsMeaning(dag.edges, p, dag.edges[i].dst);
    }
    if Readies(dag, n, state, outputs, i) {
      forall p | p in Predecessors(dag.edges, dag.edges[i].dst) ensures p in state && state[p] == Succeeded {
        var j :| 0 <= j < |dag.edges| && dag.edges[j].src == p && dag.edges[j].dst == dag.edges[i].dst;
      }
    } else if Fires(dag.edges[i], n, outputs) {
      var j :| 0 <= j < |dag.edges| && dag.edges[j].dst == dag.edges[i].dst
               && !(dag.edges[j].src in state && state[dag.edges[j].src] == Succeeded);
      assert HasEdge(dag.edges, dag.edges[j].src, dag.edges[i].dst);
    }
  }

  /** The list holds the targets of the edges at these positions, which are all that ready one, from k on. */
  ghost predicate Picks(dag: Dag, n: NodeId, state: map<NodeId, Status>, outputs: seq<Entry>, k: nat, at: seq<nat>,
                        ready: seq<NodeId>)
  {
    && |at| == |ready|
    && (forall i | 0 <= i < |at| :: k <= at[i] < |dag.edges| && dag.edges[at[i]].dst == ready[i])
    && (forall i, j | 0 <= i < j < |at| :: at[i] < at[j])
    && (forall i | k <= i < |dag.edges| :: i in at <==> Readies(dag, n, state, outputs, i))
  }

  lemma {:induction false} ReadyFromPositions(dag: Dag, n: NodeId, state: map<NodeId, Status>, outputs: seq<Entry>,
                                              k: nat) returns (at: seq<nat>)
    requires k <= |dag.edges|
    ensures Picks(dag, n, state, outputs, k, at, ReadyFrom(dag, n, state, outputs, k))
    decreases |dag.edges| - k
  {
    if k == |dag.edges| {
      at := [];
    } else {
      var rest := ReadyFromPositions(dag, n, state, outputs, k + 1);
      var ready := ReadyFrom(dag, n, state, outputs, k + 1);
      ReadyFromStep(dag, n, state, outputs, k);
      ReadiesIff(dag, n, state, outputs, k);
      if Readies(dag, n, state, outputs, k) {
        at := [k] + rest;
        PicksMore(dag, n, state, outputs, k, k + 1, rest, ready);
      } else {
        at := rest;
        PicksNoMore(dag, n, state, outputs, k, k + 1, rest, ready);
      }
    }
  }

  lemma PicksNoMore(dag: Dag, n: NodeId, state: map<NodeId, Status>, outputs: seq<Entry>, k: nat, next: nat,
                    rest: seq<nat>, ready: seq<NodeId>)
    requires next == k + 1 <= |dag.edges| && Picks(dag, n, state, outputs, next, rest, ready)
    requires !Readies(dag, n, state, outputs, k)
    ensures Picks(dag, n, state, outputs, k, rest, ready)
  {
    assert k !in rest;
  }

  lemma PicksMore(dag: Dag, n: NodeId, state: map<NodeId, Status>, outputs: seq<Entry>, k: nat, next: nat,
                  rest: seq<nat>, ready: seq<NodeId>)
    requires next == k + 1 <= |dag.edges| && Picks(dag, n, state, outputs, next, rest, ready)
    requires Readies(dag, n, state, outputs, k)
    ensures Picks(dag, n, state, outputs, k, [k] + rest, [dag.edges[k].dst] + ready)
  {
    var at, all := [k] + rest, [dag.edges[k].dst] + ready;
    forall i | 0 <= i < |at| ensures k <= at[i] < |dag.edges| && dag.edges[at[i]].dst == all[i] {
      assert i > 0 ==> at[i] == rest[i - 1] && all[i] == ready[i - 1];
    }
    forall i, j | 0 <= i < j < |at| ensures at[i] < at[j] {
      assert at[j] == rest[j - 1] && next <= rest[j - 1];
      assert i > 0 ==> at[i] == rest[i - 1];
    }
    forall i | k <= i < |dag.edges| ensures i in at <==> Readies(dag, n, state, outputs, i) {
      assert i in at <==> i == k || i in rest;
    }
  }

  /** What is scheduled, and in what order: the targets of exactly the edges of the finished node whose condition
      is met and whose target has no predecessor but succeeded ones, in the order of the edges. */
  lemma ReadyInOrder(dag: Dag, n: NodeId, state: map<NodeId, Status>, outputs: seq<Entry>) returns (at: seq<nat>)
    ensures Picks(dag, n, state, outputs, 0, at, ReadySuccessors(dag, n, state, outputs))
  {
    at := ReadyFromPositions(dag, n, state, outputs, 0);
    assert dag.edges[0..] == dag.edges;
  }

  lemma SharedTargetStep(dag: Dag, n: NodeId, state: map<NodeId, Status>, outputs: seq<Entry>, k: nat)
    requires k < |dag.edges|
    ensures var e := dag.edges[k];
            SharesTarget(dag, n, state, outputs, k) <==>
              SharesTarget(dag, n, state, outputs, k + 1)
              || (Fires(e, n, outputs) && AllSucceeded(Predecessors(dag.edges, e.dst), state)
                  && e.dst in ReadyFrom(dag, n, state, outputs, k + 1))
  {
    ReadyFromMeaning(dag, n, state, outputs, k + 1, dag.edges[k].dst);
  }

  lemma DistinctStep<T>(x: T, rest: seq<T>)
    ensures NoDuplicates([x] + rest) <==> x !in rest && NoDuplicates(rest)
  {
    var s := [x] + rest;
    assert forall i | 0 <= i < |rest| :: rest[i] == s[i + 1];
    if NoDuplicates(s) {
      forall i | 0 <= i < |rest| ensures rest[i] != x { assert s[0] != s[i + 1]; }
      forall i, j | 0 <= i < j < |rest| ensures rest[i] != rest[j] { assert s[i + 1] != s[j + 1]; }
    }
  }

  lemma {:induction false} ReadyFromDistinctIff(dag: Dag, n: NodeId, state: map<NodeId, Status>, outputs: seq<Entry>,
                                                k: nat)
    requires k <= |dag.edges|
    ensures NoDuplicates(ReadyFrom(dag, n, state, outputs, k)) <==> !SharesTarget(dag, n, state, outputs, k)
    decreases |dag.edges| - k
  {
    if k < |dag.edges| {
      ReadyFromDistinctIff(dag, n, state, outputs, k + 1);
      ReadyFromStep(dag, n, state, outputs, k);
      SharedTargetStep(dag, n, state, outputs, k);
      DistinctStep(dag.edges[k].dst, ReadyFrom(dag, n, state, outputs, k + 1));
    }
  }

  /** No node is scheduled twice by one job exactly when no two firing edges of its node share a target
      that is not blocked. */
  lemma ReadyDistinctIff(dag: Dag, n: NodeId, state: map<NodeId, Status>, outputs: seq<Entry>)
    ensures NoDuplicates(ReadySuccessors(dag, n, state, outputs)) <==> !SharesTarget(dag, n, state, outputs, 0)
  {
    ReadyFromDistinctIff(dag, n, state, outputs, 0);
    assert dag.edges[0..] == dag.edges;
  }

  /** Without parallel edges it never happens. */
  lemma ReadyDistinct(dag: Dag, n: NodeId, state: map<NodeId, Status>, outputs: seq<Entry>)
    requires SimpleEdges(dag.edges)
    ensures NoDuplicates(ReadySuccessors(dag, n, state, outputs))
  {
    ReadyDistinctIff(dag, n, state, outputs);
  }

  // ---- paths ------------------------------------------------------------

  ghost predicate IsPath(edges: seq<Edge>, p: seq<NodeId>) {
    |p| >= 2 && forall i | 0 <= i < |p| - 1 :: HasEdge(edges, p[i], p[i + 1])
  }

  /** A nonempty path leads from a to b. */
  ghost predicate Connected(edges: seq<Edge>, a: NodeId, b: NodeId) {
    exists p :: IsPath(edges, p) && p[0] == a && p[|p| - 1] == b
  }

  ghost predicate Acyclic(edges: seq<Edge>) {
    forall n :: !Connected(edges, n, n)
  }

  lemma EdgeConnects(edges: seq<Edge>, a: NodeId, b: NodeId)
    requires HasEdge(edges, a, b)
    ensures Connected(edges, a, b)
  {
    assert IsPath(edges, [a, b]);
  }

  lemma ConnectedTransitive(edges: seq<Edge>, a: NodeId, b: NodeId, c: NodeId)
    requires Connected(edges, a, b) && Connected(edges, b, c)
    ensures Connected(edges, a, c)
  {
    var p :| IsPath(edges, p) && p[0] == a && p[|p| - 1] == b;
    var q :| IsPath(edges, q) && q[0] == b && q[|q| - 1] == c;
    var r := p + q[1..];
    forall i | 0 <= i < |r| - 1 ensures HasEdge(edges, r[i], r[i + 1]) {
      if i >= |p| - 1 {
        assert r[i] == q[i - |p| + 1] && r[i + 1] == q[i - |p| + 2];
      }
    }
    assert IsPath(edges, r);
  }

  /** The last edge of a nonempty path, and what is left of it. */
  lemma LastEdge(edges: seq<Edge>, a: NodeId, b: NodeId) returns (m: NodeId)
    requires Connected(edges, a, b)
    ensures HasEdge(edges, m, b) && (m == a || Connected(edges, a, m))
  {
    var p :| IsPath(edges, p) && p[0] == a && p[|p| - 1] == b;
    m := p[|p| - 2];
    assert HasEdge(edges, p[|p| - 2], p[|p| - 2 + 1]);
    if |p| > 2 {
      assert IsPath(edges, p[..|p| - 1]);
    }
  }

  ghost function Targets(edges: seq<Edge>): set<NodeId> { set i | 0 <= i < |edges| :: edges[i].dst }

  /** The nodes that some nonempty path from n leads to. */
  ghost function Below(edges: seq<Edge>, n: NodeId): set<NodeId> {
    set d | d in Targets(edges) && Connected(edges, n, d)
  }

  lemma BelowMeaning(edges: seq<Edge>, n: NodeId, d: NodeId)
    ensures d in Below(edges, n) <==> Connected(edges, n, d)
  {
    if Connected(edges, n, d) {
      var m := LastEdge(edges, n, d);
      var i :| 0 <= i < |edges| && edges[i].src == m && edges[i].dst == d;
      assert edges[i].dst in Targets(edges);
    }
  }

  /** The number of nodes below n ranks an acyclic graph: it falls along every edge. */
  ghost function Rank(edges: seq<Edge>, n: NodeId): nat { |Below(edges, n)| }

  lemma RankFalls(edges: seq<Edge>, a: NodeId, b: NodeId)
    requires Acyclic(edges) && HasEdge(edges, a, b)
    ensures Rank(edges, b) < Rank(edges, a)
  {
    EdgeConnects(edges, a, b);
    RankFallsBelow(edges, a, b);
  }

  lemma RankFallsBelow(edges: seq<Edge>, a: NodeId, b: NodeId)
    requires Acyclic(edges) && Connected(edges, a, b)
    ensures Rank(edges, b) < Rank(edges, a)
  {
    forall d | d in Below(edges, b) ensures d in Below(edges, a) {
      BelowMeaning(edges, b, d);
      ConnectedTransitive(edges, a, b, d);
      BelowMeaning(edges, a, d);
    }
    BelowMeaning(edges, a, b);
    BelowMeaning(edges, b, b);
    SubsetSize(Below(edges, b), Below(edges, a));
  }
}
