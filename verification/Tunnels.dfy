/** The two breadth-first searches over the tunnels between memory wings
    (services/memory/app/main.py), with the edge relation of services/memory/app/store.py. */
module Tunnels {
  import opened Basics

  type Wing = string

  datatype Tunnel = Tunnel(developer: string, src: Wing, dst: Wing, tag: string, bidirectional: bool)

  /** The memory_tunnels rows, in the order the database returns them, as one developer sees them. */
  datatype Palace = Palace(rows: seq<Tunnel>, developer: string)

  // ---- the edge relation --------------------------------------------------

  predicate Touches(t: Tunnel, dev: string, w: Wing) {
    t.developer == dev && (t.src == w || (t.bidirectional && t.dst == w))
  }

  function FindTunnels(rows: seq<Tunnel>, dev: string, w: Wing): seq<Tunnel> {
    if rows == [] then []
    else (if Touches(rows[0], dev, w) then [rows[0]] else []) + FindTunnels(rows[1..], dev, w)
  }

  /** The far end of a tunnel that was found from w. */
  function FarEnd(t: Tunnel, w: Wing): Wing { if t.src == w then t.dst else t.src }

  function FarEnds(tunnels: seq<Tunnel>, w: Wing): seq<Wing> {
    seq(|tunnels|, i requires 0 <= i < |tunnels| => FarEnd(tunnels[i], w))
  }

  /** The neighbours of w, one per tunnel. */
  function Neighbours(g: Palace, w: Wing): seq<Wing> { FarEnds(FindTunnels(g.rows, g.developer, w), w) }

  /** A tunnel leads from w to v: along its direction, or against it when it is bidirectional. */
  predicate Leads(t: Tunnel, dev: string, w: Wing, v: Wing) {
    t.developer == dev && ((t.src == w && t.dst == v) || (t.bidirectional && t.dst == w && t.src == v))
  }

  predicate Edge(g: Palace, w: Wing, v: Wing) {
    exists i | 0 <= i < |g.rows| :: Leads(g.rows[i], g.developer, w, v)
  }

  lemma {:induction false} FindTunnelsMeaning(rows: seq<Tunnel>, dev: string, w: Wing, t: Tunnel)
    ensures t in FindTunnels(rows, dev, w) <==> t in rows && Touches(t, dev, w)
  {
    if rows != [] {
      FindTunnelsMeaning(rows[1..], dev, w, t);
    }
  }

  /** The neighbours found are exactly the wings an edge leads to. */
  lemma NeighboursMeaning(g: Palace, w: Wing, v: Wing)
    ensures v in Neighbours(g, w) <==> Edge(g, w, v)
  {
    var found := FindTunnels(g.rows, g.developer, w);
    if v in Neighbours(g, w) {
      var i :| 0 <= i < |found| && FarEnd(found[i], w) == v;
      FindTunnelsMeaning(g.rows, g.developer, w, found[i]);
      var k :| 0 <= k < |g.rows| && g.rows[k] == found[i];
    }
    if Edge(g, w, v) {
      var k :| 0 <= k < |g.rows| && Leads(g.rows[k], g.developer, w, v);
      FindTunnelsMeaning(g.rows, g.developer, w, g.rows[k]);
      var i :| 0 <= i < |found| && found[i] == g.rows[k];
      assert Neighbours(g, w)[i] == v;
    }
  }

  /** One neighbour for each tunnel that touches w, in the order of the rows: its far end. */
  lemma {:induction false} NeighboursInOrder(a: seq<Tunnel>, t: Tunnel, b: seq<Tunnel>, dev: string, w: Wing)
    ensures Neighbours(Palace([], dev), w) == []
    ensures Neighbours(Palace(a + ([t] + b), dev), w)
            == Neighbours(Palace(a, dev), w)
               + ((if t.developer == dev && t.src == w then [t.dst]
                   else if t.developer == dev && t.bidirectional && t.dst == w then [t.src] else [])
                  + Neighbours(Palace(b, dev), w))
  {
    FindTunnelsJoin(a, [t] + b, dev, w);
    FindTunnelsJoin([t], b, dev, w);
    assert [t][1..] == [];
    var found := FindTunnels([t], dev, w);
    assert FarEnds(found, w) == if Touches(t, dev, w) then [FarEnd(t, w)] else [];
    FarEndsJoin(found, FindTunnels(b, dev, w), w);
    FarEndsJoin(FindTunnels(a, dev, w), FindTunnels([t] + b, dev, w), w);
  }

  lemma {:induction false} FindTunnelsJoin(a: seq<Tunnel>, b: seq<Tunnel>, dev: string, w: Wing)
    ensures FindTunnels(a + b, dev, w) == FindTunnels(a, dev, w) + FindTunnels(b, dev, w)
  {
    if a == [] {
      assert a + b == b;
      assert [] + FindTunnels(b, dev, w) == FindTunnels(b, dev, w);
    } else {
      assert (a + b)[1..] == a[1..] + b;
      FindTunnelsJoin(a[1..], b, dev, w);
      Associate(if Touches(a[0], dev, w) then [a[0]] else [], FindTunnels(a[1..], dev, w), FindTunnels(b, dev, w));
    }
  }

  lemma FarEndsJoin(a: seq<Tunnel>, b: seq<Tunnel>, w: Wing)
    ensures FarEnds(a + b, w) == FarEnds(a, w) + FarEnds(b, w)
  {}

  // ---- distance --------------------------------------------------------------

  ghost predicate IsWalk(g: Palace, p: seq<Wing>) {
    p != [] && forall i | 0 <= i < |p| - 1 :: Edge(g, p[i], p[i + 1])
  }

  /** A walk of exactly d edges leads from s to v. */
  ghost predicate Reach(g: Palace, s: Wing, v: Wing, d: nat) {
    exists p :: IsWalk(g, p) && |p| == d + 1 && p[0] == s && p[d] == v
  }

  /** d is the length of the shortest walk from s to v. */
  ghost predicate Distance(g: Palace, s: Wing, v: Wing, d: nat) {
    Reach(g, s, v, d) && forall e: nat | e < d :: !Reach(g, s, v, e)
  }

  lemma ReachZero(g: Palace, s: Wing)
    ensures Reach(g, s, s, 0)
  {
    assert IsWalk(g, [s]);
  }

  lemma ReachExtend(g: Palace, s: Wing, w: Wing, v: Wing, d: nat)
    requires Reach(g, s, w, d) && Edge(g, w, v)
    ensures Reach(g, s, v, d + 1)
  {
    var p :| IsWalk(g, p) && |p| == d + 1 && p[0] == s && p[d] == w;
    var q := p + [v];
    forall i | 0 <= i < |q| - 1 ensures Edge(g, q[i], q[i + 1]) {
      if i < d { assert q[i] == p[i] && q[i + 1] == p[i + 1]; }
    }
    assert IsWalk(g, q);
  }

  lemma ReachSplit(g: Palace, s: Wing, v: Wing, d: nat) returns (w: Wing)
    requires d > 0 && Reach(g, s, v, d)
    ensures Reach(g, s, w, d - 1) && Edge(g, w, v)
  {
    var p :| IsWalk(g, p) && |p| == d + 1 && p[0] == s && p[d] == v;
    w := p[d - 1];
    assert Edge(g, p[d - 1], p[d - 1 + 1]);
    assert IsWalk(g, p[..d]);
  }

  lemma DistanceUnique(g: Palace, s: Wing, v: Wing, d: nat, e: nat)
    requires Distance(g, s, v, d) && Distance(g, s, v, e)
    ensures d == e
  {}

  /** Whatever some walk reaches has a distance, no longer than that walk. */
  lemma {:induction false} ReachHasDistance(g: Palace, s: Wing, v: Wing, d: nat) returns (e: nat)
    requires Reach(g, s, v, d)
    ensures e <= d && Distance(g, s, v, e)
  {
    if f: nat :| f < d && Reach(g, s, v, f) {
      e := ReachHasDistance(g, s, v, f);
    } else {
      e := d;
    }
  }

  // ---- a depth map closed under edges measures distance ---------------------

  /** The search has given every wing of `depth` a depth that some walk has, and has taken every edge
      that leaves a wing above the bound. */
  ghost predicate Settled(g: Palace, s: Wing, max: int, depth: map<Wing, nat>) {
    && (max >= 0 ==> s in depth && depth[s] == 0)
    && (forall v | v in depth :: depth[v] <= max && Reach(g, s, v, depth[v]))
    && (forall w, v | w in depth && depth[w] < max && Edge(g, w, v) :: v in depth && depth[v] <= depth[w] + 1)
  }

  lemma {:induction false} SettledReaches(g: Palace, s: Wing, max: int, depth: map<Wing, nat>, v: Wing, d: nat)
    requires Settled(g, s, max, depth) && d <= max && Reach(g, s, v, d)
    ensures v in depth && depth[v] <= d
    decreases d
  {
    if d == 0 {
      var p :| IsWalk(g, p) && |p| == 1 && p[0] == s && p[0] == v;
    } else {
      var w := ReachSplit(g, s, v, d);
      SettledReaches(g, s, max, depth, w, d - 1);
    }
  }

  /** Such a depth map is the distance function, cut off at the bound. */
  lemma SettledIsDistance(g: Palace, s: Wing, max: int, depth: map<Wing, nat>, v: Wing, d: nat)
    requires Settled(g, s, max, depth)
    ensures (v in depth && depth[v] == d) <==> (d <= max && Distance(g, s, v, d))
  {
    if v in depth && depth[v] == d {
      forall e: nat | e < d ensures !Reach(g, s, v, e) {
        if Reach(g, s, v, e) { SettledReaches(g, s, max, depth, v, e); }
      }
    }
    if d <= max && Distance(g, s, v, d) {
      SettledReaches(g, s, max, depth, v, d);
    }
  }

  // ---- termination universe ----------------------------------------------------

  ghost function Wings(g: Palace, s: Wing): set<Wing> {
    {s} + (set i | 0 <= i < |g.rows| :: g.rows[i].src) + (set i | 0 <= i < |g.rows| :: g.rows[i].dst)
  }

  lemma EdgeInWings(g: Palace, s: Wing, w: Wing, v: Wing)
    requires Edge(g, w, v)
    ensures v in Wings(g, s)
  {}

  // ---- follow_tunnels -------------------------------------------------------------

  datatype Found = Found(wing: Wing, depth: nat, via: string)

  /** The reported tag belongs to a tunnel that leads to the wing from one level above. */
  ghost predicate Tagged(g: Palace, s: Wing, f: Found) {
    exists t, w :: t in g.rows && t.tag == f.via && Leads(t, g.developer, w, f.wing) &&
      f.depth >= 1 && Reach(g, s, w, f.depth - 1)
  }

  /** Exactly the wings at distance 1..max, each once, with its true distance, nearest first. */
  ghost predicate Followed(g: Palace, s: Wing, max: int, found: seq<Found>) {
    && (forall i | 0 <= i < |found| ::
          1 <= found[i].depth <= max && Distance(g, s, found[i].wing, found[i].depth) && Tagged(g, s, found[i]))
    && (forall v, d: nat | 1 <= d <= max && Distance(g, s, v, d) ::
          exists i :: 0 <= i < |found| && found[i].wing == v)
    && Sorted(found)
  }

  ghost predicate Sorted(found: seq<Found>) {
    forall i, j | 0 <= i < j < |found| :: found[i].wing != found[j].wing && found[i].depth <= found[j].depth
  }

  /** A search under way: the queue, the report so far, the depth of every wing seen, and the wings
      already taken from the queue. */
  datatype Search = Search(queue: seq<(Wing, nat)>, found: seq<Found>, depth: map<Wing, nat>, done: set<Wing>)

  /** A queue of a breadth-first search: depths never fall, and span at most two levels. */
  ghost predicate Layered(queue: seq<(Wing, nat)>) {
    forall i, j | 0 <= i < j < |queue| :: queue[i].1 <= queue[j].1 <= queue[0].1 + 1
  }

  ghost predicate Between(queue: seq<(Wing, nat)>, d: nat) {
    forall i | 0 <= i < |queue| :: d <= queue[i].1 <= d + 1
  }

  ghost function Queued(queue: seq<(Wing, nat)>): set<Wing> { set i | 0 <= i < |queue| :: queue[i].0 }

  ghost function WingsOf(found: seq<Found>): set<Wing> { set i | 0 <= i < |found| :: found[i].wing }

  lemma QueuedParts(a: seq<(Wing, nat)>, b: seq<(Wing, nat)>)
    ensures Queued(a + b) == Queued(a) + Queued(b)
  {
    forall v | v in Queued(a) + Queued(b) ensures v in Queued(a + b) {
      if i :| 0 <= i < |a| && a[i].0 == v {
        assert (a + b)[i].0 == v;
      } else {
        var j :| 0 <= j < |b| && b[j].0 == v;
        assert (a + b)[|a| + j].0 == v;
      }
    }
  }

  lemma WingsOfParts(found: seq<Found>, f: Found)
    ensures WingsOf(found + [f]) == WingsOf(found) + {f.wing}
  {
    var longer := found + [f];
    assert longer[|found|] == f;
    forall v | v in WingsOf(found) ensures v in WingsOf(longer) {
      var i :| 0 <= i < |found| && found[i].wing == v;
      assert longer[i].wing == v;
    }
  }

  /** Depths are lengths of walks. */
  ghost predicate DepthsReal(g: Palace, s: Wing, max: int, depth: map<Wing, nat>) {
    && s in depth && depth[s] == 0
    && (forall v | v in depth :: Reach(g, s, v, depth[v]) && (depth[v] <= max || v == s))
  }

  /** The queue holds distinct wings at their depth, none of them taken yet. */
  ghost predicate QueueTrue(queue: seq<(Wing, nat)>, depth: map<Wing, nat>, done: set<Wing>) {
    && (forall i | 0 <= i < |queue| :: queue[i].0 in depth && depth[queue[i].0] == queue[i].1 && queue[i].0 !in done)
    && (forall i, j | 0 <= i < j < |queue| :: queue[i].0 != queue[j].0)
  }

  /** Every edge out of a taken wing above the bound has been followed. */
  ghost predicate Expanded(g: Palace, max: int, depth: map<Wing, nat>, done: set<Wing>) {
    done <= depth.Keys &&
    forall w, v | w in done && depth[w] < max && Edge(g, w, v) :: v in depth && depth[v] <= depth[w] + 1
  }

  /** The report lists every wing seen but the start, in order of depth. */
  ghost predicate Listed(s: Wing, found: seq<Found>, depth: map<Wing, nat>) {
    && s in depth
    && WingsOf(found) == depth.Keys - {s}
    && (forall i | 0 <= i < |found| :: found[i].wing in depth && depth[found[i].wing] == found[i].depth >= 1)
    && Sorted(found)
  }

  /** No wing taken or reported is deeper than `top` allows. */
  ghost predicate NotDeeper(x: Search, top: nat) {
    && (forall v | v in x.done && v in x.depth :: x.depth[v] <= top)
    && (forall i | 0 <= i < |x.found| :: x.found[i].depth <= top + 1)
  }

  ghost predicate Sound(g: Palace, s: Wing, max: int, x: Search) {
    && DepthsReal(g, s, max, x.depth)
    && QueueTrue(x.queue, x.depth, x.done)
    && Expanded(g, max, x.depth, x.done)
    && Listed(s, x.found, x.depth)
    && Layered(x.queue)
  }

  /** Between two rounds of the search. */
  ghost predicate Outer(g: Palace, s: Wing, max: int, x: Search) {
    && Sound(g, s, max, x)
    && x.depth.Keys == x.done + Queued(x.queue)
    && (x.queue != [] ==> NotDeeper(x, x.queue[0].1))
  }

  /** Within a round: w was taken at depth d, and the first k of its neighbours have been seen. */
  ghost predicate Inner(g: Palace, s: Wing, max: int, x: Search, w: Wing, d: nat, next: seq<Wing>, k: nat) {
    Sound(g, s, max, x) && Frontier(x, w, d, next, k)
  }

  /** The part of a round that does not speak of walks. */
  ghost predicate Frontier(x: Search, w: Wing, d: nat, next: seq<Wing>, k: nat) {
    && w in x.depth && x.depth[w] == d && w !in x.done && w !in Queued(x.queue)
    && x.depth.Keys == x.done + {w} + Queued(x.queue)
    && NotDeeper(x, d) && Between(x.queue, d)
    && k <= |next|
    && (forall j | 0 <= j < k :: next[j] in x.depth && x.depth[next[j]] <= d + 1)
  }

  lemma LayeredTail(queue: seq<(Wing, nat)>)
    requires Layered(queue) && queue != []
    ensures Layered(queue[1..]) && Between(queue[1..], queue[0].1)
  {
    var rest := queue[1..];
    assert forall i | 0 <= i < |rest| :: rest[i] == queue[i + 1];
  }

  lemma LayeredAppend(rest: seq<(Wing, nat)>, more: seq<(Wing, nat)>, d: nat)
    requires Layered(rest) && Between(rest, d)
    requires forall i | 0 <= i < |more| :: more[i].1 == d + 1
    ensures Layered(rest + more) && Between(rest + more, d)
  {
    assert forall i | 0 <= i < |rest + more| :: (rest + more)[i] == if i < |rest| then rest[i] else more[i - |rest|];
  }

  lemma Pop(g: Palace, s: Wing, max: int, x: Search)
    requires Outer(g, s, max, x) && x.queue != []
    ensures Inner(g, s, max, x.(queue := x.queue[1..]), x.queue[0].0, x.queue[0].1, Neighbours(g, x.queue[0].0), 0)
  {
    TailTrue(x.queue, x.depth, x.done);
    LayeredTail(x.queue);
  }

  lemma TailTrue(queue: seq<(Wing, nat)>, depth: map<Wing, nat>, done: set<Wing>)
    requires queue != [] && QueueTrue(queue, depth, done)
    ensures QueueTrue(queue[1..], depth, done)
    ensures Queued(queue) == {queue[0].0} + Queued(queue[1..]) && queue[0].0 !in Queued(queue[1..])
  {
    var rest := queue[1..];
    assert forall i | 0 <= i < |rest| :: rest[i] == queue[i + 1];
    QueuedParts([queue[0]], rest);
    assert [queue[0]] + rest == queue;
    assert Queued([queue[0]]) == {queue[0].0} by { assert [queue[0]][0] == queue[0]; }
  }

  lemma AppendFound(s: Wing, found: seq<Found>, depth: map<Wing, nat>, f: Found)
    requires Listed(s, found, depth) && f.wing !in depth && f.depth >= 1
    requires forall i | 0 <= i < |found| :: found[i].depth <= f.depth
    ensures Listed(s, found + [f], depth[f.wing := f.depth])
  {
    WingsOfParts(found, f);
    var longer := found + [f];
    assert forall i | 0 <= i < |longer| :: longer[i] == if i < |found| then found[i] else f;
    forall i, j | 0 <= i < j < |longer| ensures longer[i].wing != longer[j].wing && longer[i].depth <= longer[j].depth {
      assert found[i].wing in depth;
    }
  }

  lemma AppendQueue(queue: seq<(Wing, nat)>, depth: map<Wing, nat>, done: set<Wing>, v: Wing, d: nat)
    requires QueueTrue(queue, depth, done) && v !in depth && v !in done
    ensures QueueTrue(queue + [(v, d)], depth[v := d], done)
  {
    var longer := queue + [(v, d)];
    assert forall i | 0 <= i < |longer| :: longer[i] == if i < |queue| then queue[i] else (v, d);
  }

  lemma PushExpanded(g: Palace, max: int, depth: map<Wing, nat>, done: set<Wing>, v: Wing, d: nat)
    requires Expanded(g, max, depth, done) && v !in depth
    ensures Expanded(g, max, depth[v := d], done)
  {}

  function Pushed(x: Search, v: Wing, d: nat, via: string): Search {
    Search(x.queue + [(v, d)], x.found + [Found(v, d, via)], x.depth[v := d], x.done)
  }

  lemma PushSound(g: Palace, s: Wing, max: int, x: Search, w: Wing, v: Wing, d: nat, via: string)
    requires Sound(g, s, max, x) && d < max
    requires w in x.depth && x.depth[w] == d && v !in x.depth && Edge(g, w, v)
    requires NotDeeper(x, d) && Between(x.queue, d)
    ensures Sound(g, s, max, Pushed(x, v, d + 1, via))
  {
    ReachExtend(g, s, w, v, d);
    AppendQueue(x.queue, x.depth, x.done, v, d + 1);
    PushExpanded(g, max, x.depth, x.done, v, d + 1);
    AppendFound(s, x.found, x.depth, Found(v, d + 1, via));
    LayeredAppend(x.queue, [(v, d + 1)], d);
  }

  /** Following a tunnel to a wing not seen before. */
  lemma Push(g: Palace, s: Wing, max: int, x: Search, w: Wing, d: nat, next: seq<Wing>, k: nat, via: string)
    requires Inner(g, s, max, x, w, d, next, k) && d < max
    requires k < |next| && next[k] !in x.depth && Edge(g, w, next[k])
    ensures Inner(g, s, max, Pushed(x, next[k], d + 1, via), w, d, next, k + 1)
  {
    PushSound(g, s, max, x, w, next[k], d, via);
    PushFrontier(x, w, d, next, k, via);
  }

  lemma PushFrontier(x: Search, w: Wing, d: nat, next: seq<Wing>, k: nat, via: string)
    requires Frontier(x, w, d, next, k) && Layered(x.queue) && k < |next| && next[k] !in x.depth
    ensures Frontier(Pushed(x, next[k], d + 1, via), w, d, next, k + 1)
  {
    var v := next[k];
    var y := Pushed(x, v, d + 1, via);
    LayeredAppend(x.queue, [(v, d + 1)], d);
    QueuedParts(x.queue, [(v, d + 1)]);
    assert Queued([(v, d + 1)]) == {v} by { assert [(v, d + 1)][0].0 == v; }
    assert forall i | 0 <= i < |y.found| :: y.found[i] == if i < |x.found| then x.found[i] else Found(v, d + 1, via);
  }

  /** A wing already seen while w is processed lies at most one level below w. */
  lemma Pass(g: Palace, s: Wing, max: int, x: Search, w: Wing, d: nat, next: seq<Wing>, k: nat)
    requires Inner(g, s, max, x, w, d, next, k)
    requires k < |next| && next[k] in x.depth
    ensures Inner(g, s, max, x, w, d, next, k + 1)
  {
    assert x.depth[next[k]] <= d + 1 by {
      if next[k] in Queued(x.queue) {
        var i :| 0 <= i < |x.queue| && x.queue[i].0 == next[k];
      }
    }
  }

  lemma Close(g: Palace, s: Wing, max: int, x: Search, w: Wing, d: nat, k: nat)
    requires Inner(g, s, max, x, w, d, Neighbours(g, w), k)
    requires d < max ==> k == |Neighbours(g, w)|
    ensures Outer(g, s, max, x.(done := x.done + {w}))
  {
    forall v | d < max && Edge(g, w, v) ensures v in x.depth && x.depth[v] <= d + 1 {
      NeighboursMeaning(g, w, v);
    }
    assert Expanded(g, max, x.depth, x.done + {w});
    assert forall i | 0 <= i < |x.queue| :: x.queue[i].0 in Queued(x.queue);
    assert QueueTrue(x.queue, x.depth, x.done + {w});
  }

  lemma FollowedAtEnd(g: Palace, s: Wing, max: int, x: Search)
    requires Outer(g, s, max, x) && x.queue == []
    requires AllTagged(g, s, x.found)
    ensures Followed(g, s, max, x.found)
  {
    assert max >= 0 ==> Settled(g, s, max, x.depth);
    FoundAreWings(x.found);
    forall i | 0 <= i < |x.found|
      ensures 1 <= x.found[i].depth <= max && Distance(g, s, x.found[i].wing, x.found[i].depth)
    {
      SettledIsDistance(g, s, max, x.depth, x.found[i].wing, x.found[i].depth);
    }
    forall v, d: nat | 1 <= d <= max && Distance(g, s, v, d)
      ensures exists i :: 0 <= i < |x.found| && x.found[i].wing == v
    {
      SettledIsDistance(g, s, max, x.depth, v, d);
      assert v in WingsOf(x.found);
    }
  }

  lemma FoundAreWings(found: seq<Found>)
    ensures forall i | 0 <= i < |found| :: found[i].wing in WingsOf(found)
  {}

  /** Each round takes a wing off the queue or brings a new one in from a finite universe. */
  lemma Progress(universe: set<Wing>, before: set<Wing>, visited: set<Wing>)
    requires before < visited <= universe
    ensures universe - visited < universe - before
  {
    var v :| v in visited && v !in before;
    assert v in universe - before;
  }

  lemma ReachInWings(g: Palace, s: Wing, v: Wing, d: nat)
    requires Reach(g, s, v, d)
    ensures v in Wings(g, s)
  {
    if d > 0 {
      var w := ReachSplit(g, s, v, d);
      EdgeInWings(g, s, w, v);
    } else {
      var p :| IsWalk(g, p) && |p| == 1 && p[0] == s && p[0] == v;
    }
  }

  lemma SeenInWings(g: Palace, s: Wing, max: int, depth: map<Wing, nat>)
    requires DepthsReal(g, s, max, depth)
    ensures depth.Keys <= Wings(g, s)
  {
    forall v | v in depth ensures v in Wings(g, s) { ReachInWings(g, s, v, depth[v]); }
  }

  lemma FollowBegins(g: Palace, s: Wing, max: int)
    ensures Outer(g, s, max, Search([(s, 0)], [], map[s := 0], {}))
  {
    ReachZero(g, s);
    assert Queued([(s, 0)]) == {s} by { assert [(s, 0)][0].0 == s; }
  }

  /** The tunnel that brought w's i-th neighbour in justifies its tag. */
  lemma TunnelTags(g: Palace, s: Wing, w: Wing, d: nat, i: nat)
    requires Reach(g, s, w, d) && i < |FindTunnels(g.rows, g.developer, w)|
    ensures var t := FindTunnels(g.rows, g.developer, w)[i];
      Edge(g, w, FarEnd(t, w)) && Tagged(g, s, Found(FarEnd(t, w), d + 1, t.tag))
  {
    var t := FindTunnels(g.rows, g.developer, w)[i];
    FindTunnelsMeaning(g.rows, g.developer, w, t);
    var j :| 0 <= j < |g.rows| && g.rows[j] == t;
    assert Leads(t, g.developer, w, FarEnd(t, w));
  }

  ghost predicate AllTagged(g: Palace, s: Wing, found: seq<Found>) {
    forall i | 0 <= i < |found| :: Tagged(g, s, found[i])
  }

  /** The state after one tunnel has been looked at. */
  function Seen(x: Search, v: Wing, d: nat, via: string): Search {
    if v in x.depth then x else Pushed(x, v, d, via)
  }

  lemma See(g: Palace, s: Wing, max: int, x: Search, w: Wing, d: nat, next: seq<Wing>, k: nat, via: string)
    requires Inner(g, s, max, x, w, d, next, k) && d < max && k < |next|
    requires Edge(g, w, next[k]) && Tagged(g, s, Found(next[k], d + 1, via)) && AllTagged(g, s, x.found)
    ensures Inner(g, s, max, Seen(x, next[k], d + 1, via), w, d, next, k + 1)
    ensures AllTagged(g, s, Seen(x, next[k], d + 1, via).found)
  {
    if next[k] in x.depth {
      Pass(g, s, max, x, w, d, next, k);
    } else {
      Push(g, s, max, x, w, d, next, k, via);
    }
  }

  /** The state after the first i tunnels found from w. */
  ghost function SeenAll(x: Search, w: Wing, d: nat, tunnels: seq<Tunnel>, i: nat): Search
    requires i <= |tunnels|
  {
    if i == 0 then x
    else Seen(SeenAll(x, w, d, tunnels, i - 1), FarEnd(tunnels[i - 1], w), d + 1, tunnels[i - 1].tag)
  }

  /** A round of the search that keeps its promises, the tags included. */
  ghost predicate Round(g: Palace, s: Wing, max: int, x: Search, w: Wing, d: nat, k: nat) {
    Inner(g, s, max, x, w, d, Neighbours(g, w), k) && AllTagged(g, s, x.found)
  }

  lemma RoundStep(g: Palace, s: Wing, max: int, x: Search, w: Wing, d: nat, k: nat)
    requires Round(g, s, max, x, w, d, k) && d < max && k < |FindTunnels(g.rows, g.developer, w)|
    ensures var t := FindTunnels(g.rows, g.developer, w)[k];
      Round(g, s, max, Seen(x, FarEnd(t, w), d + 1, t.tag), w, d, k + 1)
  {
    var t := FindTunnels(g.rows, g.developer, w)[k];
    TunnelTags(g, s, w, d, k);
    See(g, s, max, x, w, d, Neighbours(g, w), k, t.tag);
  }

  lemma {:induction false} SeenAllRound(g: Palace, s: Wing, max: int, x: Search, w: Wing, d: nat, i: nat)
    requires d < max && i <= |FindTunnels(g.rows, g.developer, w)| && Round(g, s, max, x, w, d, 0)
    ensures Round(g, s, max, SeenAll(x, w, d, FindTunnels(g.rows, g.developer, w), i), w, d, i)
  {
    var y := SeenAll(x, w, d, FindTunnels(g.rows, g.developer, w), i);
    if i == 0 {
      assert y == x;
    } else {
      var k := i - 1;
      SeenAllRound(g, s, max, x, w, d, k);
      SeenAllStep(g, s, max, x, w, d, k);
      assert Round(g, s, max, y, w, d, i);
    }
  }

  lemma SeenAllStep(g: Palace, s: Wing, max: int, x: Search, w: Wing, d: nat, k: nat)
    requires d < max && k < |FindTunnels(g.rows, g.developer, w)|
    requires Round(g, s, max, SeenAll(x, w, d, FindTunnels(g.rows, g.developer, w), k), w, d, k)
    ensures Round(g, s, max, SeenAll(x, w, d, FindTunnels(g.rows, g.developer, w), k + 1), w, d, k + 1)
  {
    var tunnels := FindTunnels(g.rows, g.developer, w);
    var y, z := SeenAll(x, w, d, tunnels, k), SeenAll(x, w, d, tunnels, k + 1);
    RoundStep(g, s, max, y, w, d, k);
    assert z == Seen(y, FarEnd(tunnels[k], w), d + 1, tunnels[k].tag);
  }

  /** The loop over one wing's tunnels: wings not seen before are reported and queued. */
  method Explore(g: Palace, w: Wing, d: nat, visited: set<Wing>,
                 queue: seq<(Wing, nat)>, found: seq<Found>, ghost x: Search)
    returns (visited': set<Wing>, queue': seq<(Wing, nat)>, found': seq<Found>, ghost x': Search)
    requires visited == x.depth.Keys && queue == x.queue && found == x.found
    ensures x' == SeenAll(x, w, d, FindTunnels(g.rows, g.developer, w), |FindTunnels(g.rows, g.developer, w)|)
    ensures visited' == x'.depth.Keys && queue' == x'.queue && found' == x'.found && x'.done == x.done
    ensures visited <= visited' && (visited == visited' ==> queue == queue')
  {
    visited', queue', found', x' := visited, queue, found, x;
    var tunnels := FindTunnels(g.rows, g.developer, w);
    for i := 0 to |tunnels|
      invariant x' == SeenAll(x, w, d, tunnels, i)
      invariant visited' == x'.depth.Keys && queue' == x'.queue && found' == x'.found && x'.done == x.done
      invariant visited <= visited' && (visited == visited' ==> queue == queue')
    {
      var far, tag := FarEnd(tunnels[i], w), tunnels[i].tag;
      x' := Seen(x', far, d + 1, tag);
      if far !in visited' {
        visited' := visited' + {far};
        found' := found' + [Found(far, d + 1, tag)];
        queue' := queue' + [(far, d + 1)];
      }
    }
  }

  /** The state after one whole round of the search. */
  ghost function After(g: Palace, max: int, x: Search): Search
    requires x.queue != []
  {
    var (w, d) := x.queue[0];
    var y := x.(queue := x.queue[1..]);
    var tunnels := FindTunnels(g.rows, g.developer, w);
    var z := if d < max then SeenAll(y, w, d, tunnels, |tunnels|) else y;
    z.(done := z.done + {w})
  }

  ghost predicate Searching(g: Palace, s: Wing, max: int, x: Search) {
    Outer(g, s, max, x) && AllTagged(g, s, x.found)
  }

  lemma AfterKeeps(g: Palace, s: Wing, max: int, x: Search)
    requires Searching(g, s, max, x) && x.queue != []
    ensures Searching(g, s, max, After(g, max, x))
    ensures After(g, max, x).depth.Keys <= Wings(g, s)
  {
    var (w, d) := x.queue[0];
    var y := x.(queue := x.queue[1..]);
    var tunnels := FindTunnels(g.rows, g.developer, w);
    Pop(g, s, max, x);
    if d < max {
      SeenAllRound(g, s, max, y, w, d, |tunnels|);
      var z := SeenAll(y, w, d, tunnels, |tunnels|);
      assert Round(g, s, max, z, w, d, |tunnels|);
      Close(g, s, max, z, w, d, |tunnels|);
    } else {
      Close(g, s, max, y, w, d, 0);
    }
    SeenInWings(g, s, max, After(g, max, x).depth);
  }

  /** The state of the search after n rounds, or when its queue ran empty before. */
  ghost function Rounds(g: Palace, s: Wing, max: int, n: nat): Search {
    if n == 0 then Search([(s, 0)], [], map[s := 0], {})
    else
      var x := Rounds(g, s, max, n - 1);
      if x.queue == [] then x else After(g, max, x)
  }

  lemma {:induction false} RoundsKeep(g: Palace, s: Wing, max: int, n: nat)
    ensures Searching(g, s, max, Rounds(g, s, max, n))
  {
    if n == 0 {
      FollowBegins(g, s, max);
    } else {
      RoundsKeep(g, s, max, n - 1);
      if Rounds(g, s, max, n - 1).queue != [] {
        AfterKeeps(g, s, max, Rounds(g, s, max, n - 1));
      }
    }
  }

  lemma RoundsResult(g: Palace, s: Wing, max: int, n: nat)
    ensures Rounds(g, s, max, n).depth.Keys <= Wings(g, s)
    ensures Rounds(g, s, max, n).queue == [] ==> Followed(g, s, max, Rounds(g, s, max, n).found)
  {
    RoundsKeep(g, s, max, n);
    SeenInWings(g, s, max, Rounds(g, s, max, n).depth);
    if Rounds(g, s, max, n).queue == [] {
      FollowedAtEnd(g, s, max, Rounds(g, s, max, n));
    }
  }

  method FollowTunnels(g: Palace, s: Wing, max: int) returns (found: seq<Found>)
    ensures Followed(g, s, max, found)
  {
    var visited := {s};
    var queue: seq<(Wing, nat)> := [(s, 0)];
    found := [];
    ghost var n, x := 0, Search(queue, found, map[s := 0], {});
    while queue != []
      invariant x == Rounds(g, s, max, n)
      invariant visited == x.depth.Keys && queue == x.queue && found == x.found
      decreases Wings(g, s) - visited, |queue|
    {
      ghost var before, x0 := visited, x;
      var (w, d) := queue[0];
      queue := queue[1..];
      x := x.(queue := queue);
      if d < max {
        visited, queue, found, x := Explore(g, w, d, visited, queue, found, x);
      }
      x := x.(done := x.done + {w});
      assert x == After(g, max, x0);
      n := n + 1;
      RoundsResult(g, s, max, n);
      if before != visited {
        Progress(Wings(g, s), before, visited);
      }
    }
    RoundsResult(g, s, max, n);
  }

  // ---- traverse --------------------------------------------------------------------

  /** The graph has exactly the wings within the bound as keys, each with its full neighbour list. */
  ghost predicate Traversed(g: Palace, s: Wing, max: int, graph: map<Wing, seq<Wing>>, visited: set<Wing>) {
    && graph.Keys == visited
    && (forall v :: v in graph <==> exists d: nat :: d <= max && Distance(g, s, v, d))
    && (forall v | v in graph :: graph[v] == Neighbours(g, v))
  }

  /** Every edge out of a marked wing above the bound has been taken or still waits in the queue. */
  ghost predicate Covered(g: Palace, max: int, queue: seq<(Wing, nat)>, depth: map<Wing, nat>) {
    forall w, v | w in depth && depth[w] < max && Edge(g, w, v) ::
      (v in depth && depth[v] <= depth[w] + 1) || (v, depth[w] + 1) in queue
  }

  ghost predicate QueueReal(g: Palace, s: Wing, queue: seq<(Wing, nat)>) {
    forall i | 0 <= i < |queue| :: Reach(g, s, queue[i].0, queue[i].1)
  }

  ghost predicate MarkedReal(g: Palace, s: Wing, max: int, depth: map<Wing, nat>) {
    forall v | v in depth :: depth[v] <= max && Reach(g, s, v, depth[v])
  }

  /** Nothing marked lies deeper than the head of the queue. */
  ghost predicate HeadDeepest(queue: seq<(Wing, nat)>, depth: map<Wing, nat>) {
    queue != [] ==> forall v | v in depth :: depth[v] <= queue[0].1
  }

  /** The start is marked, or about to be. */
  ghost predicate Begun(s: Wing, max: int, queue: seq<(Wing, nat)>, depth: map<Wing, nat>) {
    max >= 0 ==> (s in depth && depth[s] == 0) || (queue != [] && queue[0] == (s, 0) && depth == map[])
  }

  /** The search that marks a wing only when it is taken from the queue, so that the queue may hold
      the same wing many times. */
  ghost predicate Marking(g: Palace, s: Wing, max: int, queue: seq<(Wing, nat)>, depth: map<Wing, nat>) {
    && MarkedReal(g, s, max, depth)
    && QueueReal(g, s, queue)
    && Layered(queue)
    && HeadDeepest(queue, depth)
    && Begun(s, max, queue, depth)
    && Covered(g, max, queue, depth)
  }

  lemma InTail(queue: seq<(Wing, nat)>, e: (Wing, nat))
    requires queue != [] && e in queue && e != queue[0]
    ensures e in queue[1..]
  {
    var i :| 0 <= i < |queue| && queue[i] == e;
    assert queue[1..][i - 1] == e;
  }

  /** Dropping the head: it was marked already, or it lies beyond the bound. */
  lemma SkipHead(g: Palace, s: Wing, max: int, queue: seq<(Wing, nat)>, depth: map<Wing, nat>)
    requires Marking(g, s, max, queue, depth) && queue != []
    requires queue[0].0 in depth || queue[0].1 > max
    ensures Marking(g, s, max, queue[1..], depth)
  {
    var rest := queue[1..];
    LayeredTail(queue);
    forall w, v | w in depth && depth[w] < max && Edge(g, w, v)
      ensures (v in depth && depth[v] <= depth[w] + 1) || (v, depth[w] + 1) in rest
    {
      if (v, depth[w] + 1) in queue && (v, depth[w] + 1) != queue[0] { InTail(queue, (v, depth[w] + 1)); }
    }
  }

  /** Marking the head at its depth and queueing its unmarked neighbours one level below. */
  lemma MarkHead(g: Palace, s: Wing, max: int, queue: seq<(Wing, nat)>, depth: map<Wing, nat>, more: seq<(Wing, nat)>)
    requires Marking(g, s, max, queue, depth) && queue != []
    requires queue[0].0 !in depth && queue[0].1 <= max
    requires forall e | e in more :: Edge(g, queue[0].0, e.0) && e.1 == queue[0].1 + 1
    requires forall v | Edge(g, queue[0].0, v) :: v in depth || v == queue[0].0 || (v, queue[0].1 + 1) in more
    ensures Marking(g, s, max, queue[1..] + more, depth[queue[0].0 := queue[0].1])
  {
    MarkDepths(g, s, max, queue, depth);
    MarkReaches(g, s, queue, more);
    MarkLayers(queue, more, depth);
    MarkCovers(g, max, queue, depth, more);
  }

  lemma MarkDepths(g: Palace, s: Wing, max: int, queue: seq<(Wing, nat)>, depth: map<Wing, nat>)
    requires queue != [] && queue[0].0 !in depth && queue[0].1 <= max
    requires MarkedReal(g, s, max, depth) && QueueReal(g, s, queue) && Begun(s, max, queue, depth)
    ensures var depth' := depth[queue[0].0 := queue[0].1];
            MarkedReal(g, s, max, depth') && forall rest :: Begun(s, max, rest, depth')
  {}

  /** Behind the head the queue stays in layers when the next layer is appended. */
  lemma MarkLayers(queue: seq<(Wing, nat)>, more: seq<(Wing, nat)>, depth: map<Wing, nat>)
    requires queue != [] && Layered(queue) && HeadDeepest(queue, depth)
    requires forall e | e in more :: e.1 == queue[0].1 + 1
    ensures Layered(queue[1..] + more)
    ensures HeadDeepest(queue[1..] + more, depth[queue[0].0 := queue[0].1])
  {
    LayeredTail(queue);
    assert forall i | 0 <= i < |more| :: more[i] in more;
    LayeredAppend(queue[1..], more, queue[0].1);
  }

  lemma MarkReaches(g: Palace, s: Wing, queue: seq<(Wing, nat)>, more: seq<(Wing, nat)>)
    requires queue != [] && QueueReal(g, s, queue)
    requires forall e | e in more :: Edge(g, queue[0].0, e.0) && e.1 == queue[0].1 + 1
    ensures QueueReal(g, s, queue[1..] + more)
  {
    var rest := queue[1..];
    forall i | 0 <= i < |rest + more| ensures Reach(g, s, (rest + more)[i].0, (rest + more)[i].1) {
      if i < |rest| {
        assert (rest + more)[i] == queue[i + 1];
      } else {
        assert (rest + more)[i] in more;
        ReachExtend(g, s, queue[0].0, (rest + more)[i].0, queue[0].1);
      }
    }
  }

  lemma MarkCovers(g: Palace, max: int, queue: seq<(Wing, nat)>, depth: map<Wing, nat>, more: seq<(Wing, nat)>)
    requires queue != [] && queue[0].0 !in depth && Covered(g, max, queue, depth)
    requires HeadDeepest(queue, depth)
    requires forall v | Edge(g, queue[0].0, v) :: v in depth || v == queue[0].0 || (v, queue[0].1 + 1) in more
    ensures Covered(g, max, queue[1..] + more, depth[queue[0].0 := queue[0].1])
  {
    var (w, d) := queue[0];
    var depth' := depth[w := d];
    forall u, v | u in depth' && depth'[u] < max && Edge(g, u, v)
      ensures (v in depth' && depth'[v] <= depth'[u] + 1) || (v, depth'[u] + 1) in queue[1..] + more
    {
      if u != w && (v, depth[u] + 1) in queue && (v, depth[u] + 1) != queue[0] { InTail(queue, (v, depth[u] + 1)); }
    }
  }

  lemma MarkingBegins(g: Palace, s: Wing, max: int)
    ensures InStep(g, s, max, [(s, 0)], map[])
  {
    ReachZero(g, s);
  }

  lemma TraversedResult(g: Palace, s: Wing, max: int, depth: map<Wing, nat>)
    requires InStep(g, s, max, [], depth)
    ensures Traversed(g, s, max, AllNeighbours(g, depth), depth.Keys)
  {
    forall v ensures v in depth <==> exists d: nat :: d <= max && Distance(g, s, v, d) {
      TraversedAtEnd(g, s, max, depth, v);
    }
  }

  /** The wings marked so far, each with all its neighbours. */
  ghost function AllNeighbours(g: Palace, depth: map<Wing, nat>): map<Wing, seq<Wing>> {
    map w | w in depth :: Neighbours(g, w)
  }

  ghost predicate InStep(g: Palace, s: Wing, max: int, queue: seq<(Wing, nat)>, depth: map<Wing, nat>) {
    Marking(g, s, max, queue, depth) && depth.Keys <= Wings(g, s)
  }

  lemma SkipStep(g: Palace, s: Wing, max: int, queue: seq<(Wing, nat)>, depth: map<Wing, nat>)
    requires InStep(g, s, max, queue, depth) && queue != []
    requires queue[0].0 in depth || queue[0].1 > max
    ensures InStep(g, s, max, queue[1..], depth)
  {
    SkipHead(g, s, max, queue, depth);
  }

  lemma MarkStep(g: Palace, s: Wing, max: int, queue: seq<(Wing, nat)>, depth: map<Wing, nat>, more: seq<(Wing, nat)>)
    requires InStep(g, s, max, queue, depth) && queue != []
    requires queue[0].0 !in depth && queue[0].1 <= max
    requires forall e | e in more :: Edge(g, queue[0].0, e.0) && e.1 == queue[0].1 + 1
    requires forall v | Edge(g, queue[0].0, v) :: v in depth || v == queue[0].0 || (v, queue[0].1 + 1) in more
    ensures InStep(g, s, max, queue[1..] + more, depth[queue[0].0 := queue[0].1])
    ensures Wings(g, s) - (depth.Keys + {queue[0].0}) < Wings(g, s) - depth.Keys
    ensures AllNeighbours(g, depth[queue[0].0 := queue[0].1])
            == AllNeighbours(g, depth)[queue[0].0 := Neighbours(g, queue[0].0)]
  {
    MarkHead(g, s, max, queue, depth, more);
    MarkProgress(g, s, max, queue, depth);
  }

  lemma MarkProgress(g: Palace, s: Wing, max: int, queue: seq<(Wing, nat)>, depth: map<Wing, nat>)
    requires Marking(g, s, max, queue, depth) && queue != [] && queue[0].0 !in depth && depth.Keys <= Wings(g, s)
    ensures depth.Keys + {queue[0].0} <= Wings(g, s)
    ensures Wings(g, s) - (depth.Keys + {queue[0].0}) < Wings(g, s) - depth.Keys
  {
    ReachInWings(g, s, queue[0].0, queue[0].1);
    Progress(Wings(g, s), depth.Keys, depth.Keys + {queue[0].0});
  }

  lemma TraversedAtEnd(g: Palace, s: Wing, max: int, depth: map<Wing, nat>, v: Wing)
    requires Marking(g, s, max, [], depth)
    ensures v in depth <==> exists d: nat :: d <= max && Distance(g, s, v, d)
  {
    assert Settled(g, s, max, depth);
    if v in depth {
      SettledIsDistance(g, s, max, depth, v, depth[v]);
    }
    if d: nat :| d <= max && Distance(g, s, v, d) {
      SettledIsDistance(g, s, max, depth, v, d);
    }
  }

  method Traverse(g: Palace, s: Wing, max: int) returns (graph: map<Wing, seq<Wing>>, visited: set<Wing>)
    ensures Traversed(g, s, max, graph, visited)
  {
    visited := {};
    graph := map[];
    var queue: seq<(Wing, nat)> := [(s, 0)];
    ghost var depth: map<Wing, nat> := map[];
    MarkingBegins(g, s, max);
    while queue != []
      invariant visited == depth.Keys && graph == AllNeighbours(g, depth)
      invariant InStep(g, s, max, queue, depth)
      decreases Wings(g, s) - visited, |queue|
    {
      var (w, d) := queue[0];
      if w in visited || d > max {
        SkipStep(g, s, max, queue, depth);
        queue := queue[1..];
      } else {
        visited := visited + {w};
        var neighbours, queue', more := Expand(g, w, d, visited, queue[1..]);
        MarkStep(g, s, max, queue, depth, more);
        graph := graph[w := neighbours];
        queue := queue';
        depth := depth[w := d];
      }
    }
    TraversedResult(g, s, max, depth);
  }

  /** The loop over one wing's tunnels: all neighbours are listed, the unvisited ones queued. */
  method Expand(g: Palace, w: Wing, d: nat, visited: set<Wing>, rest: seq<(Wing, nat)>)
    returns (neighbours: seq<Wing>, queue: seq<(Wing, nat)>, ghost more: seq<(Wing, nat)>)
    ensures neighbours == Neighbours(g, w)
    ensures queue == rest + more
    ensures forall e | e in more :: Edge(g, w, e.0) && e.1 == d + 1
    ensures forall v | Edge(g, w, v) :: v in visited || (v, d + 1) in more
  {
    var tunnels := FindTunnels(g.rows, g.developer, w);
    neighbours, queue, more := [], rest, [];
    for i := 0 to |tunnels|
      invariant neighbours == Neighbours(g, w)[..i]
      invariant queue == rest + more
      invariant forall e | e in more :: e.0 in neighbours && e.1 == d + 1
      invariant forall v | v in neighbours :: v in visited || (v, d + 1) in more
    {
      var next := FarEnd(tunnels[i], w);
      neighbours := neighbours + [next];
      if next !in visited {
        queue := queue + [(next, d + 1)];
        more := more + [(next, d + 1)];
      }
    }
    forall v ensures v in neighbours <==> Edge(g, w, v) { NeighboursMeaning(g, w, v); }
  }

  // ---- the two searches against each other ---------------------------------------------

  /** With the same bound the two searches see the same wings, start included, exactly when the bound
      is not negative: a negative bound leaves traverse without even the start. */
  lemma SearchesAgreeIff(g: Palace, s: Wing, max: int,
                         found: seq<Found>, graph: map<Wing, seq<Wing>>, visited: set<Wing>)
    requires Followed(g, s, max, found) && Traversed(g, s, max, graph, visited)
    ensures visited == {s} + WingsOf(found) <==> max >= 0
  {
    ReachZero(g, s);
    assert Distance(g, s, s, 0);
    if max >= 0 {
      forall v ensures v in visited <==> v in {s} + WingsOf(found) {
        if d: nat :| d <= max && Distance(g, s, v, d) {
          if d == 0 {
            var p :| IsWalk(g, p) && |p| == 1 && p[0] == s && p[0] == v;
          }
        }
        if v in WingsOf(found) {
          var i :| 0 <= i < |found| && found[i].wing == v;
          assert found[i].depth <= max && Distance(g, s, v, found[i].depth);
        }
      }
    } else {
      assert s !in visited;
    }
  }

  /** In terms of walks of any shape: traverse lists exactly the wings that some walk within the bound leads
      to, shortest or not. */
  lemma TraversedAreReached(g: Palace, s: Wing, max: int, graph: map<Wing, seq<Wing>>, visited: set<Wing>, v: Wing)
    requires Traversed(g, s, max, graph, visited)
    ensures v in graph <==> exists d: nat :: d <= max && Reach(g, s, v, d)
  {
    if d: nat :| d <= max && Reach(g, s, v, d) {
      var e := ReachHasDistance(g, s, v, d);
    }
  }

  /** follow_tunnels' answer is determined up to the order within one depth and the tags. */
  lemma FollowedIsDetermined(g: Palace, s: Wing, max: int, a: seq<Found>, b: seq<Found>, i: nat)
    requires Followed(g, s, max, a) && Followed(g, s, max, b) && i < |a|
    ensures exists j :: 0 <= j < |b| && b[j].wing == a[i].wing && b[j].depth == a[i].depth
  {
    var v, d := a[i].wing, a[i].depth;
    assert Distance(g, s, v, d);
    var j :| 0 <= j < |b| && b[j].wing == v;
    DistanceUnique(g, s, v, d, b[j].depth);
  }
}
