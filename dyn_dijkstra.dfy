/**
 * Dynamic single-source shortest paths: after a batch of edge insertions or
 * weight updates has been applied to the graph, `update` repairs the distances,
 * path counts and (optionally) predecessor lists of a shortest-path tree by
 * relaxing the changed edges and re-running Dijkstra from the affected nodes.
 */
module DynDijkstra {
  import opened Wrappers

  type Node = nat

  /** WHITE: not yet put into the queue during this update; BLACK: put in at least once. */
  datatype Color = White | Black

  /** The kinds of graph event the library knows. */
  datatype EventType =
    | NodeAddition | NodeRemoval | NodeRestoration
    | EdgeAddition | EdgeRemoval | EdgeWeightUpdate | EdgeWeightIncrement
    | TimeStep

  /** One event of a batch: its kind, the endpoints and the (new) weight. */
  datatype GraphEvent = GraphEvent(kind: EventType, u: Node, v: Node, w: real)

  /** An in-neighbour z of a node, with the weight w of the edge between them. */
  datatype Edge = Edge(z: Node, w: real)

  /** The graph the algorithm reads: the in-neighbours of every node. The caller edits it. */
  class Graph {
    var inEdges: seq<seq<Edge>>

    constructor (inEdges: seq<seq<Edge>>)
      ensures this.inEdges == inEdges
    {
      this.inEdges := inEdges;
    }
  }

  /** Only insertions and weight updates can be repaired by this algorithm. */
  predicate Accepted(e: GraphEvent)
  {
    e.kind == EdgeAddition || e.kind == EdgeWeightUpdate
  }

  /** The state the edge relaxations work on: distances, colours and the priority queue. */
  datatype RelaxState = RelaxState(dist: seq<real>, color: seq<Color>, queue: map<Node, real>)

  predicate Sized(st: RelaxState, n: nat)
  {
    |st.dist| == n && |st.color| == n && forall x :: x in st.queue ==> x < n
  }

  /**
   * Relaxation of u via v over an edge of weight w. When the path through v is
   * at least as short (ties included), u takes the new distance; a WHITE u is
   * inserted into the queue and turns BLACK, a BLACK u has its key decreased
   * (the queue drops any entry for u and inserts it again with the new key).
   */
  function UpdateQueue(st: RelaxState, u: Node, v: Node, w: real): (r: RelaxState)
    requires u < |st.dist| && v < |st.dist| && |st.color| == |st.dist|
    ensures |r.dist| == |st.dist| && |r.color| == |st.color|
  {
    if st.dist[u] >= st.dist[v] + w then
      var d := st.dist[u := st.dist[v] + w];
      if st.color[u] == White then RelaxState(d, st.color[u := Black], st.queue[u := d[u]])
      else RelaxState(d, st.color, st.queue[u := d[u]])
    else st
  }

  /** Both relaxations of every event, in batch order. */
  function RelaxEvents(st: RelaxState, batch: seq<GraphEvent>): (r: RelaxState)
    requires |st.color| == |st.dist|
    requires forall i :: 0 <= i < |batch| ==> batch[i].u < |st.dist| && batch[i].v < |st.dist|
    ensures |r.dist| == |st.dist| && |r.color| == |st.color|
    decreases |batch|
  {
    if |batch| == 0 then st
    else
      var e := batch[|batch| - 1];
      var s := RelaxEvents(st, batch[..|batch| - 1]);
      UpdateQueue(UpdateQueue(s, e.u, e.v, e.w), e.v, e.u, e.w)
  }

  /** Position of the first event that is not accepted, or |batch| if there is none. */
  function FirstRejected(batch: seq<GraphEvent>): (i: nat)
    ensures i <= |batch|
    ensures forall j :: 0 <= j < i ==> Accepted(batch[j])
    ensures i < |batch| ==> !Accepted(batch[i])
  {
    if |batch| == 0 then 0
    else if !Accepted(batch[0]) then 0
    else 1 + FirstRejected(batch[1..])
  }

  /**
   * The bookkeeping the queue relies on, relative to the colours c0 at the
   * start of the update: every queued node is BLACK, and a node that is BLACK
   * now was BLACK before, is queued, or is in `done` (already extracted).
   */
  predicate QueueColors(st: RelaxState, c0: seq<Color>, done: set<Node>)
    requires |st.color| == |c0|
  {
    && (forall x :: x in st.queue ==> x < |st.color| && st.color[x] == Black)
    && (forall x :: 0 <= x < |st.color| && st.color[x] == Black ==>
          c0[x] == Black || x in st.queue || x in done)
  }

  /** Distances never exceed those of an earlier state. */
  predicate NoIncrease(d: seq<real>, d0: seq<real>)
  {
    |d| == |d0| && forall x :: 0 <= x < |d| ==> d[x] <= d0[x]
  }

  /** One relaxation keeps the queue bookkeeping, never raises a distance, and only adds to the queue. */
  lemma UpdateQueueKeeps(st: RelaxState, u: Node, v: Node, w: real, c0: seq<Color>, d0: seq<real>, done: set<Node>)
    requires u < |st.dist| && v < |st.dist| && |st.color| == |st.dist| == |c0|
    requires QueueColors(st, c0, done) && NoIncrease(st.dist, d0)
    ensures QueueColors(UpdateQueue(st, u, v, w), c0, done)
    ensures NoIncrease(UpdateQueue(st, u, v, w).dist, d0)
    ensures st.queue.Keys <= UpdateQueue(st, u, v, w).queue.Keys
  {
  }

  /** The relaxations of a batch keep the queue bookkeeping and never raise a distance. */
  lemma {:induction false} RelaxEventsKeeps(st: RelaxState, batch: seq<GraphEvent>, c0: seq<Color>, d0: seq<real>)
    requires |st.color| == |st.dist| == |c0|
    requires forall i :: 0 <= i < |batch| ==> batch[i].u < |st.dist| && batch[i].v < |st.dist|
    requires QueueColors(st, c0, {}) && NoIncrease(st.dist, d0)
    ensures QueueColors(RelaxEvents(st, batch), c0, {})
    ensures NoIncrease(RelaxEvents(st, batch).dist, d0)
    decreases |batch|
  {
    if |batch| > 0 {
      var e := batch[|batch| - 1];
      var s := RelaxEvents(st, batch[..|batch| - 1]);
      RelaxEventsKeeps(st, batch[..|batch| - 1], c0, d0);
      UpdateQueueKeeps(s, e.u, e.v, e.w, c0, d0, {});
      UpdateQueueKeeps(UpdateQueue(s, e.u, e.v, e.w), e.v, e.u, e.w, c0, d0, {});
    }
  }

  /** Every queued node has the smallest key, ties broken by the smaller node id. */
  predicate IsMin(queue: map<Node, real>, m: Node)
  {
    m in queue && forall x :: x in queue ==> queue[m] < queue[x] || (queue[m] == queue[x] && m <= x)
  }

  /** A non-empty queue has a minimum. */
  lemma {:induction false} MinExists(queue: map<Node, real>)
    requires |queue| > 0
    ensures exists m :: IsMin(queue, m)
    decreases |queue|
  {
    var x :| x in queue;
    var rest := queue - {x};
    if |rest| == 0 {
      assert queue.Keys == {x};
      assert IsMin(queue, x);
    } else {
      MinExists(rest);
      var m :| IsMin(rest, m);
      forall y | y in queue && y != x
        ensures y in rest
      {
      }
      if queue[x] < queue[m] || (queue[x] == queue[m] && x <= m) {
        assert IsMin(queue, x);
      } else {
        assert IsMin(queue, m);
      }
    }
  }

  /** The state that scanning the in-neighbours of an extracted node works on. */
  datatype ScanState = ScanState(dist: seq<real>, npaths: seq<nat>, previous: seq<seq<Node>>,
                                 color: seq<Color>, queue: map<Node, real>)

  predicate ScanSized(st: ScanState, n: nat, storePreds: bool)
  {
    |st.dist| == n && |st.npaths| == n && |st.color| == n && (storePreds ==> |st.previous| == n)
  }

  predicate EdgesBelow(edges: seq<Edge>, n: nat)
  {
    forall j :: 0 <= j < |edges| ==> edges[j].z < n
  }

  /**
   * One in-neighbour z of current: if current's distance is z's distance plus
   * the edge weight, z is a predecessor (its path count is added, and z is
   * appended to the predecessor list when those are stored); otherwise z is
   * relaxed via current.
   */
  function ScanEdge(st: ScanState, current: Node, e: Edge, storePreds: bool): (r: ScanState)
    requires current < |st.dist| && e.z < |st.dist| && ScanSized(st, |st.dist|, storePreds)
    ensures ScanSized(r, |st.dist|, storePreds) && |r.previous| == |st.previous|
  {
    if st.dist[current] == st.dist[e.z] + e.w then
      ScanState(st.dist, st.npaths[current := st.npaths[current] + st.npaths[e.z]],
                if storePreds then st.previous[current := st.previous[current] + [e.z]] else st.previous,
                st.color, st.queue)
    else
      var rs := UpdateQueue(RelaxState(st.dist, st.color, st.queue), e.z, current, e.w);
      ScanState(rs.dist, st.npaths, st.previous, rs.color, rs.queue)
  }

  /** ScanEdge over a list of in-neighbours, in order. */
  function ScanEdges(st: ScanState, current: Node, edges: seq<Edge>, storePreds: bool): (r: ScanState)
    requires current < |st.dist| && EdgesBelow(edges, |st.dist|) && ScanSized(st, |st.dist|, storePreds)
    ensures ScanSized(r, |st.dist|, storePreds) && |r.previous| == |st.previous|
    decreases |edges|
  {
    if |edges| == 0 then st
    else ScanEdge(ScanEdges(st, current, edges[..|edges| - 1], storePreds), current, edges[|edges| - 1], storePreds)
  }

  /** The in-neighbours z whose distance plus edge weight equals current's distance. */
  function Tight(dist: seq<real>, current: Node, edges: seq<Edge>): (ps: seq<Node>)
    requires current < |dist| && EdgesBelow(edges, |dist|)
    ensures |ps| <= |edges|
    decreases |edges|
  {
    if |edges| == 0 then []
    else
      var e := edges[|edges| - 1];
      Tight(dist, current, edges[..|edges| - 1]) + (if dist[current] == dist[e.z] + e.w then [e.z] else [])
  }

  /** Sum of npaths over a list of nodes. */
  function SumPaths(npaths: seq<nat>, ps: seq<Node>): nat
    requires forall j :: 0 <= j < |ps| ==> ps[j] < |npaths|
    decreases |ps|
  {
    if |ps| == 0 then 0 else SumPaths(npaths, ps[..|ps| - 1]) + npaths[ps[|ps| - 1]]
  }

  lemma {:induction false} TightBelow(dist: seq<real>, current: Node, edges: seq<Edge>)
    requires current < |dist| && EdgesBelow(edges, |dist|)
    ensures forall j :: 0 <= j < |Tight(dist, current, edges)| ==> Tight(dist, current, edges)[j] < |dist|
    decreases |edges|
  {
    if |edges| > 0 {
      TightBelow(dist, current, edges[..|edges| - 1]);
    }
  }

  /** The in-neighbour list of a simple graph: no edge from current to itself, no node twice. */
  predicate Simple(current: Node, edges: seq<Edge>)
  {
    && (forall j :: 0 <= j < |edges| ==> edges[j].z != current)
    && (forall i, j :: 0 <= i < j < |edges| ==> edges[i].z != edges[j].z)
  }

  /** Scanning only changes distances of the scanned neighbours, and path data only at current. */
  lemma {:induction false} ScanEdgesFrame(st: ScanState, current: Node, edges: seq<Edge>, storePreds: bool)
    requires current < |st.dist| && EdgesBelow(edges, |st.dist|) && ScanSized(st, |st.dist|, storePreds)
    ensures forall x :: 0 <= x < |st.dist| && (forall j :: 0 <= j < |edges| ==> edges[j].z != x) ==>
      ScanEdges(st, current, edges, storePreds).dist[x] == st.dist[x]
    ensures forall x :: 0 <= x < |st.dist| && x != current ==>
      ScanEdges(st, current, edges, storePreds).npaths[x] == st.npaths[x]
    ensures forall x :: 0 <= x < |st.previous| && x != current ==>
      ScanEdges(st, current, edges, storePreds).previous[x] == st.previous[x]
    ensures !storePreds ==> ScanEdges(st, current, edges, storePreds).previous == st.previous
    decreases |edges|
  {
    if |edges| > 0 {
      ScanEdgesFrame(st, current, edges[..|edges| - 1], storePreds);
    }
  }

  /** In a simple graph, scanning all but the last edge leaves current's and the last neighbour's data alone. */
  lemma LastEdgeUntouched(st: ScanState, current: Node, edges: seq<Edge>, storePreds: bool)
    requires current < |st.dist| && EdgesBelow(edges, |st.dist|) && ScanSized(st, |st.dist|, storePreds)
    requires Simple(current, edges) && |edges| > 0
    ensures var s := ScanEdges(st, current, edges[..|edges| - 1], storePreds);
      var z := edges[|edges| - 1].z;
      && s.dist[current] == st.dist[current] && s.dist[z] == st.dist[z] && s.npaths[z] == st.npaths[z]
  {
    var init := edges[..|edges| - 1];
    var z := edges[|edges| - 1].z;
    ScanEdgesFrame(st, current, init, storePreds);
    forall j | 0 <= j < |init| ensures init[j].z != z {
      assert edges[j].z != edges[|edges| - 1].z;
    }
  }

  /** In a simple graph, scanning rebuilds current's path count as the sum of those of its tight in-neighbours. */
  lemma {:induction false} ScanEdgesPaths(st: ScanState, current: Node, edges: seq<Edge>, storePreds: bool)
    requires current < |st.dist| && EdgesBelow(edges, |st.dist|) && ScanSized(st, |st.dist|, storePreds)
    requires Simple(current, edges)
    ensures forall j :: 0 <= j < |Tight(st.dist, current, edges)| ==>
      Tight(st.dist, current, edges)[j] < |st.dist|
    ensures ScanEdges(st, current, edges, storePreds).npaths[current]
         == st.npaths[current] + SumPaths(st.npaths, Tight(st.dist, current, edges))
    decreases |edges|
  {
    TightBelow(st.dist, current, edges);
    if |edges| > 0 {
      var init := edges[..|edges| - 1];
      var e := edges[|edges| - 1];
      assert Simple(current, init);
      ScanEdgesPaths(st, current, init, storePreds);
      LastEdgeUntouched(st, current, edges, storePreds);
      TightBelow(st.dist, current, init);
      ScanEdgePathsStep(ScanEdges(st, current, init, storePreds), st, current, e, storePreds, Tight(st.dist, current, init));
    }
  }

  /** One more in-neighbour e adds its path count to current's exactly when it is tight. */
  lemma ScanEdgePathsStep(s: ScanState, st: ScanState, current: Node, e: Edge, storePreds: bool, t: seq<Node>)
    requires current < |st.dist| && e.z < |st.dist| && ScanSized(st, |st.dist|, storePreds)
    requires ScanSized(s, |st.dist|, storePreds) && |s.npaths| == |st.npaths| && e.z != current
    requires forall j :: 0 <= j < |t| ==> t[j] < |st.dist|
    requires s.dist[current] == st.dist[current] && s.dist[e.z] == st.dist[e.z] && s.npaths[e.z] == st.npaths[e.z]
    requires s.npaths[current] == st.npaths[current] + SumPaths(st.npaths, t)
    ensures var t' := t + (if st.dist[current] == st.dist[e.z] + e.w then [e.z] else []);
      && (forall j :: 0 <= j < |t'| ==> t'[j] < |st.dist|)
      && ScanEdge(s, current, e, storePreds).npaths[current] == st.npaths[current] + SumPaths(st.npaths, t')
  {
    var r := ScanEdge(s, current, e, storePreds);
    if st.dist[current] == st.dist[e.z] + e.w {
      assert r.npaths == s.npaths[current := s.npaths[current] + s.npaths[e.z]];
      assert (t + [e.z])[..|t|] == t;
      assert SumPaths(st.npaths, t + [e.z]) == SumPaths(st.npaths, t) + st.npaths[e.z];
    } else {
      assert r.npaths == s.npaths;
      assert t + [] == t;
    }
  }

  /** In a simple graph, scanning appends exactly the tight in-neighbours, in order, to current's predecessors. */
  lemma {:induction false} ScanEdgesPreds(st: ScanState, current: Node, edges: seq<Edge>)
    requires current < |st.dist| && EdgesBelow(edges, |st.dist|) && ScanSized(st, |st.dist|, true)
    requires Simple(current, edges)
    ensures ScanEdges(st, current, edges, true).previous[current] == st.previous[current] + Tight(st.dist, current, edges)
    decreases |edges|
  {
    if |edges| > 0 {
      var init := edges[..|edges| - 1];
      var e := edges[|edges| - 1];
      assert Simple(current, init);
      ScanEdgesPreds(st, current, init);
      LastEdgeUntouched(st, current, edges, true);
      var t := Tight(st.dist, current, init);
      if st.dist[current] == st.dist[e.z] + e.w {
        assert Tight(st.dist, current, edges) == t + [e.z];
      } else {
        assert Tight(st.dist, current, edges) == t;
      }
    }
  }

  /** Scanning keeps the queue bookkeeping, never raises a distance and only adds to the queue. */
  lemma {:induction false} ScanEdgesKeeps(st: ScanState, current: Node, edges: seq<Edge>, storePreds: bool,
                                          c0: seq<Color>, d0: seq<real>, done: set<Node>)
    requires current < |st.dist| && EdgesBelow(edges, |st.dist|) && ScanSized(st, |st.dist|, storePreds)
    requires |c0| == |st.dist|
    requires QueueColors(RelaxState(st.dist, st.color, st.queue), c0, done) && NoIncrease(st.dist, d0)
    ensures var r := ScanEdges(st, current, edges, storePreds);
      && QueueColors(RelaxState(r.dist, r.color, r.queue), c0, done)
      && NoIncrease(r.dist, d0)
      && st.queue.Keys <= r.queue.Keys
    decreases |edges|
  {
    if |edges| > 0 {
      var init := edges[..|edges| - 1];
      var e := edges[|edges| - 1];
      ScanEdgesKeeps(st, current, init, storePreds, c0, d0, done);
      var s := ScanEdges(st, current, init, storePreds);
      UpdateQueueKeeps(RelaxState(s.dist, s.color, s.queue), e.z, current, e.w, c0, d0, done);
    }
  }

  /** Every in-neighbour list refers only to nodes of the graph. */
  predicate Closed(inEdges: seq<seq<Edge>>)
  {
    forall u :: 0 <= u < |inEdges| ==> EdgesBelow(inEdges[u], |inEdges|)
  }

  /** Ties on the key are broken by node id, so the least element of a queue is unique. */
  lemma MinUnique(queue: map<Node, real>, a: Node, b: Node)
    requires IsMin(queue, a) && IsMin(queue, b)
    ensures a == b
  {
  }

  /** The state right after m is extracted: m leaves the queue and its path count and predecessors are cleared. */
  function Cleared(st: ScanState, m: Node, storePreds: bool): (r: ScanState)
    requires m < |st.npaths| && (storePreds ==> m < |st.previous|)
    ensures |r.npaths| == |st.npaths| && |r.previous| == |st.previous|
    ensures r.queue == st.queue - {m} && r.dist == st.dist && r.color == st.color
  {
    ScanState(st.dist, st.npaths[m := 0], if storePreds then st.previous[m := []] else st.previous, st.color, st.queue - {m})
  }

  /** One round of the drain: extract m, clear its path data and scan its in-neighbours. */
  function ProcessStep(st: ScanState, inEdges: seq<seq<Edge>>, m: Node, storePreds: bool): (r: ScanState)
    requires Closed(inEdges) && m < |inEdges| && ScanSized(st, |inEdges|, storePreds)
    ensures ScanSized(r, |inEdges|, storePreds)
  {
    ScanEdges(Cleared(st, m, storePreds), m, inEdges[m], storePreds)
  }

  predicate NodesBelow(seen: seq<Node>, n: nat)
  {
    forall i :: 0 <= i < |seen| ==> seen[i] < n
  }

  /** ProcessStep applied to the extracted nodes in order: the state after draining them. */
  function Replay(st: ScanState, inEdges: seq<seq<Edge>>, storePreds: bool, seen: seq<Node>): (r: ScanState)
    requires Closed(inEdges) && ScanSized(st, |inEdges|, storePreds)
    requires NodesBelow(seen, |inEdges|)
    ensures ScanSized(r, |inEdges|, storePreds)
    decreases |seen|
  {
    if |seen| == 0 then st
    else ProcessStep(Replay(st, inEdges, storePreds, seen[..|seen| - 1]), inEdges, seen[|seen| - 1], storePreds)
  }

  /** Every node of seen was a least (key, id) element of the queue at the moment it was extracted. */
  ghost predicate MinOrder(st: ScanState, inEdges: seq<seq<Edge>>, storePreds: bool, seen: seq<Node>)
    requires Closed(inEdges) && ScanSized(st, |inEdges|, storePreds)
    requires NodesBelow(seen, |inEdges|)
    decreases |seen|
  {
    |seen| == 0 ||
      (var p := seen[..|seen| - 1];
       MinOrder(st, inEdges, storePreds, p) && IsMin(Replay(st, inEdges, storePreds, p).queue, seen[|seen| - 1]))
  }

  /** Extracting a least element m after seen extends the order by m and the replay by one step. */
  lemma MinOrderSnoc(st: ScanState, inEdges: seq<seq<Edge>>, storePreds: bool, seen: seq<Node>, m: Node)
    requires Closed(inEdges) && ScanSized(st, |inEdges|, storePreds)
    requires NodesBelow(seen, |inEdges|)
    requires m < |inEdges| && MinOrder(st, inEdges, storePreds, seen)
    requires IsMin(Replay(st, inEdges, storePreds, seen).queue, m)
    ensures MinOrder(st, inEdges, storePreds, seen + [m])
    ensures Replay(st, inEdges, storePreds, seen + [m]) == ProcessStep(Replay(st, inEdges, storePreds, seen), inEdges, m, storePreds)
  {
    assert (seen + [m])[..|seen|] == seen;
  }

  /** Draining changes path counts and predecessors only of the extracted nodes. */
  lemma {:induction false} ReplayFrame(st: ScanState, inEdges: seq<seq<Edge>>, storePreds: bool, seen: seq<Node>)
    requires Closed(inEdges) && ScanSized(st, |inEdges|, storePreds)
    requires NodesBelow(seen, |inEdges|)
    ensures forall x :: 0 <= x < |inEdges| && x !in seen ==>
      && Replay(st, inEdges, storePreds, seen).npaths[x] == st.npaths[x]
      && (storePreds ==> Replay(st, inEdges, storePreds, seen).previous[x] == st.previous[x])
    decreases |seen|
  {
    if |seen| > 0 {
      var p, m := seen[..|seen| - 1], seen[|seen| - 1];
      ReplayFrame(st, inEdges, storePreds, p);
      var h := Replay(st, inEdges, storePreds, p);
      var c := Cleared(h, m, storePreds);
      ScanEdgesFrame(c, m, inEdges[m], storePreds);
      forall x | 0 <= x < |inEdges| && x !in seen
        ensures x !in p && x != m
      {
        assert seen == p + [m];
      }
    }
  }

  /** One more extraction of a least element m keeps the drain's order, its replay and its set of seen nodes. */
  lemma DrainAdvance(start: ScanState, here: ScanState, next: ScanState, inEdges: seq<seq<Edge>>, storePreds: bool,
                     seen: seq<Node>, m: Node)
    requires Closed(inEdges) && ScanSized(start, |inEdges|, storePreds)
    requires NodesBelow(seen, |inEdges|) && m < |inEdges|
    requires MinOrder(start, inEdges, storePreds, seen) && here == Replay(start, inEdges, storePreds, seen)
    requires IsMin(here.queue, m) && next == ProcessStep(here, inEdges, m, storePreds)
    ensures NodesBelow(seen + [m], |inEdges|)
    ensures MinOrder(start, inEdges, storePreds, seen + [m]) && next == Replay(start, inEdges, storePreds, seen + [m])
    ensures (set x | x in seen + [m]) == (set x | x in seen) + {m}
  {
    MinOrderSnoc(start, inEdges, storePreds, seen, m);
    SeenSnoc(seen, m);
  }

  /**
   * The order of extraction is determined: two runs of the same length from
   * the same state that always extract a least element extract the same nodes.
   */
  lemma {:induction false} MinOrderUnique(st: ScanState, inEdges: seq<seq<Edge>>, storePreds: bool, s1: seq<Node>, s2: seq<Node>)
    requires Closed(inEdges) && ScanSized(st, |inEdges|, storePreds)
    requires NodesBelow(s1, |inEdges|) && NodesBelow(s2, |inEdges|)
    requires |s1| == |s2| && MinOrder(st, inEdges, storePreds, s1) && MinOrder(st, inEdges, storePreds, s2)
    ensures s1 == s2
    decreases |s1|
  {
    if |s1| > 0 {
      var k := |s1| - 1;
      var p1, p2 := s1[..k], s2[..k];
      MinOrderUnique(st, inEdges, storePreds, p1, p2);
      MinUnique(Replay(st, inEdges, storePreds, p1).queue, s1[k], s2[k]);
      assert s1 == p1 + [s1[k]] && s2 == p2 + [s2[k]];
    }
  }

  /** The result of the static Dijkstra run that `run` copies from. */
  datatype SsspResult = SsspResult(distances: seq<real>, npaths: seq<nat>, previous: seq<seq<Node>>)

  class DynDijkstra {
    const G: Graph
    const source: Node
    const storePreds: bool
    var distances: seq<real>
    var npaths: seq<nat>
    var previous: seq<seq<Node>>
    var color: seq<Color>
    /** Whether the last update changed anything. */
    var mod: bool

    /** The graph refers only to its own nodes, and there is one colour per node. */
    ghost predicate Valid()
      reads this, G
    {
      && Closed(G.inEdges)
      && |color| == |G.inEdges|
    }

    /** `run` has filled the per-node data for every node. */
    ghost predicate Ready()
      reads this, G
    {
      && Valid()
      && |distances| == |G.inEdges| && |npaths| == |G.inEdges|
      && (storePreds ==> |previous| == |G.inEdges|)
    }

    /** Every node starts WHITE. */
    constructor (G: Graph, source: Node, storePredecessors: bool)
      requires Closed(G.inEdges)
      ensures this.G == G && this.source == source && storePreds == storePredecessors
      ensures Valid() && color == seq(|G.inEdges|, _ => White)
      ensures distances == [] && npaths == [] && previous == [] && !mod
    {
      this.G := G;
      this.source := source;
      storePreds := storePredecessors;
      color := seq(|G.inEdges|, _ => White);
      distances, npaths, previous := [], [], [];
      mod := false;
    }

    /** Takes distances, path counts and (when stored) predecessors from a static Dijkstra run. */
    method Run(dij: SsspResult)
      requires Valid()
      requires |dij.distances| == |G.inEdges| && |dij.npaths| == |G.inEdges|
      requires storePreds ==> |dij.previous| == |G.inEdges|
      modifies this`distances, this`npaths, this`previous
      ensures Ready()
      ensures distances == dij.distances && npaths == dij.npaths
      ensures previous == if storePreds then dij.previous else old(previous)
    {
      distances := dij.distances;
      npaths := dij.npaths;
      if storePreds {
        previous := dij.previous;
      }
    }

    /** The `updateQueue` relaxation on this object's distances and colours. */
    method Relax(u: Node, v: Node, w: real, queue: map<Node, real>) returns (queue': map<Node, real>)
      requires Ready() && u < |G.inEdges| && v < |G.inEdges|
      modifies this`distances, this`color
      ensures Ready()
      ensures RelaxState(distances, color, queue') == UpdateQueue(RelaxState(old(distances), old(color), queue), u, v, w)
    {
      queue' := queue;
      if distances[u] >= distances[v] + w {
        distances := distances[u := distances[v] + w];
        if color[u] == White {
          queue' := queue'[u := distances[u]];
          color := color[u := Black];
        } else {
          queue' := queue'[u := distances[u]];
        }
      }
    }

    /**
     * One in-neighbour e.z of current: a tight neighbour adds its path count
     * to current's (and is appended to current's predecessors when those are
     * stored); any other is relaxed via current.
     */
    method ScanOne(current: Node, e: Edge, queue: map<Node, real>) returns (queue': map<Node, real>)
      requires Ready() && current < |G.inEdges| && e.z < |G.inEdges|
      modifies this`distances, this`npaths, this`previous, this`color
      ensures Ready()
      ensures ScanState(distances, npaths, previous, color, queue')
           == ScanEdge(ScanState(old(distances), old(npaths), old(previous), old(color), queue), current, e, storePreds)
    {
      queue' := queue;
      if distances[current] == distances[e.z] + e.w {
        if storePreds {
          previous := previous[current := previous[current] + [e.z]];
        }
        npaths := npaths[current := npaths[current] + npaths[e.z]];
      } else {
        queue' := Relax(e.z, current, e.w, queue');
      }
    }

    /**
     * Handles one node taken from the queue: clears its predecessor list,
     * resets its path count, then scans its in-neighbours in order.
     */
    method Process(current: Node, queue: map<Node, real>) returns (queue': map<Node, real>)
      requires Ready() && current < |G.inEdges|
      modifies this`distances, this`npaths, this`previous, this`color
      ensures Ready()
      ensures ScanState(distances, npaths, previous, color, queue')
           == ScanEdges(ScanState(old(distances), old(npaths)[current := 0],
                                  if storePreds then old(previous)[current := []] else old(previous),
                                  old(color), queue),
                        current, G.inEdges[current], storePreds)
    {
      if storePreds {
        previous := previous[current := []];
      }
      npaths := npaths[current := 0];
      ghost var start := ScanState(distances, npaths, previous, color, queue);
      var edges := G.inEdges[current];
      queue' := queue;
      var j := 0;
      while j < |edges|
        invariant 0 <= j <= |edges|
        invariant Ready()
        invariant ScanState(distances, npaths, previous, color, queue') == ScanEdges(start, current, edges[..j], storePreds)
      {
        assert edges[..j + 1][..j] == edges[..j];
        queue' := ScanOne(current, edges[j], queue');
        j := j + 1;
      }
      assert edges[..j] == edges;
    }

    /**
     * The first phase of `update`: both relaxations of every event in batch
     * order, stopping at the first event that is neither an edge insertion nor
     * a weight update (ok is then false).
     */
    method RelaxBatch(batch: seq<GraphEvent>) returns (ok: bool, queue: map<Node, real>)
      requires Ready()
      requires forall i :: 0 <= i < FirstRejected(batch) ==> batch[i].u < |G.inEdges| && batch[i].v < |G.inEdges|
      modifies this`distances, this`color
      ensures Ready()
      ensures ok <==> FirstRejected(batch) == |batch|
      ensures RelaxState(distances, color, queue)
           == RelaxEvents(RelaxState(old(distances), old(color), map[]), batch[..FirstRejected(batch)])
    {
      ghost var st0 := RelaxState(distances, color, map[]);
      queue := map[];
      var i := 0;
      while i < |batch|
        invariant 0 <= i <= |batch| && Ready()
        invariant forall j :: 0 <= j < i ==> Accepted(batch[j])
        invariant RelaxState(distances, color, queue) == RelaxEvents(st0, batch[..i])
      {
        assert batch[..i + 1][..i] == batch[..i];
        var e := batch[i];
        if !Accepted(e) {
          FirstRejectedAt(batch, i);
          return false, queue;
        }
        queue := Relax(e.u, e.v, e.w, queue);
        queue := Relax(e.v, e.u, e.w, queue);
        i := i + 1;
      }
      FirstRejectedAt(batch, |batch|);
      assert batch[..i] == batch;
      ok := true;
    }

    /**
     * One round of the second phase: extracts a node with the smallest key
     * and processes it.
     */
    method ExtractAndProcess(queue: map<Node, real>, ghost c0: seq<Color>, ghost d0: seq<real>, ghost done: set<Node>)
      returns (current: Node, queue': map<Node, real>)
      requires Ready() && |c0| == |G.inEdges| && |queue| > 0
      requires QueueColors(RelaxState(distances, color, queue), c0, done) && NoIncrease(distances, d0)
      modifies this`distances, this`npaths, this`previous, this`color
      ensures Ready() && current < |G.inEdges| && IsMin(queue, current)
      ensures QueueColors(RelaxState(distances, color, queue'), c0, done + {current})
      ensures NoIncrease(distances, d0)
      ensures forall x :: 0 <= x < |G.inEdges| && x != current ==>
        npaths[x] == old(npaths)[x] && (storePreds ==> previous[x] == old(previous)[x])
      ensures ScanState(distances, npaths, previous, color, queue')
           == ProcessStep(ScanState(old(distances), old(npaths), old(previous), old(color), queue), G.inEdges, current, storePreds)
    {
      MinExists(queue);
      current :| IsMin(queue, current);
      queue' := queue - {current};
      ghost var before := ScanState(distances, npaths[current := 0],
                                    if storePreds then previous[current := []] else previous, color, queue');
      assert QueueColors(RelaxState(distances, color, queue'), c0, done + {current});
      queue' := Process(current, queue');
      ScanEdgesKeeps(before, current, G.inEdges[current], storePreds, c0, d0, done + {current});
      ScanEdgesFrame(before, current, G.inEdges[current], storePreds);
    }

    /**
     * One round of the drain loop after the nodes of seen have been extracted
     * from start: extracts a least element of the queue and processes it,
     * which extends the extraction order and its replay by that node.
     */
    method DrainRound(queue: map<Node, real>, ghost c0: seq<Color>, ghost d0: seq<real>,
                      ghost start: ScanState, ghost seen: seq<Node>)
      returns (current: Node, queue': map<Node, real>)
      requires Ready() && |c0| == |G.inEdges| && |queue| > 0
      requires ScanSized(start, |G.inEdges|, storePreds) && NodesBelow(seen, |G.inEdges|)
      requires QueueColors(RelaxState(distances, color, queue), c0, set x | x in seen) && NoIncrease(distances, d0)
      requires MinOrder(start, G.inEdges, storePreds, seen)
      requires ScanState(distances, npaths, previous, color, queue) == Replay(start, G.inEdges, storePreds, seen)
      modifies this`distances, this`npaths, this`previous, this`color
      ensures Ready() && NodesBelow(seen + [current], |G.inEdges|)
      ensures QueueColors(RelaxState(distances, color, queue'), c0, set x | x in seen + [current])
      ensures NoIncrease(distances, d0)
      ensures MinOrder(start, G.inEdges, storePreds, seen + [current])
      ensures ScanState(distances, npaths, previous, color, queue') == Replay(start, G.inEdges, storePreds, seen + [current])
    {
      ghost var here := ScanState(distances, npaths, previous, color, queue);
      current, queue' := ExtractAndProcess(queue, c0, d0, set x | x in seen);
      DrainAdvance(start, here, ScanState(distances, npaths, previous, color, queue'), G.inEdges, storePreds, seen, current);
    }

    /**
     * The second phase of `update`: while the queue is non-empty (and fuel
     * lasts), marks a modification, extracts a node with the smallest key and
     * processes it. Returns the extracted nodes in order.
     */
    method DrainQueue(queue: map<Node, real>, fuel: nat, ghost c0: seq<Color>, ghost d0: seq<real>)
      returns (seen: seq<Node>, queue': map<Node, real>)
      requires Ready() && |c0| == |G.inEdges|
      requires QueueColors(RelaxState(distances, color, queue), c0, {}) && NoIncrease(distances, d0)
      modifies this`distances, this`npaths, this`previous, this`color, this`mod
      ensures Ready()
      ensures mod <==> old(mod) || |seen| > 0
      ensures |queue'| == 0 || |seen| == fuel
      ensures forall x :: x in seen ==> x < |G.inEdges|
      ensures NodesBelow(seen, |G.inEdges|)
      ensures QueueColors(RelaxState(distances, color, queue'), c0, set x | x in seen)
      ensures NoIncrease(distances, d0)
      ensures forall x :: 0 <= x < |G.inEdges| && x !in seen ==>
        npaths[x] == old(npaths)[x] && (storePreds ==> previous[x] == old(previous)[x])
      ensures MinOrder(ScanState(old(distances), old(npaths), old(previous), old(color), queue), G.inEdges, storePreds, seen)
      ensures ScanState(distances, npaths, previous, color, queue')
           == Replay(ScanState(old(distances), old(npaths), old(previous), old(color), queue), G.inEdges, storePreds, seen)
    {
      seen := [];
      queue' := queue;
      ghost var start := ScanState(distances, npaths, previous, color, queue);
      while |queue'| != 0 && |seen| < fuel
        invariant Ready() && 0 <= |seen| <= fuel
        invariant mod <==> old(mod) || |seen| > 0
        invariant NodesBelow(seen, |G.inEdges|)
        invariant QueueColors(RelaxState(distances, color, queue'), c0, set x | x in seen)
        invariant NoIncrease(distances, d0)
        invariant MinOrder(start, G.inEdges, storePreds, seen)
        invariant ScanState(distances, npaths, previous, color, queue') == Replay(start, G.inEdges, storePreds, seen)
        decreases fuel - |seen|
      {
        mod := true;
        var current;
        current, queue' := DrainRound(queue', c0, d0, start, seen);
        seen := seen + [current];
      }
      ReplayFrame(start, G.inEdges, storePreds, seen);
    }

    /** The last phase of `update`: every extracted node becomes WHITE again. */
    method ResetColors(seen: seq<Node>)
      requires Ready() && forall x :: x in seen ==> x < |G.inEdges|
      modifies this`color
      ensures Ready()
      ensures forall x :: 0 <= x < |color| ==>
        color[x] == if x in seen then White else old(color)[x]
    {
      var pending := seen;
      ghost var k := 0;
      while |pending| > 0
        invariant 0 <= k <= |seen| && Ready() && pending == seen[k..]
        invariant forall x :: 0 <= x < |color| ==>
          color[x] == if x in seen[..k] then White else old(color)[x]
      {
        var w := pending[0];
        assert w == seen[k] && w in seen;
        assert seen[..k + 1] == seen[..k] + [w];
        pending := pending[1..];
        color := color[w := White];
        k := k + 1;
      }
      assert seen[..k] == seen;
    }

    /**
     * Repairs the shortest-path data after a batch of edge insertions and
     * weight updates. Fails, with the events before the offending one already
     * relaxed, when an event of another kind is met. Draining the queue is
     * bounded by `fuel` extractions; `drained` says whether the queue emptied.
     */
    method Update(batch: seq<GraphEvent>, fuel: nat) returns (r: Outcome<string>, ghost visited: seq<Node>, ghost drained: bool)
      requires Ready()
      requires forall i :: 0 <= i < FirstRejected(batch) ==> batch[i].u < |G.inEdges| && batch[i].v < |G.inEdges|
      modifies this`distances, this`npaths, this`previous, this`color, this`mod
      ensures Ready()
      ensures r.Fail? <==> FirstRejected(batch) < |batch|
      ensures r.Fail? ==> && !mod && visited == []
                          && npaths == old(npaths) && previous == old(previous)
                          && distances == RelaxEvents(RelaxState(old(distances), old(color), map[]), batch[..FirstRejected(batch)]).dist
                          && color == RelaxEvents(RelaxState(old(distances), old(color), map[]), batch[..FirstRejected(batch)]).color
      ensures NoIncrease(distances, old(distances))
      ensures r.Pass? ==> (mod <==> |visited| > 0)
      ensures forall x :: x in visited ==> x < |G.inEdges| && color[x] == White
      ensures NodesBelow(visited, |G.inEdges|)
      ensures forall x :: 0 <= x < |G.inEdges| && x !in visited ==>
        npaths[x] == old(npaths)[x] && (storePreds ==> previous[x] == old(previous)[x])
      ensures r.Pass? && drained ==> forall x :: 0 <= x < |G.inEdges| && color[x] == Black ==> old(color)[x] == Black
      ensures r.Pass? ==>
        var rs := RelaxEvents(RelaxState(old(distances), old(color), map[]), batch[..FirstRejected(batch)]);
        var st1 := ScanState(rs.dist, old(npaths), old(previous), rs.color, rs.queue);
        var d := Replay(st1, G.inEdges, storePreds, visited);
        && MinOrder(st1, G.inEdges, storePreds, visited)
        && distances == d.dist && npaths == d.npaths && previous == d.previous
        && (drained <==> |d.queue| == 0) && (!drained ==> |visited| == fuel)
        && forall x :: 0 <= x < |color| ==> color[x] == if x in visited then White else d.color[x]
    {
      mod := false;
      ghost var d0, c0 := distances, color;
      var ok, queue := RelaxBatch(batch);
      RelaxEventsKeeps(RelaxState(d0, c0, map[]), batch[..FirstRejected(batch)], c0, d0);
      if !ok {
        return Fail("Graph update not allowed"), [], false;
      }
      assert batch[..FirstRejected(batch)] == batch;
      var seen;
      seen, queue := DrainQueue(queue, fuel, c0, d0);
      drained := |queue| == 0;
      ghost var c1 := color;
      ResetColors(seen);
      if drained {
        forall x | 0 <= x < |G.inEdges| && color[x] == Black
          ensures c0[x] == Black
        {
          assert c1[x] == Black;
        }
      }
      visited := seen;
      r := Pass;
    }
  }

  /** The set of nodes of a sequence grows by exactly the node appended. */
  lemma SeenSnoc(seen: seq<Node>, m: Node)
    ensures (set x | x in seen + [m]) == (set x | x in seen) + {m}
  {
  }

  /** The first rejected event is the one before which all are accepted and which is not. */
  lemma {:induction false} FirstRejectedAt(batch: seq<GraphEvent>, i: nat)
    requires i <= |batch| && forall j :: 0 <= j < i ==> Accepted(batch[j])
    requires i < |batch| ==> !Accepted(batch[i])
    ensures FirstRejected(batch) == i
  {
    if i > 0 {
      FirstRejectedAt(batch[1..], i - 1);
    }
  }
}
