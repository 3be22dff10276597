/**
 * A link predictor that scores a node pair 1 when both nodes lie in the same
 * community of the graph and 0 otherwise. The communities are computed by a
 * community detector (PLM in the library) whenever a graph is given.
 */
module SameCommunityIndex {
  import opened Wrappers

  type Node = nat

  /** A graph as adjacency lists. */
  datatype Graph = Graph(adj: seq<seq<Node>>)

  /** A partition: one community id per node. */
  type Partition = seq<nat>

  /** A community detector run to completion on a graph, returning its partition. */
  type Detector = Graph -> Partition

  /** The index of a pair: 1 when its nodes share a community, 0 otherwise. */
  function Index(communities: Partition, u: Node, v: Node): (r: real)
    requires u < |communities| && v < |communities|
    ensures r == 0.0 || r == 1.0
    ensures r == 1.0 <==> communities[u] == communities[v]
  {
    if communities[u] == communities[v] then 1.0 else 0.0
  }

  /** The index does not depend on the order of the pair. */
  lemma IndexSymmetric(communities: Partition, u: Node, v: Node)
    requires u < |communities| && v < |communities|
    ensures Index(communities, u, v) == Index(communities, v, u)
  {
  }

  /** Every node shares a community with itself. */
  lemma IndexReflexive(communities: Partition, u: Node)
    requires u < |communities|
    ensures Index(communities, u, u) == 1.0
  {
  }

  /** Sharing a community is transitive, so the pairs scored 1 form an equivalence. */
  lemma IndexTransitive(communities: Partition, u: Node, v: Node, w: Node)
    requires u < |communities| && v < |communities| && w < |communities|
    requires Index(communities, u, v) == 1.0 && Index(communities, v, w) == 1.0
    ensures Index(communities, u, w) == 1.0
  {
  }

  class SameCommunityIndex {
    /** The community detector run on every graph the predictor is given. */
    const detect: Detector
    /** The graph the predictor works on, if one has been given. */
    var graph: Option<Graph>
    var communities: Partition

    /** A predictor without a graph and with no communities. */
    constructor Empty(detect: Detector)
      ensures this.detect == detect && graph == None && communities == []
    {
      this.detect := detect;
      graph := None;
      communities := [];
    }

    /** A predictor for g, with the communities detected on g. */
    constructor (detect: Detector, g: Graph)
      ensures this.detect == detect && graph == Some(g) && communities == detect(g)
    {
      this.detect := detect;
      graph := Some(g);
      communities := detect(g);
    }

    /** Switches to newGraph and replaces the communities by those detected on it. */
    method SetGraph(newGraph: Graph)
      modifies this`graph, this`communities
      ensures graph == Some(newGraph) && communities == detect(newGraph)
    {
      graph := Some(newGraph);
      communities := detect(newGraph);
    }

    /** The score of the pair (u, v): 1 exactly when u and v share a community. */
    method RunImpl(u: Node, v: Node) returns (r: real)
      requires u < |communities| && v < |communities|
      ensures r == Index(communities, u, v)
      ensures r == 1.0 <==> communities[u] == communities[v]
      ensures r == 0.0 <==> communities[u] != communities[v]
    {
      r := if communities[u] == communities[v] then 1.0 else 0.0;
    }
  }
}
