/**
 * Triangle counting by linear algebra: the score of node i is entry (i, i) of
 * A * A * A for the adjacency matrix A of the graph, halved (and truncated to
 * a count) when the graph is undirected. Scores are available once `run` has
 * completed; moving them out ends that availability.
 */
module AlgebraicTriangleCounting {
  import opened Wrappers

  /** A square matrix with non-negative integer entries. */
  type Matrix = seq<seq<nat>>

  predicate Square(A: Matrix)
  {
    forall r :: 0 <= r < |A| ==> |A[r]| == |A|
  }

  /** Sum over k < m of X[r][k] * Y[k][c]. */
  function RowCol(X: Matrix, Y: Matrix, r: nat, c: nat, m: nat): nat
    requires Square(X) && Square(Y) && |X| == |Y| && r < |X| && c < |X| && m <= |X|
  {
    if m == 0 then 0 else RowCol(X, Y, r, c, m - 1) + X[r][m - 1] * Y[m - 1][c]
  }

  /** The matrix product. */
  function MatMul(X: Matrix, Y: Matrix): (Z: Matrix)
    requires Square(X) && Square(Y) && |X| == |Y|
    ensures Square(Z) && |Z| == |X|
  {
    seq(|X|, r requires 0 <= r < |X| => seq(|X|, c requires 0 <= c < |X| => RowCol(X, Y, r, c, |X|)))
  }

  /** A * A * A, multiplied left to right. */
  function Cube(A: Matrix): (C: Matrix)
    requires Square(A)
    ensures Square(C) && |C| == |A|
  {
    MatMul(MatMul(A, A), A)
  }

  /** The scores `run` computes: the diagonal of the cube, halved with truncation for undirected graphs. */
  function Scores(A: Matrix, directed: bool): (s: seq<nat>)
    requires Square(A)
    ensures |s| == |A|
  {
    seq(|A|, i requires 0 <= i < |A| => if directed then Cube(A)[i][i] else Cube(A)[i][i] / 2)
  }

  // ---- Closed walks of length three ----

  /** The weight of the walk i -> j -> k -> i. */
  function Walk(A: Matrix, i: nat, j: nat, k: nat): nat
    requires Square(A) && i < |A| && j < |A| && k < |A|
  {
    A[i][j] * A[j][k] * A[k][i]
  }

  /** Sum over j < m of Walk(i, j, k). */
  function ViaSecond(A: Matrix, i: nat, k: nat, m: nat): nat
    requires Square(A) && i < |A| && k < |A| && m <= |A|
  {
    if m == 0 then 0 else ViaSecond(A, i, k, m - 1) + Walk(A, i, m - 1, k)
  }

  /** Sum over k < m of Walk(i, j, k). */
  function ViaThird(A: Matrix, i: nat, j: nat, m: nat): nat
    requires Square(A) && i < |A| && j < |A| && m <= |A|
  {
    if m == 0 then 0 else ViaThird(A, i, j, m - 1) + Walk(A, i, j, m - 1)
  }

  /** Sum over k < a of the walks i -> j -> k -> i with j < m. */
  function Box(A: Matrix, i: nat, a: nat, m: nat): nat
    requires Square(A) && i < |A| && a <= |A| && m <= |A|
  {
    if a == 0 then 0 else Box(A, i, a - 1, m) + ViaSecond(A, i, a - 1, m)
  }

  /** The total weight of the closed walks of length three from i. */
  function ClosedWalks(A: Matrix, i: nat): nat
    requires Square(A) && i < |A|
  {
    Box(A, i, |A|, |A|)
  }

  // ---- Triangles ----

  /** Nodes i, j, k are pairwise joined along i -> j -> k -> i. */
  predicate IsTriangle(A: Matrix, i: nat, j: nat, k: nat)
    requires Square(A) && i < |A| && j < |A| && k < |A|
  {
    A[i][j] > 0 && A[j][k] > 0 && A[k][i] > 0
  }

  /** The number of j < m for which i, j, k form a triangle. */
  function TrianglesWith(A: Matrix, i: nat, k: nat, m: nat): nat
    requires Square(A) && i < |A| && k < |A| && m <= |A|
  {
    if m == 0 then 0 else TrianglesWith(A, i, k, m - 1) + (if IsTriangle(A, i, m - 1, k) then 1 else 0)
  }

  /** The number of pairs j < k < a for which i, j, k form a triangle. */
  function TrianglesBelow(A: Matrix, i: nat, a: nat): nat
    requires Square(A) && i < |A| && a <= |A|
  {
    if a == 0 then 0 else TrianglesBelow(A, i, a - 1) + TrianglesWith(A, i, a - 1, a - 1)
  }

  /** The number of triangles node i is part of, each counted once as a set of nodes. */
  function Triangles(A: Matrix, i: nat): nat
    requires Square(A) && i < |A|
  {
    TrianglesBelow(A, i, |A|)
  }

  /** The adjacency matrix of a simple undirected graph: 0/1, symmetric, zero diagonal. */
  predicate SimpleUndirected(A: Matrix)
  {
    && Square(A)
    && (forall r, c :: 0 <= r < |A| && 0 <= c < |A| ==> A[r][c] <= 1 && A[r][c] == A[c][r])
    && (forall r :: 0 <= r < |A| ==> A[r][r] == 0)
  }

  // ---- The cube's diagonal sums the closed walks ----

  lemma {:induction false} ViaSecondFactor(A: Matrix, i: nat, k: nat, m: nat)
    requires Square(A) && i < |A| && k < |A| && m <= |A|
    ensures ViaSecond(A, i, k, m) == RowCol(A, A, i, k, m) * A[k][i]
  {
    if m > 0 {
      ViaSecondFactor(A, i, k, m - 1);
      var s, x, y, z := RowCol(A, A, i, k, m - 1), A[i][m - 1], A[m - 1][k], A[k][i];
      assert (s + x * y) * z == s * z + x * y * z;
    }
  }

  lemma {:induction false} CubeDiagonalPrefix(A: Matrix, i: nat, a: nat)
    requires Square(A) && i < |A| && a <= |A|
    ensures RowCol(MatMul(A, A), A, i, i, a) == Box(A, i, a, |A|)
  {
    if a > 0 {
      CubeDiagonalPrefix(A, i, a - 1);
      ViaSecondFactor(A, i, a - 1, |A|);
      assert MatMul(A, A)[i][a - 1] == RowCol(A, A, i, a - 1, |A|);
    }
  }

  /** Entry (i, i) of A * A * A is the total weight of the closed walks of length three from i. */
  lemma CubeDiagonalIsClosedWalks(A: Matrix, i: nat)
    requires Square(A) && i < |A|
    ensures Cube(A)[i][i] == ClosedWalks(A, i)
  {
    CubeDiagonalPrefix(A, i, |A|);
  }

  // ---- For a simple undirected graph every triangle is two closed walks ----

  /** Growing the second index's range by one adds the walks through m as second node. */
  lemma {:induction false} BoxGrow(A: Matrix, i: nat, a: nat, m: nat)
    requires Square(A) && i < |A| && a <= |A| && m < |A|
    ensures Box(A, i, a, m + 1) == Box(A, i, a, m) + ViaThird(A, i, m, a)
  {
    if a > 0 {
      BoxGrow(A, i, a - 1, m);
    }
  }

  /** In a symmetric matrix the walks i -> m -> k -> i and i -> k -> m -> i weigh the same. */
  lemma {:induction false} ViaThirdIsViaSecond(A: Matrix, i: nat, m: nat, a: nat)
    requires SimpleUndirected(A) && i < |A| && m < |A| && a <= |A|
    ensures ViaThird(A, i, m, a) == ViaSecond(A, i, m, a)
  {
    if a > 0 {
      ViaThirdIsViaSecond(A, i, m, a - 1);
      var k := a - 1;
      assert A[i][m] == A[m][i] && A[m][k] == A[k][m] && A[k][i] == A[i][k];
      assert Walk(A, i, m, k) == Walk(A, i, k, m);
    }
  }

  /** For 0/1 entries a walk weighs 1 exactly on a triangle. */
  lemma {:induction false} ViaSecondCounts(A: Matrix, i: nat, k: nat, m: nat)
    requires SimpleUndirected(A) && i < |A| && k < |A| && m <= |A|
    ensures ViaSecond(A, i, k, m) == TrianglesWith(A, i, k, m)
  {
    if m > 0 {
      ViaSecondCounts(A, i, k, m - 1);
      var j := m - 1;
      assert A[i][j] <= 1 && A[j][k] <= 1 && A[k][i] <= 1;
      if IsTriangle(A, i, j, k) {
        assert A[i][j] == 1 && A[j][k] == 1 && A[k][i] == 1;
      } else {
        assert A[i][j] == 0 || A[j][k] == 0 || A[k][i] == 0;
      }
    }
  }

  lemma {:induction false} BoxIsTwiceTriangles(A: Matrix, i: nat, m: nat)
    requires SimpleUndirected(A) && i < |A| && m <= |A|
    ensures Box(A, i, m, m) == 2 * TrianglesBelow(A, i, m)
  {
    if m > 0 {
      var p := m - 1;
      BoxIsTwiceTriangles(A, i, p);
      // Box(m, m) = Box(p, m) + ViaSecond(p, m) = Box(p, p) + ViaThird(p, p) + ViaSecond(p, p) + Walk(i, p, p)
      BoxGrow(A, i, p, p);
      ViaThirdIsViaSecond(A, i, p, p);
      ViaSecondCounts(A, i, p, p);
      assert A[p][p] == 0;
      assert Walk(A, i, p, p) == 0;
      assert ViaSecond(A, i, p, m) == ViaSecond(A, i, p, p);
    }
  }

  /** In a simple undirected graph, the closed walks of length three from i are twice its triangles. */
  lemma ClosedWalksAreTwiceTriangles(A: Matrix, i: nat)
    requires SimpleUndirected(A) && i < |A|
    ensures ClosedWalks(A, i) == 2 * Triangles(A, i)
  {
    BoxIsTwiceTriangles(A, i, |A|);
  }

  /**
   * The scores of an undirected simple graph are its triangle counts; those
   * of a directed graph are the closed walks of length three.
   */
  lemma ScoresCountTriangles(A: Matrix, directed: bool)
    requires Square(A)
    requires !directed ==> SimpleUndirected(A)
    ensures forall i :: 0 <= i < |A| ==>
      Scores(A, directed)[i] == if directed then ClosedWalks(A, i) else Triangles(A, i)
  {
    forall i | 0 <= i < |A|
      ensures Scores(A, directed)[i] == if directed then ClosedWalks(A, i) else Triangles(A, i)
    {
      CubeDiagonalIsClosedWalks(A, i);
      if !directed {
        ClosedWalksAreTwiceTriangles(A, i);
      }
    }
  }

  class AlgebraicTriangleCounting {
    /** The adjacency matrix of the graph. */
    const A: Matrix
    const directed: bool
    var nodeScores: seq<nat>
    var hasRun: bool

    /** Scores are those of the last `run` whenever they are available. */
    ghost predicate Valid()
      reads this
    {
      Square(A) && (hasRun ==> nodeScores == Scores(A, directed))
    }

    constructor (A: Matrix, directed: bool)
      requires Square(A)
      ensures this.A == A && this.directed == directed
      ensures !hasRun && nodeScores == [] && Valid()
    {
      this.A := A;
      this.directed := directed;
      nodeScores := [];
      hasRun := false;
    }

    /** Computes the cube of A and takes its (halved) diagonal. */
    method Run()
      requires Square(A)
      modifies this`nodeScores, this`hasRun
      ensures Valid() && hasRun
      ensures nodeScores == Scores(A, directed)
    {
      var powA := Cube(A);
      var scores := new nat[|A|](_ => 0);
      var i := 0;
      while i < |powA|
        invariant 0 <= i <= |powA|
        invariant forall j :: 0 <= j < i ==> scores[j] == Scores(A, directed)[j]
      {
        scores[i] := if directed then powA[i][i] else powA[i][i] / 2;
        i := i + 1;
      }
      nodeScores := scores[..];
      hasRun := true;
    }

    /** The score of node u, or an error when `run` has not completed. */
    method Score(u: nat) returns (r: Result<nat, string>)
      requires Valid() && (hasRun ==> u < |A|)
      ensures r.Err? <==> !hasRun
      ensures r.Ok? ==> r.value == Scores(A, directed)[u]
    {
      if !hasRun {
        return Err("AlgebraicTriangleCounting::score(node u): Call run() method first.");
      }
      return Ok(nodeScores[u]);
    }

    /**
     * All scores, or an error when `run` has not completed. Moving them out
     * leaves the scores empty and unavailable until the next `run`.
     */
    method GetScores(moveOut: bool) returns (r: Result<seq<nat>, string>)
      requires Valid()
      modifies this`nodeScores, this`hasRun
      ensures Valid()
      ensures r.Err? <==> !old(hasRun)
      ensures r.Err? ==> hasRun == old(hasRun) && nodeScores == old(nodeScores)
      ensures r.Ok? ==> && r.value == Scores(A, directed)
                        && hasRun == !moveOut
                        && nodeScores == (if moveOut then [] else old(nodeScores))
    {
      if !hasRun {
        return Err("AlgebraicTriangleCounting::getScores(): Call run() method first.");
      }
      hasRun := !moveOut;
      r := Ok(nodeScores);
      if moveOut {
        nodeScores := [];
      }
    }
  }
}
