/**
 * The facade every linear solver of the library offers: set up for a matrix
 * (or for the Laplacian of a graph), then solve one or many right-hand sides.
 * The concrete engine is not part of this module: the matrix a solver was set
 * up for is recorded, and `solve` is the engine's function of that set-up and
 * of one call's arguments.
 */
module LinearSolver {
  import opened Dense

  /** The statistics a solver reports once a solve has finished. */
  datatype SolverStatus = SolverStatus(numIters: nat, residual: real, converged: bool)

  /** The largest value of the library's 64-bit unsigned `count` type. */
  const MaxCount: nat := 0xFFFF_FFFF_FFFF_FFFF

  /** The default time budget of `solve` and `parallelSolve`: five minutes, in milliseconds. */
  const DefaultMaxConvergenceTime: nat := 5 * 60 * 1000

  /** The default iteration budget: as many as `count` can hold. */
  const DefaultMaxIterations: nat := MaxCount

  /** A weighted undirected graph given by its symmetric weight matrix. */
  datatype Graph = Graph(weights: Matrix)

  /** Sum of row i of W, leaving out its diagonal entry. */
  function OffDiagonalSum(row: Vector, i: nat, upTo: nat): real
    requires upTo <= |row|
  {
    if upTo == 0 then 0.0
    else OffDiagonalSum(row, i, upTo - 1) + (if upTo - 1 == i then 0.0 else row[upTo - 1])
  }

  /** The Laplacian of g: weighted degrees on the diagonal, negated weights elsewhere. */
  function LaplacianMatrix(g: Graph): (L: Matrix)
    ensures |L| == |g.weights|
  {
    seq(|g.weights|, i requires 0 <= i < |g.weights| =>
      seq(|g.weights[i]|, j requires 0 <= j < |g.weights[i]| =>
        if i == j then OffDiagonalSum(g.weights[i], i, |g.weights[i]|) else -g.weights[i][j]))
  }

  /** Sum of the first upTo entries of row. */
  function RowSum(row: Vector, upTo: nat): real
    requires upTo <= |row|
  {
    if upTo == 0 then 0.0 else RowSum(row, upTo - 1) + row[upTo - 1]
  }

  /** Every row of a square weight matrix has upTo entries available. */
  predicate SquareWeights(g: Graph)
  {
    forall i :: 0 <= i < |g.weights| ==> |g.weights[i]| == |g.weights|
  }

  lemma {:induction false} LaplacianRowPrefix(g: Graph, i: nat, m: nat)
    requires SquareWeights(g) && i < |g.weights| && m <= |g.weights|
    ensures RowSum(LaplacianMatrix(g)[i], m)
         == (if i < m then OffDiagonalSum(g.weights[i], i, |g.weights|) else 0.0) - OffDiagonalSum(g.weights[i], i, m)
  {
    if m > 0 {
      LaplacianRowPrefix(g, i, m - 1);
    }
  }

  /** Every row of the Laplacian sums to zero: the constant vectors lie in its kernel. */
  lemma LaplacianRowsSumToZero(g: Graph, i: nat)
    requires SquareWeights(g) && i < |g.weights|
    ensures |LaplacianMatrix(g)[i]| == |g.weights|
    ensures RowSum(LaplacianMatrix(g)[i], |g.weights|) == 0.0
  {
    LaplacianRowPrefix(g, i, |g.weights|);
  }

  /** What the solver has been set up for, if anything. */
  datatype SetupState = NotSetUp | SetUp(matrix: Matrix, connected: bool)

  /** The arguments of one call of `solve`: right-hand side, initial result and budgets. */
  datatype SolveCall = SolveCall(rhs: Vector, initial: Vector, maxConvergenceTime: nat, maxIterations: nat)

  /** A concrete engine's solve: from the set-up and one call to a status and a result vector. */
  type Engine = (SetupState, SolveCall) -> (SolverStatus, Vector)

  class LinearSolver {
    /** The relative residual the solver aims for. */
    const tolerance: real
    /** The concrete engine's solve. */
    const engine: Engine
    var setup: SetupState
    /** Every call of `solve` so far, in order. */
    ghost var calls: seq<SolveCall>

    constructor (tolerance: real, engine: Engine)
      ensures this.tolerance == tolerance && this.engine == engine
      ensures setup == NotSetUp && calls == []
    {
      this.tolerance := tolerance;
      this.engine := engine;
      setup := NotSetUp;
      calls := [];
    }

    /** Sets the solver up for the given matrix. */
    method Setup(matrix: Matrix)
      modifies this`setup
      ensures setup == SetUp(matrix, false)
    {
      setup := SetUp(matrix, false);
    }

    /** Sets the solver up for the given matrix, whose graph the caller asserts is connected. */
    method SetupConnected(matrix: Matrix)
      modifies this`setup
      ensures setup == SetUp(matrix, true)
    {
      setup := SetUp(matrix, true);
    }

    /** Sets the solver up for the Laplacian of graph: exactly `Setup(LaplacianMatrix(graph))`. */
    method SetupGraph(graph: Graph)
      modifies this`setup
      ensures setup == SetUp(LaplacianMatrix(graph), false)
    {
      Setup(LaplacianMatrix(graph));
    }

    /** Exactly `SetupConnected(LaplacianMatrix(graph))`. */
    method SetupConnectedGraph(graph: Graph)
      modifies this`setup
      ensures setup == SetUp(LaplacianMatrix(graph), true)
    {
      SetupConnected(LaplacianMatrix(graph));
    }

    /** Solves one system for the current set-up, starting from result. */
    method Solve(rhs: Vector, result: Vector, maxConvergenceTime: nat, maxIterations: nat)
      returns (status: SolverStatus, solution: Vector)
      modifies this`calls
      ensures calls == old(calls) + [SolveCall(rhs, result, maxConvergenceTime, maxIterations)]
      ensures (status, solution) == engine(setup, SolveCall(rhs, result, maxConvergenceTime, maxIterations))
    {
      var call := SolveCall(rhs, result, maxConvergenceTime, maxIterations);
      calls := calls + [call];
      status, solution := engine(setup, call).0, engine(setup, call).1;
    }

    /** `Solve` with the default budgets. */
    method SolveDefault(rhs: Vector, result: Vector) returns (status: SolverStatus, solution: Vector)
      modifies this`calls
      ensures calls == old(calls) + [SolveCall(rhs, result, DefaultMaxConvergenceTime, DefaultMaxIterations)]
      ensures (status, solution) == engine(setup, SolveCall(rhs, result, DefaultMaxConvergenceTime, DefaultMaxIterations))
    {
      status, solution := Solve(rhs, result, DefaultMaxConvergenceTime, DefaultMaxIterations);
    }

    /**
     * The default `parallelSolve`: one `Solve` per right-hand side, in index
     * order, each with the same budgets; the statuses are dropped and only the
     * first |rhs| results are replaced.
     */
    method ParallelSolve(rhs: seq<Vector>, results: array<Vector>, maxConvergenceTime: nat, maxIterations: nat)
      requires |rhs| <= results.Length
      modifies this`calls, results
      ensures calls == old(calls) + seq(|rhs|, i requires 0 <= i < |rhs| =>
        SolveCall(rhs[i], old(results[i]), maxConvergenceTime, maxIterations))
      ensures forall i :: 0 <= i < |rhs| ==>
        results[i] == engine(setup, SolveCall(rhs[i], old(results[i]), maxConvergenceTime, maxIterations)).1
      ensures forall i :: |rhs| <= i < results.Length ==> results[i] == old(results[i])
    {
      ghost var before := results[..];
      ghost var calls0 := calls;
      var i := 0;
      while i < |rhs|
        invariant 0 <= i <= |rhs|
        invariant forall j :: i <= j < results.Length ==> results[j] == before[j]
        invariant forall j :: 0 <= j < i ==>
          results[j] == engine(setup, SolveCall(rhs[j], before[j], maxConvergenceTime, maxIterations)).1
        invariant calls == calls0 + seq(i, j requires 0 <= j < i =>
          SolveCall(rhs[j], before[j], maxConvergenceTime, maxIterations))
      {
        var status, solution := Solve(rhs[i], results[i], maxConvergenceTime, maxIterations);
        results[i] := solution;
        i := i + 1;
      }
    }

    /** `ParallelSolve` with the default budgets. */
    method ParallelSolveDefault(rhs: seq<Vector>, results: array<Vector>)
      requires |rhs| <= results.Length
      modifies this`calls, results
      ensures calls == old(calls) + seq(|rhs|, i requires 0 <= i < |rhs| =>
        SolveCall(rhs[i], old(results[i]), DefaultMaxConvergenceTime, DefaultMaxIterations))
      ensures forall i :: 0 <= i < |rhs| ==>
        results[i] == engine(setup, SolveCall(rhs[i], old(results[i]), DefaultMaxConvergenceTime, DefaultMaxIterations)).1
      ensures forall i :: |rhs| <= i < results.Length ==> results[i] == old(results[i])
    {
      ParallelSolve(rhs, results, DefaultMaxConvergenceTime, DefaultMaxIterations);
    }
  }
}
