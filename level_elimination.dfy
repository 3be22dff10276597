/**
 * The exact-elimination level of the LAMG hierarchy: an ordered list of
 * elimination stages, each of which splits the indices of its fine vector into
 * a retained C-set and an eliminated F-set. The level moves vectors between the
 * finest index space (that of stage 0) and the coarse index space (the C-set of
 * the last stage) by gathering, restricting and interpolating stage by stage.
 */
module LevelElimination {
  import opened Dense

  /**
   * One elimination stage: the retained indices cSet, the eliminated indices
   * fSet, the restriction R (|cSet| x |fSet|), the interpolation P
   * (|fSet| x |cSet|), the F-set correction q and the fine size n.
   */
  datatype EliminationStage = EliminationStage(
    cSet: seq<nat>, fSet: seq<nat>, R: Matrix, P: Matrix, q: Vector, n: nat)

  /** The dimensions the matrix and vector operations of one stage rely on. */
  predicate StageShape(s: EliminationStage)
  {
    && IndicesBelow(s.cSet, s.n)
    && IndicesBelow(s.fSet, s.n)
    && |s.R| == |s.cSet| && Cols(s.R, |s.fSet|)
    && |s.P| == |s.fSet| && Cols(s.P, |s.cSet|)
    && |s.q| == |s.fSet|
  }

  /**
   * Dimension of the vector that enters stage k on the way down (and leaves it
   * on the way up); past the last stage it is the coarse dimension.
   */
  function Dim(stages: seq<EliminationStage>, nCoarse: nat, k: nat): nat
  {
    if k < |stages| then stages[k].n else nCoarse
  }

  /**
   * Every stage is well shaped, and the C-set of stage k indexes the fine
   * space of stage k + 1 (for the last stage: the coarse space of the level).
   */
  predicate Chained(stages: seq<EliminationStage>, nCoarse: nat)
  {
    && (forall k :: 0 <= k < |stages| ==> StageShape(stages[k]))
    && (forall k :: 0 <= k < |stages| ==> Linked(stages, nCoarse, k))
  }

  /**
   * The C-set of stage k indexes the fine space of the next stage. (Kept as a
   * predicate of its own so that the chain condition is only unfolded where a
   * proof names a stage.)
   */
  predicate Linked(stages: seq<EliminationStage>, nCoarse: nat, k: nat)
    requires k < |stages|
  {
    |stages[k].cSet| == Dim(stages, nCoarse, k + 1)
  }

  /**
   * The index, in the fine space of stage k, that coarse index i stands for:
   * C_k[C_{k+1}[... C_{K-1}[i]]]. It is always in range.
   */
  function Lift(stages: seq<EliminationStage>, nCoarse: nat, k: nat, i: nat): (j: nat)
    requires Chained(stages, nCoarse) && k <= |stages| && i < nCoarse
    ensures j < Dim(stages, nCoarse, k)
    decreases |stages| - k
  {
    if k == |stages| then i
    else assert Linked(stages, nCoarse, k); stages[k].cSet[Lift(stages, nCoarse, k + 1, i)]
  }

  /** One restriction step: b restricted to the C-set plus R times b restricted to the F-set. */
  function RestrictStep(s: EliminationStage, b: Vector): (r: Vector)
    requires StageShape(s) && |b| == s.n
    ensures |r| == |s.cSet|
  {
    Add(Gather(b, s.cSet), MatVec(s.R, Gather(b, s.fSet)))
  }

  /** The vector base with vals[i] written at idx[i] for i = 0, 1, ..., in order (later writes win). */
  function Scatter(base: Vector, idx: seq<nat>, vals: Vector): (r: Vector)
    requires |vals| <= |idx| && forall i :: 0 <= i < |vals| ==> idx[i] < |base|
    ensures |r| == |base|
    decreases |vals|
  {
    if |vals| == 0 then base
    else Scatter(base, idx, vals[..|vals| - 1])[idx[|vals| - 1] := vals[|vals| - 1]]
  }

  /** The correction q .* b|F that interpolation adds on the F-set. */
  function Correction(s: EliminationStage, b: Vector): (r: Vector)
    requires StageShape(s) && |b| == s.n
    ensures |r| == |s.fSet|
    ensures forall i :: 0 <= i < |s.fSet| ==> r[i] == s.q[i] * b[s.fSet[i]]
  {
    seq(|s.fSet|, i requires 0 <= i < |s.fSet| => s.q[i] * b[s.fSet[i]])
  }

  /** The F-set values that interpolation computes from the coarse x: P * x + q .* b|F. */
  function FValues(s: EliminationStage, x: Vector, b: Vector): (r: Vector)
    requires StageShape(s) && |x| == |s.cSet| && |b| == s.n
    ensures |r| == |s.fSet|
  {
    Add(MatVec(s.P, x), Correction(s, b))
  }

  /**
   * One interpolation step: a zero vector of the stage's fine size, the F-set
   * values scattered onto the F-set, then x scattered onto the C-set.
   */
  function InterpolateStep(s: EliminationStage, x: Vector, b: Vector): (r: Vector)
    requires StageShape(s) && |x| == |s.cSet| && |b| == s.n
    ensures |r| == s.n
  {
    Scatter(Scatter(Zeros(s.n), s.fSet, FValues(s, x, b)), s.cSet, x)
  }

  /** The recorded right-hand sides cover every stage with that stage's fine size. */
  predicate StagesRecorded(stages: seq<EliminationStage>, bStages: seq<Vector>)
  {
    |bStages| >= |stages| && forall k :: 0 <= k < |stages| ==> |bStages[k]| == stages[k].n
  }

  /**
   * The vector interpolation holds after it has processed stages K-1 down to
   * k: the coarse xc when k = K, otherwise stage k's step applied to the
   * vector of stage k + 1.
   */
  function Lower(stages: seq<EliminationStage>, nCoarse: nat, bStages: seq<Vector>, xc: Vector, k: nat): (x: Vector)
    requires Chained(stages, nCoarse) && StagesRecorded(stages, bStages)
    requires |xc| == nCoarse && k <= |stages|
    ensures |x| == Dim(stages, nCoarse, k)
    decreases |stages| - k
  {
    if k == |stages| then xc
    else
      assert Linked(stages, nCoarse, k);
      InterpolateStep(stages[k], Lower(stages, nCoarse, bStages, xc, k + 1), bStages[k])
  }

  /** Every stage lists each of its C-set indices once. */
  predicate CSetsInjective(stages: seq<EliminationStage>)
  {
    forall k :: 0 <= k < |stages| ==> Injective(stages[k].cSet)
  }

  /** After a scatter with distinct indices, position idx[i] holds vals[i]. */
  lemma {:induction false} ScatterAt(base: Vector, idx: seq<nat>, vals: Vector, i: nat)
    requires |vals| <= |idx| && forall j :: 0 <= j < |vals| ==> idx[j] < |base|
    requires Injective(idx[..|vals|]) && i < |vals|
    ensures Scatter(base, idx, vals)[idx[i]] == vals[i]
    decreases |vals|
  {
    var m := |vals| - 1;
    if i < m {
      assert idx[..m] == idx[..|vals|][..m];
      assert vals[..m][i] == vals[i];
      ScatterAt(base, idx, vals[..m], i);
      assert idx[..|vals|][i] != idx[..|vals|][m];
    }
  }

  /** A scatter leaves positions that none of its indices address unchanged. */
  lemma {:induction false} ScatterElsewhere(base: Vector, idx: seq<nat>, vals: Vector, p: nat)
    requires |vals| <= |idx| && forall j :: 0 <= j < |vals| ==> idx[j] < |base|
    requires p < |base| && forall j :: 0 <= j < |vals| ==> idx[j] != p
    ensures Scatter(base, idx, vals)[p] == base[p]
    decreases |vals|
  {
    if |vals| > 0 {
      ScatterElsewhere(base, idx, vals[..|vals| - 1], p);
    }
  }

  /** Interpolation puts x back on the C-set when the C-set has no repeated index. */
  lemma InterpolateStepOnC(s: EliminationStage, x: Vector, b: Vector, i: nat)
    requires StageShape(s) && |x| == |s.cSet| && |b| == s.n
    requires Injective(s.cSet) && i < |s.cSet|
    ensures InterpolateStep(s, x, b)[s.cSet[i]] == x[i]
  {
    assert s.cSet[..|x|] == s.cSet;
    ScatterAt(Scatter(Zeros(s.n), s.fSet, FValues(s, x, b)), s.cSet, x, i);
  }

  /**
   * When the F-set has no repeated index and shares none with the C-set,
   * interpolation leaves (P * x)[i] + q[i] * b[F[i]] at F-set position i.
   */
  lemma InterpolateStepOnF(s: EliminationStage, x: Vector, b: Vector, i: nat)
    requires StageShape(s) && |x| == |s.cSet| && |b| == s.n
    requires Injective(s.fSet) && i < |s.fSet|
    requires forall a, c :: 0 <= a < |s.fSet| && 0 <= c < |s.cSet| ==> s.fSet[a] != s.cSet[c]
    ensures InterpolateStep(s, x, b)[s.fSet[i]] == MatVec(s.P, x)[i] + s.q[i] * b[s.fSet[i]]
  {
    var base := Zeros(s.n);
    var fv := FValues(s, x, b);
    assert s.fSet[..|fv|] == s.fSet;
    ScatterAt(base, s.fSet, fv, i);
    ScatterElsewhere(Scatter(base, s.fSet, fv), s.cSet, x, s.fSet[i]);
  }

  /** Indices in neither set end up zero after interpolation. */
  lemma InterpolateStepElsewhere(s: EliminationStage, x: Vector, b: Vector, p: nat)
    requires StageShape(s) && |x| == |s.cSet| && |b| == s.n && p < s.n
    requires forall a :: 0 <= a < |s.fSet| ==> s.fSet[a] != p
    requires forall c :: 0 <= c < |s.cSet| ==> s.cSet[c] != p
    ensures InterpolateStep(s, x, b)[p] == 0.0
  {
    var base := Zeros(s.n);
    ScatterElsewhere(base, s.fSet, FValues(s, x, b), p);
    ScatterElsewhere(Scatter(base, s.fSet, FValues(s, x, b)), s.cSet, x, p);
  }

  /** The coarse value xc[i] survives every stage at the position that Lift assigns to i. */
  lemma {:induction false} LowerAtLift(stages: seq<EliminationStage>, nCoarse: nat, bStages: seq<Vector>,
                                       xc: Vector, k: nat, i: nat)
    requires Chained(stages, nCoarse) && StagesRecorded(stages, bStages) && CSetsInjective(stages)
    requires |xc| == nCoarse && k <= |stages| && i < nCoarse
    ensures Lower(stages, nCoarse, bStages, xc, k)[Lift(stages, nCoarse, k, i)] == xc[i]
    decreases |stages| - k
  {
    if k < |stages| {
      LowerAtLift(stages, nCoarse, bStages, xc, k + 1, i);
      assert Linked(stages, nCoarse, k);
      InterpolateStepOnC(stages[k], Lower(stages, nCoarse, bStages, xc, k + 1), bStages[k],
                         Lift(stages, nCoarse, k + 1, i));
    }
  }

  /**
   * The elimination level as built by the constructor: the coarse matrix A, the
   * stages, and cIndexFine, which maps every coarse index to the fine index it
   * was retained from.
   */
  class LevelElimination {
    const A: Matrix
    const stages: seq<EliminationStage>
    const cIndexFine: seq<nat>

    ghost predicate Valid()
    {
      && Chained(stages, |A|)
      && |cIndexFine| == |A|
      && forall i :: 0 <= i < |A| ==> cIndexFine[i] == Lift(stages, |A|, 0, i)
    }

    /** Dimension of the finest vectors: that of stage 0, or the coarse dimension without stages. */
    function FineDim(): nat
    {
      Dim(stages, |A|, 0)
    }

    /**
     * Starts from the identity on the coarse indices and maps it through the
     * C-sets of the stages from the last one to the first.
     */
    constructor (A: Matrix, coarseningStages: seq<EliminationStage>)
      requires Chained(coarseningStages, |A|)
      ensures this.A == A && stages == coarseningStages
      ensures Valid()
    {
      var idx := new nat[|A|];
      var i := 0;
      while i < idx.Length
        invariant 0 <= i <= idx.Length
        invariant forall j :: 0 <= j < i ==> idx[j] == j
      {
        idx[i] := i;
        i := i + 1;
      }
      var k := |coarseningStages|;
      while k > 0
        invariant 0 <= k <= |coarseningStages|
        invariant forall j :: 0 <= j < idx.Length ==> idx[j] == Lift(coarseningStages, |A|, k, j)
      {
        k := k - 1;
        var cSet := coarseningStages[k].cSet;
        assert Linked(coarseningStages, |A|, k);
        i := 0;
        while i < idx.Length
          invariant 0 <= i <= idx.Length
          invariant forall j :: 0 <= j < i ==> idx[j] == Lift(coarseningStages, |A|, k, j)
          invariant forall j :: i <= j < idx.Length ==> idx[j] == Lift(coarseningStages, |A|, k + 1, j)
        {
          idx[i] := cSet[idx[i]];
          i := i + 1;
        }
      }
      this.A := A;
      stages := coarseningStages;
      cIndexFine := idx[..];
    }

    /** The entries of vector at the given positions, in order. */
    static method SubVectorExtract(vector: Vector, elements: seq<nat>) returns (subVector: Vector)
      requires IndicesBelow(elements, |vector|)
      ensures |subVector| == |elements|
      ensures forall i :: 0 <= i < |elements| ==> subVector[i] == vector[elements[i]]
    {
      var a := new real[|elements|];
      var i := 0;
      while i < |elements|
        invariant 0 <= i <= |elements|
        invariant forall j :: 0 <= j < i ==> a[j] == vector[elements[j]]
      {
        a[i] := vector[elements[i]];
        i := i + 1;
      }
      subVector := a[..];
    }

    /** Takes the fine values at the retained indices, with no weighting. */
    method CoarseType(xf: Vector) returns (xc: Vector)
      requires Valid() && FineDim() <= |xf|
      ensures |xc| == |A|
      ensures forall i :: 0 <= i < |A| ==> xc[i] == xf[cIndexFine[i]]
    {
      var a := new real[|A|];
      var i := 0;
      while i < a.Length
        invariant 0 <= i <= a.Length
        invariant forall j :: 0 <= j < i ==> a[j] == xf[cIndexFine[j]]
      {
        a[i] := xf[cIndexFine[i]];
        i := i + 1;
      }
      xc := a[..];
    }

    /**
     * Runs the stages forward from bf, recording the right-hand side before
     * each stage and after the last one; bc is the last of them.
     */
    method Restrict(bf: Vector) returns (bc: Vector, bStages: seq<Vector>)
      requires Valid() && (|stages| > 0 ==> |bf| == FineDim())
      ensures |bStages| == |stages| + 1 && bStages[0] == bf && bc == bStages[|stages|]
      ensures forall k :: 0 <= k < |stages| ==>
        |bStages[k]| == stages[k].n && bStages[k + 1] == RestrictStep(stages[k], bStages[k])
      ensures |stages| > 0 ==> |bc| == |A|
    {
      var rec := new Vector[|stages| + 1];
      rec[0] := bf;
      bc := bf;
      var k := 0;
      while k < |stages|
        invariant 0 <= k <= |stages|
        invariant rec[0] == bf && rec[k] == bc
        invariant k < |stages| ==> |bc| == stages[k].n
        invariant k == |stages| && k > 0 ==> |bc| == |A|
        invariant forall j :: 0 <= j < k ==>
          |rec[j]| == stages[j].n && rec[j + 1] == RestrictStep(stages[j], rec[j])
      {
        var s := stages[k];
        assert Linked(stages, |A|, k);
        var bCSet := SubVectorExtract(bc, s.cSet);
        var bFSet := SubVectorExtract(bc, s.fSet);
        assert bCSet == Gather(bc, s.cSet) && bFSet == Gather(bc, s.fSet);
        bc := Add(bCSet, MatVec(s.R, bFSet));
        rec[k + 1] := bc;
        k := k + 1;
      }
      bStages := rec[..];
    }

    /** Writes vals[i] at position idx[i] of x, for i = 0, 1, ... in order. */
    static method ScatterInto(x: array<real>, idx: seq<nat>, vals: Vector)
      requires |vals| <= |idx| && forall j :: 0 <= j < |vals| ==> idx[j] < x.Length
      modifies x
      ensures x[..] == Scatter(old(x[..]), idx, vals)
    {
      ghost var base := x[..];
      var i := 0;
      while i < |vals|
        invariant 0 <= i <= |vals|
        invariant x[..] == Scatter(base, idx, vals[..i])
      {
        assert vals[..i + 1][..i] == vals[..i];
        x[idx[i]] := vals[i];
        i := i + 1;
      }
      assert vals[..i] == vals;
    }

    /**
     * One stage of interpolation: a zero vector of the stage's fine size
     * receives P * x + q .* b|F on the F-set, then x on the C-set.
     */
    static method InterpolateStage(s: EliminationStage, currX: Vector, b: Vector) returns (xf: Vector)
      requires StageShape(s) && |currX| == |s.cSet| && |b| == s.n
      ensures xf == InterpolateStep(s, currX, b)
    {
      var bFSet := SubVectorExtract(b, s.fSet);
      var bq := new real[|bFSet|];
      var i := 0;
      while i < bq.Length
        invariant 0 <= i <= bq.Length
        invariant forall j :: 0 <= j < i ==> bq[j] == s.q[j] * bFSet[j]
      {
        bq[i] := s.q[i] * bFSet[i];
        i := i + 1;
      }
      forall j | 0 <= j < |s.fSet|
        ensures bq[..][j] == Correction(s, b)[j]
      {
        assert bFSet[j] == b[s.fSet[j]];
        assert bq[j] == s.q[j] * bFSet[j];
      }
      assert bq[..] == Correction(s, b);
      var xFSet := Add(MatVec(s.P, currX), bq[..]);
      var x := new real[s.n](_ => 0.0);
      assert x[..] == Zeros(s.n);
      ScatterInto(x, s.fSet, xFSet);
      ScatterInto(x, s.cSet, currX);
      xf := x[..];
    }

    /**
     * Runs the stages in reverse, from the coarse xc to the finest space; the
     * output of stage k is the input of stage k - 1. Without stages xf is left
     * as the caller passed it.
     */
    method Interpolate(xc: Vector, xfIn: Vector, bStages: seq<Vector>) returns (xf: Vector)
      requires Valid() && |xc| == |A| && StagesRecorded(stages, bStages)
      ensures xf == if |stages| == 0 then xfIn else Lower(stages, |A|, bStages, xc, 0)
      ensures |stages| > 0 ==> |xf| == FineDim()
    {
      var currX := xc;
      xf := xfIn;
      var k := |stages|;
      while k > 0
        invariant 0 <= k <= |stages|
        invariant currX == Lower(stages, |A|, bStages, xc, k)
        invariant if k == |stages| then xf == xfIn else xf == currX
      {
        k := k - 1;
        assert Linked(stages, |A|, k);
        xf := InterpolateStage(stages[k], currX, bStages[k]);
        currX := xf;
      }
    }

    /**
     * Gathering after interpolating gives back the coarse vector: with C-sets
     * free of repeated indices and at least one stage, position cIndexFine[i]
     * of the interpolated vector holds xc[i].
     */
    lemma InterpolateThenCoarseType(xc: Vector, bStages: seq<Vector>)
      requires Valid() && |stages| > 0 && |xc| == |A| && StagesRecorded(stages, bStages)
      requires CSetsInjective(stages)
      ensures Gather(Lower(stages, |A|, bStages, xc, 0), cIndexFine) == xc
    {
      var xf := Lower(stages, |A|, bStages, xc, 0);
      forall i | 0 <= i < |A|
        ensures xf[cIndexFine[i]] == xc[i]
      {
        LowerAtLift(stages, |A|, bStages, xc, 0, i);
      }
    }
  }
}
