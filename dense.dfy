/**
 * Dense real vectors and matrices: the small part of the linear-algebra layer
 * (vector sum, matrix-vector product, index gather) that the elimination level
 * calls. Matrices are rows of equal length.
 */
module Dense {

  type Vector = seq<real>
  type Matrix = seq<seq<real>>

  /** Sum of x[j] * y[j]. */
  function Dot(x: Vector, y: Vector): real
    requires |x| == |y|
    decreases |x|
  {
    if |x| == 0 then 0.0 else Dot(x[..|x| - 1], y[..|y| - 1]) + x[|x| - 1] * y[|y| - 1]
  }

  /** Every row of M has exactly `cols` entries. */
  predicate Cols(M: Matrix, cols: nat)
  {
    forall i :: 0 <= i < |M| ==> |M[i]| == cols
  }

  /** The product M * x. */
  function MatVec(M: Matrix, x: Vector): (r: Vector)
    requires Cols(M, |x|)
    ensures |r| == |M|
  {
    seq(|M|, i requires 0 <= i < |M| => Dot(M[i], x))
  }

  /** The zero vector of dimension n. */
  function Zeros(n: nat): (r: Vector)
    ensures |r| == n && forall i :: 0 <= i < n ==> r[i] == 0.0
  {
    seq(n, _ => 0.0)
  }

  /** The elementwise sum x + y. */
  function Add(x: Vector, y: Vector): (r: Vector)
    requires |x| == |y|
    ensures |r| == |x|
  {
    seq(|x|, i requires 0 <= i < |x| => x[i] + y[i])
  }

  /** All indices in idx address an entry of a vector of length n. */
  predicate IndicesBelow(idx: seq<nat>, n: nat)
  {
    forall i :: 0 <= i < |idx| ==> idx[i] < n
  }

  /** The vector (v[idx[0]], ..., v[idx[|idx|-1]]). */
  function Gather(v: Vector, idx: seq<nat>): (r: Vector)
    requires IndicesBelow(idx, |v|)
    ensures |r| == |idx|
  {
    seq(|idx|, i requires 0 <= i < |idx| => v[idx[i]])
  }

  /** No index occurs twice in idx. */
  predicate Injective(idx: seq<nat>)
  {
    forall i, j :: 0 <= i < j < |idx| ==> idx[i] != idx[j]
  }
}
