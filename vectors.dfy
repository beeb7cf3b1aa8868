/**
  Embedding vectors as sequences of exact reals, with the few numpy
  operations the ranking code uses.
 */
module Vectors {

  type Vector = seq<real>

  /** An embedding matrix: one row per message, every row of the same width. */
  ghost predicate Rectangular(rows: seq<Vector>) {
    forall i | 0 <= i < |rows| :: |rows[i]| == |rows[0]|
  }

  /** `embeddings.shape[1]` */
  function Dim(rows: seq<Vector>): nat
    requires |rows| > 0
  {
    |rows[0]|
  }

  /** `np.zeros(dim)` */
  function Zero(dim: nat): (v: Vector)
    ensures |v| == dim && forall j | 0 <= j < dim :: v[j] == 0.0
  {
    seq(dim, j => 0.0)
  }

  /** `np.linalg.norm(v) == 0`, exactly. */
  predicate IsZero(v: Vector) {
    forall j | 0 <= j < |v| :: v[j] == 0.0
  }

  function Add(a: Vector, b: Vector): (v: Vector)
    requires |a| == |b|
    ensures |v| == |a| && forall j | 0 <= j < |a| :: v[j] == a[j] + b[j]
  {
    seq(|a|, j requires 0 <= j < |a| => a[j] + b[j])
  }

  function Scale(c: real, a: Vector): (v: Vector)
    ensures |v| == |a| && forall j | 0 <= j < |a| :: v[j] == c * a[j]
  {
    seq(|a|, j requires 0 <= j < |a| => c * a[j])
  }

  /** `np.dot(a, b)` */
  function Dot(a: Vector, b: Vector): real
    requires |a| == |b|
  {
    if a == [] then 0.0 else Dot(a[..|a| - 1], b[..|b| - 1]) + a[|a| - 1] * b[|b| - 1]
  }

  /** The sum of the rows `rows[i]` for `i` in `idxs`. */
  function SumRows(rows: seq<Vector>, idxs: seq<nat>, dim: nat): (v: Vector)
    requires forall k | 0 <= k < |idxs| :: idxs[k] < |rows| && |rows[idxs[k]]| == dim
    ensures |v| == dim
  {
    if idxs == [] then Zero(dim)
    else
      var n := |idxs| - 1;
      Add(SumRows(rows, idxs[..n], dim), rows[idxs[n]])
  }

  /** `rows[idxs].mean(axis=0)` for a non-empty selection. */
  function Centroid(rows: seq<Vector>, idxs: seq<nat>, dim: nat): (v: Vector)
    requires idxs != []
    requires forall k | 0 <= k < |idxs| :: idxs[k] < |rows| && |rows[idxs[k]]| == dim
    ensures |v| == dim
  {
    Scale(1.0 / (|idxs| as real), SumRows(rows, idxs, dim))
  }
}
