/** Exact real-valued vector algebra shared by the kernels: sums, dot products
    and the two distances (squared Euclidean and city-block) between rows.
    Every reduction is defined over a prefix, element by element in index
    order, which is the order the source's accumulating loops use. */
module Vectors {

  function Abs(x: real): (r: real)
    ensures r >= 0.0
    ensures r == x || r == -x
  {
    if x < 0.0 then -x else x
  }

  /** Sum of the entries of `v` (numpy's `.sum()` over one axis). */
  function Sum(v: seq<real>): real
    decreases |v|
  {
    if |v| == 0 then 0.0 else Sum(v[..|v| - 1]) + v[|v| - 1]
  }

  /** Inner product: the reduction `einsum('i,i->', u, v)`, `u @ v`. */
  function Dot(u: seq<real>, v: seq<real>): real
    requires |u| == |v|
    decreases |u|
  {
    if |u| == 0 then 0.0
    else Dot(u[..|u| - 1], v[..|v| - 1]) + u[|u| - 1] * v[|v| - 1]
  }

  /** Elementwise difference `u - v`. */
  function Diff(u: seq<real>, v: seq<real>): (d: seq<real>)
    requires |u| == |v|
    ensures |d| == |u|
    ensures forall k :: 0 <= k < |d| ==> d[k] == u[k] - v[k]
  {
    seq(|u|, k requires 0 <= k < |u| => u[k] - v[k])
  }

  /** Elementwise product `u * v`. */
  function Hadamard(u: seq<real>, v: seq<real>): (p: seq<real>)
    requires |u| == |v|
    ensures |p| == |u|
    ensures forall k :: 0 <= k < |p| ==> p[k] == u[k] * v[k]
  {
    seq(|u|, k requires 0 <= k < |u| => u[k] * v[k])
  }

  /** Squared Euclidean distance, the sum over k of (u[k] - v[k])^2. */
  function SqDist(u: seq<real>, v: seq<real>): (d: real)
    requires |u| == |v|
    ensures d >= 0.0
    decreases |u|
  {
    if |u| == 0 then 0.0
    else
      var e := u[|u| - 1] - v[|v| - 1];
      SqDist(u[..|u| - 1], v[..|v| - 1]) + e * e
  }

  /** City-block (L1) distance, the sum over k of |u[k] - v[k]|. */
  function L1Dist(u: seq<real>, v: seq<real>): (d: real)
    requires |u| == |v|
    ensures d >= 0.0
    decreases |u|
  {
    if |u| == 0 then 0.0
    else L1Dist(u[..|u| - 1], v[..|v| - 1]) + Abs(u[|u| - 1] - v[|v| - 1])
  }

  /** A sequence of rows that is a matrix with `cols` columns: every row has
      `cols` entries. */
  predicate IsMatrix(m: seq<seq<real>>, cols: nat)
  {
    forall i :: 0 <= i < |m| ==> |m[i]| == cols
  }

  /** `sum(u * v)` and `einsum(u, v)` reduce to the same inner product. */
  lemma {:induction false} SumHadamardIsDot(u: seq<real>, v: seq<real>)
    requires |u| == |v|
    ensures Sum(Hadamard(u, v)) == Dot(u, v)
    decreases |u|
  {
    if |u| > 0 {
      var n := |u| - 1;
      SumHadamardIsDot(u[..n], v[..n]);
      var h, h' := Hadamard(u, v), Hadamard(u[..n], v[..n]);
      assert forall k :: 0 <= k < n ==> h[..n][k] == h'[k];
      assert h[..n] == h';
    }
  }

  /** The inner product of a difference with itself is the squared distance. */
  lemma {:induction false} DotDiffIsSqDist(u: seq<real>, v: seq<real>)
    requires |u| == |v|
    ensures Dot(Diff(u, v), Diff(u, v)) == SqDist(u, v)
    decreases |u|
  {
    if |u| > 0 {
      var n := |u| - 1;
      DotDiffIsSqDist(u[..n], v[..n]);
      assert Diff(u, v)[..n] == Diff(u[..n], v[..n]);
    }
  }

  /** The expansion behind the "trick" distance matrices:
      |u|^2 + |v|^2 - 2 u.v equals the squared distance, exactly over reals. */
  lemma {:induction false} NormExpansion(u: seq<real>, v: seq<real>)
    requires |u| == |v|
    ensures Dot(u, u) + Dot(v, v) - 2.0 * Dot(u, v) == SqDist(u, v)
    decreases |u|
  {
    if |u| > 0 {
      var n := |u| - 1;
      NormExpansion(u[..n], v[..n]);
      var a, b := u[n], v[n];
      assert (a - b) * (a - b) == a * a + b * b - 2.0 * (a * b);
    }
  }

  lemma {:induction false} SqDistSymmetric(u: seq<real>, v: seq<real>)
    requires |u| == |v|
    ensures SqDist(u, v) == SqDist(v, u)
    decreases |u|
  {
    if |u| > 0 {
      var n := |u| - 1;
      SqDistSymmetric(u[..n], v[..n]);
      assert (u[n] - v[n]) * (u[n] - v[n]) == (v[n] - u[n]) * (v[n] - u[n]);
    }
  }

  lemma {:induction false} SqDistSelf(u: seq<real>)
    ensures SqDist(u, u) == 0.0
    decreases |u|
  {
    if |u| > 0 {
      SqDistSelf(u[..|u| - 1]);
    }
  }

  lemma {:induction false} L1DistSymmetric(u: seq<real>, v: seq<real>)
    requires |u| == |v|
    ensures L1Dist(u, v) == L1Dist(v, u)
    decreases |u|
  {
    if |u| > 0 {
      L1DistSymmetric(u[..|u| - 1], v[..|v| - 1]);
    }
  }

  lemma {:induction false} L1DistSelf(u: seq<real>)
    ensures L1Dist(u, u) == 0.0
    decreases |u|
  {
    if |u| > 0 {
      L1DistSelf(u[..|u| - 1]);
    }
  }
}
