/**
 * Embedding rows as sequences of exact reals, with the elementwise operations and
 * reductions over the embedding axis that the scorers use. Exact reals idealise the
 * float32 tensors of the source: no rounding, overflow or NaN is modelled.
 */
module Vectors {
  type Vec = seq<real>

  function Add(a: Vec, b: Vec): Vec
    requires |a| == |b|
  {
    seq(|a|, k requires 0 <= k < |a| => a[k] + b[k])
  }

  function Sub(a: Vec, b: Vec): Vec
    requires |a| == |b|
  {
    seq(|a|, k requires 0 <= k < |a| => a[k] - b[k])
  }

  function Mul(a: Vec, b: Vec): Vec
    requires |a| == |b|
  {
    seq(|a|, k requires 0 <= k < |a| => a[k] * b[k])
  }

  /** Two row widths that broadcast against each other: equal, or one of them 1. */
  predicate Broadcastable(a: nat, b: nat) {
    a == b || a == 1 || b == 1
  }

  /** The width two broadcastable widths broadcast to. */
  function BroadcastWidth(a: nat, b: nat): nat {
    if a == 1 then b else a
  }

  /** A row broadcast to width `w`: a row of width 1 repeats its one entry. */
  function Stretch(v: Vec, w: nat): (r: Vec)
    requires |v| == w || |v| == 1
    ensures |r| == w
  {
    if |v| == w then v else seq(w, _ => v[0])
  }

  function Scale(c: real, a: Vec): Vec {
    seq(|a|, k requires 0 <= k < |a| => c * a[k])
  }

  function Abs(x: real): real {
    if x < 0.0 then -x else x
  }

  /** `tensor.sum(dim)`: the sum over the embedding axis. */
  function Sum(v: Vec): real {
    if |v| == 0 then 0.0 else Sum(v[..|v| - 1]) + v[|v| - 1]
  }

  /** `torch.norm(v, p=1)`: the sum of absolute values. */
  function L1(v: Vec): real {
    if |v| == 0 then 0.0 else L1(v[..|v| - 1]) + Abs(v[|v| - 1])
  }

  /** The arithmetic mean, `tensor.mean()`. */
  function Mean(v: Vec): real
    requires |v| > 0
  {
    Sum(v) / |v| as real
  }

  lemma {:induction false} L1NonNegative(v: Vec)
    ensures L1(v) >= 0.0
  {
    if |v| > 0 {
      L1NonNegative(v[..|v| - 1]);
    }
  }

  /** A sum of values that all lie in [lo, hi] lies in [|v| * lo, |v| * hi]. */
  lemma {:induction false} SumBounds(v: Vec, lo: real, hi: real)
    requires forall k :: 0 <= k < |v| ==> lo <= v[k] <= hi
    ensures |v| as real * lo <= Sum(v) <= |v| as real * hi
  {
    if |v| > 0 {
      SumBounds(v[..|v| - 1], lo, hi);
    }
  }

  /** Sums are monotone in each entry. */
  lemma {:induction false} SumMonotone(u: Vec, v: Vec)
    requires |u| == |v|
    requires forall k :: 0 <= k < |u| ==> u[k] <= v[k]
    ensures Sum(u) <= Sum(v)
  {
    if |u| > 0 {
      SumMonotone(u[..|u| - 1], v[..|v| - 1]);
    }
  }

  /** A mean of values that all lie in [lo, hi] lies in [lo, hi]. */
  lemma MeanBounds(v: Vec, lo: real, hi: real)
    requires |v| > 0
    requires forall k :: 0 <= k < |v| ==> lo <= v[k] <= hi
    ensures lo <= Mean(v) <= hi
  {
    SumBounds(v, lo, hi);
    var n := |v| as real;
    assert Mean(v) * n == Sum(v);
  }

  /** Means are monotone in each entry. */
  lemma MeanMonotone(u: Vec, v: Vec)
    requires |u| == |v| > 0
    requires forall k :: 0 <= k < |u| ==> u[k] <= v[k]
    ensures Mean(u) <= Mean(v)
  {
    SumMonotone(u, v);
    var n := |u| as real;
    assert Mean(u) * n == Sum(u);
    assert Mean(v) * n == Sum(v);
  }
}
