/**
 * The convergence test that ends the main loop once no centroid moved by eps
 * or more (`compute_flag_delta`, mykmeanssp.c:550-569).
 */
module Convergence {

  import opened Vectors

  /** The two centroid lists pair up vectors of equal length. */
  predicate Paired(olds: seq<Vector>, news: seq<Vector>)
  {
    |olds| == |news| && forall i :: 0 <= i < |olds| ==> |olds[i]| == |news[i]|
  }

  /** Every centroid moved by less than eps: no pair passes the source's `dist >= eps` test. */
  predicate AllMovedLess(olds: seq<Vector>, news: seq<Vector>, eps: real)
    requires Paired(olds, news)
  {
    forall i :: 0 <= i < |olds| ==> !NotBelow(SqDist(olds[i], news[i]), eps)
  }

  /**
   * `compute_flag_delta`: 1 when every centroid moved by less than eps, else 0.
   * The scan stops at the first centroid that moved by eps or more.
   */
  method ComputeFlagDelta(oldCentroids: array<Vector>, newCentroids: array<Vector>, eps: real)
    returns (flag: int)
    requires Paired(oldCentroids[..], newCentroids[..])
    ensures flag == 1 <==> AllMovedLess(oldCentroids[..], newCentroids[..], eps)
    ensures flag == 0 <==> !AllMovedLess(oldCentroids[..], newCentroids[..], eps)
  {
    flag := 1;
    var i := 0;
    while i < oldCentroids.Length
      invariant 0 <= i <= oldCentroids.Length
      invariant flag == 1
      invariant forall j :: 0 <= j < i ==> !NotBelow(SqDist(oldCentroids[j], newCentroids[j]), eps)
    {
      var delta := Dist(oldCentroids[i], newCentroids[i]);
      if NotBelow(delta, eps) {
        flag := 0;
        break;
      }
      i := i + 1;
    }
  }

  /**
   * Centroids that did not move count as converged exactly when eps is
   * positive: a zero distance is below any positive threshold and no
   * distance is below a threshold of zero or less.
   */
  lemma UnmovedConverged(cents: seq<Vector>, eps: real)
    requires |cents| > 0
    ensures Paired(cents, cents)
    ensures AllMovedLess(cents, cents, eps) <==> eps > 0.0
  {
    forall i | 0 <= i < |cents|
      ensures SqDist(cents[i], cents[i]) == 0.0
    {
      SqDistZero(cents[i], cents[i]);
    }
    if eps > 0.0 {
      SquareSign(eps);
    } else {
      assert NotBelow(SqDist(cents[0], cents[0]), eps);
    }
  }
}
