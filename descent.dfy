/**
 * The assign/update round never increases the within-cluster sum of squares:
 * the total squared distance from every point to the centroid of its cluster.
 *
 * The argument has two halves. Moving each centroid to the mean of its cluster
 * cannot raise that cluster's summed squared distance, because the mean
 * minimises it. Reassigning every point to its nearest new centroid cannot
 * raise the point's squared distance, because its old cluster's centroid is
 * one of the candidates.
 */
module Descent {

  import opened Wrappers
  import opened Vectors
  import opened Assignment
  import opened Update
  import opened KMeans
  import RealArith

  /** Coordinate k of every member of `c`, its squared difference from `a`, summed. */
  function ColumnSq(c: seq<Vector>, k: nat, a: real): real
    requires forall i :: 0 <= i < |c| ==> k < |c[i]|
  {
    if c == [] then 0.0 else Square(c[0][k] - a) + ColumnSq(c[1..], k, a)
  }

  /** The sum of a sequence of reals. */
  function Total(s: seq<real>): real
  {
    if s == [] then 0.0 else s[0] + Total(s[1..])
  }

  /** Coordinate k of every member of `c`, less `a`. */
  function DevColumn(c: seq<Vector>, k: nat, a: real): (z: seq<real>)
    requires forall i :: 0 <= i < |c| ==> k < |c[i]|
    ensures |z| == |c| && forall i :: 0 <= i < |c| ==> z[i] == c[i][k] - a
  {
    seq(|c|, i requires 0 <= i < |c| && k < |c[i]| => c[i][k] - a)
  }

  /** Coordinate k of every member of `c`, its squared difference from `a`. */
  function SqColumn(c: seq<Vector>, k: nat, a: real): (z: seq<real>)
    requires forall i :: 0 <= i < |c| ==> k < |c[i]|
    ensures |z| == |c| && forall i :: 0 <= i < |c| ==> z[i] == Square(c[i][k] - a)
  {
    seq(|c|, i requires 0 <= i < |c| && k < |c[i]| => Square(c[i][k] - a))
  }

  /** Summing the squared differences one member at a time gives their total. */
  lemma {:induction false} ColumnSqTotal(c: seq<Vector>, k: nat, a: real)
    requires forall i :: 0 <= i < |c| ==> k < |c[i]|
    ensures ColumnSq(c, k, a) == Total(SqColumn(c, k, a))
  {
    if c != [] {
      ColumnSqTotal(c[1..], k, a);
      assert SqColumn(c, k, a)[1..] == SqColumn(c[1..], k, a);
    }
  }

  /** The differences from `a` sum to the coordinate sum less |c| copies of `a`. */
  lemma {:induction false} ColumnDevSum(c: seq<Vector>, k: nat, a: real)
    requires forall i :: 0 <= i < |c| ==> k < |c[i]|
    ensures Total(DevColumn(c, k, a)) == CoordSum(c, k) - Times(|c|, a)
  {
    if c != [] {
      ColumnDevSum(c[1..], k, a);
      assert DevColumn(c, k, a)[1..] == DevColumn(c[1..], k, a);
      assert c == [c[0]] + c[1..];
      CoordSumAppend([c[0]], c[1..], k);
      assert CoordSum([c[0]], k) == c[0][k] by {
        assert [c[0]][..0] == [];
      }
    }
  }

  /** Term by term u == v + 2 w + e sums to Total(u) == Total(v) + 2 Total(w) + |u| e. */
  lemma {:induction false} TotalCombine(u: seq<real>, v: seq<real>, w: seq<real>, e: real)
    requires |u| == |v| == |w|
    requires forall i :: 0 <= i < |u| ==> u[i] == v[i] + 2.0 * w[i] + e
    ensures Total(u) == Total(v) + 2.0 * Total(w) + Times(|u|, e)
  {
    if u != [] {
      TotalCombine(u[1..], v[1..], w[1..], e);
    }
  }

  /** A common factor comes out of a sum. */
  lemma {:induction false} TotalScale(w: seq<real>, z: seq<real>, e: real)
    requires |w| == |z|
    requires forall i :: 0 <= i < |w| ==> w[i] == e * z[i]
    ensures Total(w) == e * Total(z)
  {
    if w != [] {
      TotalScale(w[1..], z[1..], e);
      RealArith.Distribute(e, z[0], Total(z[1..]), Total(z));
    }
  }

  /** Coordinate k of every member of `c`, less `m`, times `e`. */
  function CrossColumn(c: seq<Vector>, k: nat, m: real, e: real): (z: seq<real>)
    requires forall i :: 0 <= i < |c| ==> k < |c[i]|
    ensures |z| == |c| && forall i :: 0 <= i < |c| ==> z[i] == e * DevColumn(c, k, m)[i]
  {
    seq(|c|, i requires 0 <= i < |c| && k < |c[i]| => e * DevColumn(c, k, m)[i])
  }

  /** Member by member, (x - y)^2 == (x - m)^2 + 2 (m - y)(x - m) + (m - y)^2. */
  lemma SplitTerms(c: seq<Vector>, k: nat, y: real, m: real)
    requires forall i :: 0 <= i < |c| ==> k < |c[i]|
    ensures forall i :: 0 <= i < |c| ==>
      SqColumn(c, k, y)[i] == SqColumn(c, k, m)[i] + 2.0 * CrossColumn(c, k, m, m - y)[i] + Square(m - y)
  {
    forall i | 0 <= i < |c|
      ensures SqColumn(c, k, y)[i] == SqColumn(c, k, m)[i] + 2.0 * CrossColumn(c, k, m, m - y)[i] + Square(m - y)
    {
      SquareAround(c[i][k], y, m, DevColumn(c, k, m)[i]);
    }
  }

  /**
   * The summed squared differences from `y` split into those from `m`, a
   * cross term, and |c| copies of (m - y)^2.
   */
  lemma ColumnSplit(c: seq<Vector>, k: nat, y: real, m: real)
    requires forall i :: 0 <= i < |c| ==> k < |c[i]|
    ensures ColumnSq(c, k, y) == ColumnSq(c, k, m) + 2.0 * Total(CrossColumn(c, k, m, m - y)) + Times(|c|, Square(m - y))
  {
    SplitTerms(c, k, y, m);
    TotalCombine(SqColumn(c, k, y), SqColumn(c, k, m), CrossColumn(c, k, m, m - y), Square(m - y));
    ColumnSqTotal(c, k, y);
    ColumnSqTotal(c, k, m);
  }

  /** When the differences from `m` sum to 0, so do their multiples. */
  lemma CrossVanishes(c: seq<Vector>, k: nat, m: real, e: real)
    requires forall i :: 0 <= i < |c| ==> k < |c[i]|
    requires Total(DevColumn(c, k, m)) == 0.0
    ensures Total(CrossColumn(c, k, m, e)) == 0.0
  {
    TotalScale(CrossColumn(c, k, m, e), DevColumn(c, k, m), e);
  }

  /** The members of a cluster differ from its mean by 0 in total, on every coordinate. */
  lemma MeanDeviation(c: seq<Vector>, d: nat, k: nat)
    requires |c| > 0 && HasDim(c, d) && k < d
    ensures Total(DevColumn(c, k, Mean(c, d)[k])) == 0.0
  {
    ColumnDevSum(c, k, Mean(c, d)[k]);
    TimesIsProduct(|c|, Mean(c, d)[k]);
    RealArith.DivideBack(CoordSum(c, k), |c| as real, Mean(c, d)[k], (|c| as real) * Mean(c, d)[k]);
  }

  /** (x - y)^2 == (x - m)^2 + 2 (m - y) dv + (m - y)^2, where dv == x - m. */
  lemma SquareAround(x: real, y: real, m: real, dv: real)
    requires dv == x - m
    ensures Square(x - y) == Square(x - m) + 2.0 * ((m - y) * dv) + Square(m - y)
  {
  }

  /** |c| copies of a value that is not negative sum to a value that is not negative. */
  lemma {:induction false} TimesNonNegative(n: nat, x: real)
    requires x >= 0.0
    ensures Times(n, x) >= 0.0
  {
    if n > 0 {
      TimesNonNegative(n - 1, x);
    }
  }

  /** On each coordinate, the mean is at least as close to the members, in total, as any other value. */
  lemma MeanColumnBest(c: seq<Vector>, d: nat, k: nat, y: real)
    requires |c| > 0 && HasDim(c, d) && k < d
    ensures ColumnSq(c, k, Mean(c, d)[k]) <= ColumnSq(c, k, y)
  {
    var m := Mean(c, d)[k];
    ColumnSplit(c, k, y, m);
    MeanDeviation(c, d, k);
    CrossVanishes(c, k, m, m - y);
    SquareSign(m - y);
    TimesNonNegative(|c|, Square(m - y));
  }

  /** The summed squared distance over the first t coordinates from the members of `c` to `y`. */
  function ClusterCost(c: seq<Vector>, y: Vector, d: nat, t: nat): real
    requires HasDim(c, d) && |y| == d && t <= d
  {
    if c == [] then 0.0 else SqDist(c[0][..t], y[..t]) + ClusterCost(c[1..], y, d, t)
  }

  /** One more coordinate adds that coordinate's summed squared differences. */
  lemma {:induction false} ClusterCostStep(c: seq<Vector>, y: Vector, d: nat, t: nat)
    requires HasDim(c, d) && |y| == d && t < d
    ensures ClusterCost(c, y, d, t + 1) == ClusterCost(c, y, d, t) + ColumnSq(c, t, y[t])
  {
    if c != [] {
      ClusterCostStep(c[1..], y, d, t);
      var u := c[0];
      assert u[..t + 1][..t] == u[..t] && y[..t + 1][..t] == y[..t];
    }
  }

  /** The mean of a cluster is at least as close to its members, in total, as any other vector. */
  lemma {:induction false} MeanBest(c: seq<Vector>, d: nat, y: Vector, t: nat)
    requires |c| > 0 && HasDim(c, d) && |y| == d && t <= d
    ensures ClusterCost(c, Mean(c, d), d, t) <= ClusterCost(c, y, d, t)
  {
    if t == 0 {
      ZeroCost(c, Mean(c, d), d);
      ZeroCost(c, y, d);
    } else {
      MeanBest(c, d, y, t - 1);
      ClusterCostStep(c, Mean(c, d), d, t - 1);
      ClusterCostStep(c, y, d, t - 1);
      MeanColumnBest(c, d, t - 1, y[t - 1]);
    }
  }

  /** Over no coordinates, every member is at distance 0. */
  lemma {:induction false} ZeroCost(c: seq<Vector>, y: Vector, d: nat)
    requires HasDim(c, d) && |y| == d
    ensures ClusterCost(c, y, d, 0) == 0.0
  {
    if c != [] {
      ZeroCost(c[1..], y, d);
    }
  }

  /** Every cluster of `cs` holds vectors of dimension d. */
  predicate AllHaveDim(cs: seq<seq<Vector>>, d: nat)
  {
    forall j :: 0 <= j < |cs| ==> HasDim(cs[j], d)
  }

  /** Every cluster `cs[j]` measured against the centroid `cents[j]`, summed. */
  function GroupCost(cs: seq<seq<Vector>>, cents: seq<Vector>, d: nat): real
    requires |cents| == |cs| && HasDim(cents, d)
    requires forall j :: 0 <= j < |cs| ==> HasDim(cs[j], d)
  {
    if cs == [] then 0.0
    else
      var n := |cs| - 1;
      GroupCost(cs[..n], cents[..n], d) + ClusterCost(cs[n], cents[n], d, d)
  }

  /** A point prepended to cluster m adds its distance to centroid m, and nothing else. */
  lemma {:induction false} GroupPrepend(cs: seq<seq<Vector>>, cents: seq<Vector>, d: nat, m: nat, p: Vector)
    requires |cents| == |cs| && HasDim(cents, d)
    requires forall j :: 0 <= j < |cs| ==> HasDim(cs[j], d)
    requires m < |cs| && |p| == d
    ensures AllHaveDim(cs[m := [p] + cs[m]], d)
    ensures GroupCost(cs[m := [p] + cs[m]], cents, d) == GroupCost(cs, cents, d) + SqDist(p, cents[m])
  {
    var n := |cs| - 1;
    var cs' := cs[m := [p] + cs[m]];
    if m == n {
      assert cs'[..n] == cs[..n];
      assert ([p] + cs[m])[1..] == cs[m];
      assert p[..d] == p && cents[m][..d] == cents[m];
    } else {
      assert cs'[..n] == cs[..n][m := [p] + cs[..n][m]];
      GroupPrepend(cs[..n], cents[..n], d, m, p);
    }
  }

  /** Empty clusters cost nothing. */
  lemma {:induction false} GroupEmpty(cs: seq<seq<Vector>>, cents: seq<Vector>, d: nat)
    requires |cents| == |cs| && HasDim(cents, d)
    requires forall j :: 0 <= j < |cs| ==> cs[j] == []
    ensures GroupCost(cs, cents, d) == 0.0
  {
    if cs != [] {
      GroupEmpty(cs[..|cs| - 1], cents[..|cents| - 1], d);
    }
  }

  /**
   * Every point's squared distance to centroid `cents'[i]`, where i is the
   * centroid of `cents` nearest to it, summed over the points.
   */
  function Assigned(ps: seq<Vector>, cents: seq<Vector>, cents': seq<Vector>, d: nat): real
    requires |cents| > 0 && HasDim(cents, d) && HasDim(ps, d)
    requires |cents'| == |cents| && HasDim(cents', d)
  {
    if ps == [] then 0.0
    else
      var n := |ps| - 1;
      Assigned(ps[..n], cents, cents', d) + SqDist(ps[n], cents'[Nearest(ps[n], cents)])
  }

  /**
   * The within-cluster sum of squares of the points around the centroids
   * `cents`: every point's squared distance to its nearest centroid, summed.
   */
  function Inertia(ps: seq<Vector>, cents: seq<Vector>, d: nat): real
    requires |cents| > 0 && HasDim(cents, d) && HasDim(ps, d)
  {
    Assigned(ps, cents, cents, d)
  }

  /** Summing point by point equals summing cluster by cluster. */
  lemma {:induction false} AssignedByCluster(ps: seq<Vector>, cents: seq<Vector>, cents': seq<Vector>, d: nat)
    requires |cents| > 0 && HasDim(cents, d) && HasDim(ps, d)
    requires |cents'| == |cents| && HasDim(cents', d)
    ensures |Clusters(ps, cents, d)| == |cents|
    ensures forall j :: 0 <= j < |cents| ==> HasDim(Clusters(ps, cents, d)[j], d)
    ensures Assigned(ps, cents, cents', d) == GroupCost(Clusters(ps, cents, d), cents', d)
    decreases |ps|
  {
    ClustersShape(ps, cents, d);
    if ps == [] {
      GroupEmpty(Clusters(ps, cents, d), cents', d);
    } else {
      var n := |ps| - 1;
      var prev := Clusters(ps[..n], cents, d);
      var m := Nearest(ps[n], cents);
      AssignedByCluster(ps[..n], cents, cents', d);
      ClustersStep(ps, cents, d);
      GroupPrepend(prev, cents', d, m, ps[n]);
    }
  }

  /** Each point's nearest centroid is at least as close as the one it was assigned to. */
  lemma {:induction false} ReassignNoWorse(ps: seq<Vector>, cents: seq<Vector>, next: seq<Vector>, d: nat)
    requires |cents| > 0 && HasDim(cents, d) && HasDim(ps, d)
    requires |next| == |cents| && HasDim(next, d)
    ensures Inertia(ps, next, d) <= Assigned(ps, cents, next, d)
  {
    if ps != [] {
      var n := |ps| - 1;
      ReassignNoWorse(ps[..n], cents, next, d);
      NearestIsNearest(ps[n], next);
    }
  }

  /** Replacing every centroid by the mean of its cluster does not raise the total. */
  lemma {:induction false} MeansNoWorse(cs: seq<seq<Vector>>, cents: seq<Vector>, ms: seq<Vector>, d: nat)
    requires |cents| == |cs| && HasDim(cents, d)
    requires forall j :: 0 <= j < |cs| ==> HasDim(cs[j], d) && cs[j] != []
    requires |ms| == |cs| && forall j :: 0 <= j < |cs| ==> ms[j] == Mean(cs[j], d)
    ensures HasDim(ms, d)
    ensures GroupCost(cs, ms, d) <= GroupCost(cs, cents, d)
  {
    if cs != [] {
      var n := |cs| - 1;
      MeansNoWorse(cs[..n], cents[..n], ms[..n], d);
      MeanBest(cs[n], d, cents[n], d);
    }
  }

  /**
   * An assign/update round (mykmeanssp.c:266-271) that succeeds does not
   * increase the within-cluster sum of squares.
   */
  lemma RoundNoWorse(points: seq<Vector>, cents: seq<Vector>, d: nat)
    requires |cents| > 0 && HasDim(cents, d) && HasDim(points, d)
    ensures Round(points, cents, d).Ok? ==>
      Inertia(points, Round(points, cents, d).value, d) <= Inertia(points, cents, d)
  {
    if Round(points, cents, d).Ok? {
      var next := Round(points, cents, d).value;
      var cs := Clusters(points, cents, d);
      AssignedByCluster(points, cents, cents, d);
      AssignedByCluster(points, cents, next, d);
      NewCentroidsAreMeansInverse(cs, d, next);
      MeansNoWorse(cs, cents, next, d);
      ReassignNoWorse(points, cents, next, d);
    }
  }

  /** What the update step makes of the clusters, when it succeeds, are their means. */
  lemma NewCentroidsAreMeansInverse(cs: seq<seq<Vector>>, d: nat, ms: seq<Vector>)
    requires forall j :: 0 <= j < |cs| ==> HasDim(cs[j], d)
    requires NewCentroids(cs, d) == Ok(ms)
    ensures |ms| == |cs|
    ensures forall j :: 0 <= j < |cs| ==> cs[j] != [] && ms[j] == Mean(cs[j], d)
  {
  }

  /**
   * One pass of `k_means`' loop (mykmeanssp.c:263-283) that succeeds does not
   * increase the within-cluster sum of squares; a skipped pass leaves it as it is.
   */
  lemma PassNoWorse(points: seq<Vector>, c0: seq<Vector>, d: nat, eps: real, n: nat)
    requires |c0| > 0 && HasDim(c0, d) && HasDim(points, d)
    requires Iterate(LloydStep(points, d, eps), c0, n + 1).Ok?
    ensures Iterate(LloydStep(points, d, eps), c0, n).Ok?
    ensures var a := Iterate(LloydStep(points, d, eps), c0, n).value.centroids;
      var b := Iterate(LloydStep(points, d, eps), c0, n + 1).value.centroids;
      |a| == |b| == |c0| && HasDim(a, d) && HasDim(b, d) &&
      Inertia(points, b, d) <= Inertia(points, a, d)
  {
    var step := LloydStep(points, d, eps);
    LloydShape(points, c0, d, eps, n);
    LloydShape(points, c0, d, eps, n + 1);
    var s := Iterate(step, c0, n).value;
    if !s.converged {
      IterateNext(step, c0, n, s);
      RoundNoWorse(points, s.centroids, d);
    }
  }

  /** Along a run, the within-cluster sum of squares never rises above that of the seeds. */
  lemma {:induction false} RunNoWorse(points: seq<Vector>, c0: seq<Vector>, d: nat, eps: real, n: nat)
    requires |c0| > 0 && HasDim(c0, d) && HasDim(points, d)
    requires Iterate(LloydStep(points, d, eps), c0, n).Ok?
    ensures var c := Iterate(LloydStep(points, d, eps), c0, n).value.centroids;
      |c| == |c0| && HasDim(c, d) && Inertia(points, c, d) <= Inertia(points, c0, d)
  {
    LloydShape(points, c0, d, eps, n);
    if n > 0 {
      var step := LloydStep(points, d, eps);
      var m := n - 1;
      assert Iterate(step, c0, m + 1).Ok?;
      PassNoWorse(points, c0, d, eps, m);
      RunNoWorse(points, c0, d, eps, m);
    }
  }
}
