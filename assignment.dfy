/**
 * The assignment step: every point goes to the cluster of its nearest
 * centroid (`assign_data_points_to_clusters` and `arg_min_dist`,
 * mykmeanssp.c:345-398).
 *
 * The source keeps each cluster as a linked list and prepends every new
 * member, so a cluster lists its members latest first. `ClusterOf` says
 * exactly that; the lemmas below show that the K clusters together hold
 * every point once, each in the cluster of its nearest centroid.
 */
module Assignment {

  import opened Vectors

  /**
   * The centroid nearest to `p`: the scan of the centroids in index order
   * that `arg_min_dist` makes, keeping the first of equally near centroids.
   */
  function Nearest(p: Vector, cents: seq<Vector>): (r: nat)
    requires |cents| > 0 && HasDim(cents, |p|)
    ensures r < |cents|
    decreases |cents|
  {
    var n := |cents| - 1;
    if n == 0 then 0
    else
      var m := Nearest(p, cents[..n]);
      if SqDist(p, cents[n]) < SqDist(p, cents[m]) then n else m
  }

  /**
   * `Nearest` is a nearest centroid, and the lowest-indexed one: every
   * centroid is at least as far, and every centroid before it strictly farther.
   */
  lemma {:induction false} NearestIsNearest(p: Vector, cents: seq<Vector>)
    requires |cents| > 0 && HasDim(cents, |p|)
    ensures forall j :: 0 <= j < |cents| ==> SqDist(p, cents[Nearest(p, cents)]) <= SqDist(p, cents[j])
    ensures forall j :: 0 <= j < Nearest(p, cents) ==> SqDist(p, cents[Nearest(p, cents)]) < SqDist(p, cents[j])
    decreases |cents|
  {
    var n := |cents| - 1;
    if n > 0 {
      NearestIsNearest(p, cents[..n]);
      assert forall j :: 0 <= j < n ==> cents[..n][j] == cents[j];
    }
  }

  /** The three properties of `Nearest` pin the index down: no other index has all of them. */
  lemma {:induction false} NearestUnique(p: Vector, cents: seq<Vector>, r: nat)
    requires |cents| > 0 && HasDim(cents, |p|)
    requires r < |cents|
    requires forall j :: 0 <= j < |cents| ==> SqDist(p, cents[r]) <= SqDist(p, cents[j])
    requires forall j :: 0 <= j < r ==> SqDist(p, cents[r]) < SqDist(p, cents[j])
    ensures r == Nearest(p, cents)
  {
    NearestIsNearest(p, cents);
  }

  /**
   * `arg_min_dist` (mykmeanssp.c:381-398). The source starts from the
   * sentinel distance DBL_MAX; here the sentinel is "no candidate yet"
   * (`minIndex == -1`), which every real distance beats.
   */
  method ArgMinDist(dataPoint: Vector, centroids: array<Vector>) returns (minIndex: int)
    requires centroids.Length > 0 && HasDim(centroids[..], |dataPoint|)
    ensures minIndex == Nearest(dataPoint, centroids[..])
  {
    var minDis := 0.0;
    minIndex := -1;
    var i := 0;
    while i < centroids.Length
      invariant 0 <= i <= centroids.Length
      invariant i == 0 ==> minIndex == -1
      invariant i > 0 ==> minIndex == Nearest(dataPoint, centroids[..i])
      invariant i > 0 ==> minDis == SqDist(dataPoint, centroids[minIndex])
    {
      assert centroids[..i + 1][..i] == centroids[..i];
      var distance := Dist(dataPoint, centroids[i]);
      if minIndex < 0 || distance < minDis {
        minDis := distance;
        minIndex := i;
      }
      i := i + 1;
    }
    assert centroids[..i] == centroids[..];
  }

  /**
   * Cluster `j` once the points `ps` have been assigned in order: the points
   * whose nearest centroid is `j`, the latest first.
   */
  function ClusterOf(ps: seq<Vector>, cents: seq<Vector>, d: nat, j: nat): (r: seq<Vector>)
    requires |cents| > 0 && HasDim(cents, d) && HasDim(ps, d)
    ensures HasDim(r, d)
    decreases |ps|
  {
    if ps == [] then []
    else
      var n := |ps| - 1;
      var rest := ClusterOf(ps[..n], cents, d, j);
      if Nearest(ps[n], cents) == j then [ps[n]] + rest else rest
  }

  /** The K clusters, indexed like the centroids. */
  function Clusters(ps: seq<Vector>, cents: seq<Vector>, d: nat): (cs: seq<seq<Vector>>)
    requires |cents| > 0 && HasDim(cents, d) && HasDim(ps, d)
  {
    seq(|cents|, j requires 0 <= j < |cents| => ClusterOf(ps, cents, d, j))
  }

  /** There are K clusters, and their members have dimension d. */
  lemma ClustersShape(ps: seq<Vector>, cents: seq<Vector>, d: nat)
    requires |cents| > 0 && HasDim(cents, d) && HasDim(ps, d)
    ensures |Clusters(ps, cents, d)| == |cents|
    ensures forall j :: 0 <= j < |cents| ==> HasDim(Clusters(ps, cents, d)[j], d)
  {
  }

  /**
   * `assign_data_points_to_clusters` (mykmeanssp.c:345-379): starts from K
   * empty lists and prepends a copy of each point, in input order, to the
   * list of its nearest centroid.
   */
  method AssignDataPointsToClusters(dataPoints: seq<Vector>, centroids: array<Vector>, d: nat)
    returns (clusters: array<seq<Vector>>)
    requires centroids.Length > 0 && HasDim(centroids[..], d) && HasDim(dataPoints, d)
    ensures fresh(clusters)
    ensures clusters.Length == centroids.Length
    ensures clusters[..] == Clusters(dataPoints, centroids[..], d)
  {
    clusters := new seq<Vector>[centroids.Length];
    for i := 0 to centroids.Length
      invariant forall j :: 0 <= j < i ==> clusters[j] == []
    {
      clusters[i] := [];
    }
    for i := 0 to |dataPoints|
      invariant forall j :: 0 <= j < clusters.Length ==>
        clusters[j] == ClusterOf(dataPoints[..i], centroids[..], d, j)
    {
      assert dataPoints[..i + 1][..i] == dataPoints[..i];
      var dataPoint := CopyEntries(dataPoints[i]);
      var minIndex := ArgMinDist(dataPoint, centroids);
      clusters[minIndex] := [dataPoint] + clusters[minIndex];
    }
    assert dataPoints[..|dataPoints|] == dataPoints;
  }

  /** Every member of cluster `j` is one of the points, and `j` is its nearest centroid. */
  lemma {:induction false} ClusterMembersBelong(ps: seq<Vector>, cents: seq<Vector>, d: nat, j: nat)
    requires |cents| > 0 && HasDim(cents, d) && HasDim(ps, d)
    ensures forall i :: 0 <= i < |ClusterOf(ps, cents, d, j)| ==>
      ClusterOf(ps, cents, d, j)[i] in ps && Nearest(ClusterOf(ps, cents, d, j)[i], cents) == j
    decreases |ps|
  {
    if ps != [] {
      var n := |ps| - 1;
      ClusterMembersBelong(ps[..n], cents, d, j);
      assert ps == ps[..n] + [ps[n]];
    }
  }

  /** Every point is a member of the cluster of its nearest centroid. */
  lemma {:induction false} PointInItsCluster(ps: seq<Vector>, cents: seq<Vector>, d: nat, i: nat)
    requires |cents| > 0 && HasDim(cents, d) && HasDim(ps, d)
    requires i < |ps|
    ensures ps[i] in ClusterOf(ps, cents, d, Nearest(ps[i], cents))
    decreases |ps|
  {
    var n := |ps| - 1;
    if i < n {
      PointInItsCluster(ps[..n], cents, d, i);
    }
  }

  /** All the members of a list of clusters, counted with multiplicity. */
  function Members(cs: seq<seq<Vector>>): multiset<Vector>
  {
    if cs == [] then multiset{} else Members(cs[..|cs| - 1]) + multiset(cs[|cs| - 1])
  }

  /** The combined size of a list of clusters. */
  function TotalSize(cs: seq<seq<Vector>>): nat
  {
    if cs == [] then 0 else TotalSize(cs[..|cs| - 1]) + |cs[|cs| - 1]|
  }

  lemma {:induction false} MembersSize(cs: seq<seq<Vector>>)
    ensures |Members(cs)| == TotalSize(cs)
  {
    if cs != [] {
      MembersSize(cs[..|cs| - 1]);
    }
  }

  /** Prepending `p` to one cluster adds exactly one `p` to the members. */
  lemma {:induction false} MembersPrepend(cs: seq<seq<Vector>>, m: nat, p: Vector)
    requires m < |cs|
    ensures Members(cs[m := [p] + cs[m]]) == Members(cs) + multiset{p}
  {
    var n := |cs| - 1;
    var cs' := cs[m := [p] + cs[m]];
    if m == n {
      assert cs'[..n] == cs[..n];
    } else {
      assert cs'[..n] == cs[..n][m := [p] + cs[..n][m]];
      MembersPrepend(cs[..n], m, p);
    }
  }

  /** Assigning one more point prepends it to the cluster of its nearest centroid and changes nothing else. */
  lemma ClustersStep(ps: seq<Vector>, cents: seq<Vector>, d: nat)
    requires |cents| > 0 && HasDim(cents, d) && HasDim(ps, d) && ps != []
    ensures var n := |ps| - 1;
      var m := Nearest(ps[n], cents);
      Clusters(ps, cents, d) == Clusters(ps[..n], cents, d)[m := [ps[n]] + Clusters(ps[..n], cents, d)[m]]
  {
  }

  /**
   * The clusters partition the points: together they hold every point exactly
   * as often as it occurs in the input, and their sizes add up to N.
   */
  lemma {:induction false} ClustersPartition(ps: seq<Vector>, cents: seq<Vector>, d: nat)
    requires |cents| > 0 && HasDim(cents, d) && HasDim(ps, d)
    ensures Members(Clusters(ps, cents, d)) == multiset(ps)
    ensures TotalSize(Clusters(ps, cents, d)) == |ps|
    decreases |ps|
  {
    var cs := Clusters(ps, cents, d);
    if ps == [] {
      EmptyClustersHaveNoMembers(cs);
    } else {
      var n := |ps| - 1;
      var prev := Clusters(ps[..n], cents, d);
      var m := Nearest(ps[n], cents);
      ClustersPartition(ps[..n], cents, d);
      ClustersStep(ps, cents, d);
      assert cs == prev[m := [ps[n]] + prev[m]];
      MembersPrepend(prev, m, ps[n]);
      assert ps == ps[..n] + [ps[n]];
      assert multiset(ps) == multiset(ps[..n]) + multiset{ps[n]};
    }
    MembersSize(cs);
  }

  lemma {:induction false} EmptyClustersHaveNoMembers(cs: seq<seq<Vector>>)
    requires forall j :: 0 <= j < |cs| ==> cs[j] == []
    ensures Members(cs) == multiset{}
  {
    if cs != [] {
      EmptyClustersHaveNoMembers(cs[..|cs| - 1]);
    }
  }
}
