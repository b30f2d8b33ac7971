/**
 * The driver (`k_means` and `copy_first_K_vectors`, mykmeanssp.c:248-311):
 * seed the K centroids with the first K points, then repeat assign / update /
 * convergence test until the centroids stop moving or `iter` rounds have run.
 *
 * `Iterate` is the specification of the loop: the state after n passes of a
 * loop body, defined pass by pass from the seed, and `LloydStep` is the body.
 * The method `KMeans` is proved to return the state after `iter` passes, and
 * the lemmas below say what that state is.
 */
module KMeans {

  import opened Wrappers
  import opened Vectors
  import opened Assignment
  import opened Update
  import opened Convergence

  /**
   * Why a run stops early. `EmptyCluster`: some cluster came out empty, and
   * the source would divide its zero sum by a zero count (mykmeanssp.c:424).
   * `BadDimensions`: the centroids do not match the points; `LloydShape`
   * shows a run seeded from the points never gets there.
   */
  datatype Failure = EmptyCluster | BadDimensions

  /** The driver's loop variables: the centroids, `iteration_number`, and `flag_delta == 1`. */
  datatype State = State(centroids: seq<Vector>, rounds: nat, converged: bool)

  /** What one pass of the loop body yields: the new centroids and `flag_delta == 1`. */
  datatype Outcome = Outcome(centroids: seq<Vector>, converged: bool)

  /** `copy_first_K_vectors`: K centroids, centroid i a copy of point i. */
  method CopyFirstKVectors(dataPoints: seq<Vector>, k: nat) returns (centroids: array<Vector>)
    requires k <= |dataPoints|
    ensures fresh(centroids)
    ensures centroids.Length == k
    ensures centroids[..] == dataPoints[..k]
  {
    centroids := new Vector[k];
    for i := 0 to k
      invariant forall j :: 0 <= j < i ==> centroids[j] == dataPoints[j]
    {
      var copy := CopyEntries(dataPoints[i]);
      centroids[i] := copy;
    }
  }

  /**
   * The centroids the update step makes of the clusters `cs`: none when some
   * cluster is empty, and otherwise the mean of each cluster.
   */
  function NewCentroids(cs: seq<seq<Vector>>, d: nat): (r: Result<seq<Vector>, Failure>)
    requires forall j :: 0 <= j < |cs| ==> HasDim(cs[j], d)
    ensures r.Ok? ==> |r.value| == |cs| && HasDim(r.value, d)
    ensures r.Ok? <==> forall j :: 0 <= j < |cs| ==> cs[j] != []
  {
    if exists j :: 0 <= j < |cs| && cs[j] == [] then Err(EmptyCluster)
    else Ok(seq(|cs|, j requires 0 <= j < |cs| => Mean(cs[j], d)))
  }

  /** Centroids that are the means of non-empty clusters are what the update step makes of them. */
  lemma NewCentroidsAreMeans(cs: seq<seq<Vector>>, d: nat, ms: seq<Vector>)
    requires forall j :: 0 <= j < |cs| ==> HasDim(cs[j], d) && cs[j] != []
    requires |ms| == |cs| && forall j :: 0 <= j < |cs| ==> ms[j] == Mean(cs[j], d)
    ensures NewCentroids(cs, d) == Ok(ms)
  {
    assert !exists j :: 0 <= j < |cs| && cs[j] == [];
    var means := seq(|cs|, j requires 0 <= j < |cs| => Mean(cs[j], d));
    assert NewCentroids(cs, d) == Ok(means);
    assert means == ms;
  }

  /** One assign/update round from the centroids `cents`. */
  function Round(points: seq<Vector>, cents: seq<Vector>, d: nat): (r: Result<seq<Vector>, Failure>)
    requires |cents| > 0 && HasDim(cents, d) && HasDim(points, d)
    ensures r.Ok? ==> |r.value| == |cents| && HasDim(r.value, d)
  {
    ClustersShape(points, cents, d);
    NewCentroids(Clusters(points, cents, d), d)
  }

  /**
   * The body of the driver's loop over the points `points` of dimension `d`:
   * a round, then the convergence test between the old and the new centroids.
   */
  function LloydStep(points: seq<Vector>, d: nat, eps: real): (step: seq<Vector> -> Result<Outcome, Failure>)
    ensures forall c :: |c| > 0 && HasDim(c, d) && HasDim(points, d) ==>
      (step(c).Ok? ==> |step(c).value.centroids| == |c| && HasDim(step(c).value.centroids, d)) &&
      (step(c).Err? ==> step(c) == Err(EmptyCluster))
  {
    (c: seq<Vector>) =>
      if |c| > 0 && HasDim(c, d) && HasDim(points, d) then
        match Round(points, c, d)
        case Err(f) => Err(f)
        case Ok(next) => Ok(Outcome(next, AllMovedLess(c, next, eps)))
      else Err(BadDimensions)
  }

  /**
   * The state after n passes of a loop `while (!converged && rounds < iter)`
   * whose body is `step`, starting from the centroids `c0`. A pass is skipped
   * once the state has converged; a failed pass ends the run.
   */
  function Iterate(step: seq<Vector> -> Result<Outcome, Failure>, c0: seq<Vector>, n: nat): (r: Result<State, Failure>)
    ensures r.Ok? ==> r.value.rounds <= n && (r.value.rounds == n || r.value.converged)
    ensures r.Ok? && r.value.converged ==> r.value.rounds >= 1
    decreases n
  {
    if n == 0 then Ok(State(c0, 0, false))
    else
      var prev := Iterate(step, c0, n - 1);
      if prev.Err? || prev.value.converged then prev
      else
        match step(prev.value.centroids)
        case Err(f) => Err(f)
        case Ok(o) => Ok(State(o.centroids, n, o.converged))
  }

  /** Once converged, further passes change nothing. */
  lemma {:induction false} IterateConvergedStable(step: seq<Vector> -> Result<Outcome, Failure>, c0: seq<Vector>, n: nat, m: nat)
    requires n <= m
    requires Iterate(step, c0, n).Ok? && Iterate(step, c0, n).value.converged
    ensures Iterate(step, c0, m) == Iterate(step, c0, n)
    decreases m
  {
    if n < m {
      IterateConvergedStable(step, c0, n, m - 1);
    }
  }

  /** Once a pass has failed, the run stays failed. */
  lemma {:induction false} IterateFailedStable(step: seq<Vector> -> Result<Outcome, Failure>, c0: seq<Vector>, n: nat, m: nat)
    requires n <= m
    requires Iterate(step, c0, n).Err?
    ensures Iterate(step, c0, m) == Iterate(step, c0, n)
    decreases m
  {
    if n < m {
      IterateFailedStable(step, c0, n, m - 1);
    }
  }

  /**
   * A state after at least one pass came from the state one pass earlier,
   * which had not converged, by one application of the step.
   */
  lemma {:induction false} IterateLastPass(step: seq<Vector> -> Result<Outcome, Failure>, c0: seq<Vector>, n: nat)
    requires Iterate(step, c0, n).Ok? && Iterate(step, c0, n).value.rounds > 0
    ensures var s := Iterate(step, c0, n).value;
      var t := Iterate(step, c0, s.rounds - 1);
      t.Ok? && t.value.rounds == s.rounds - 1 && !t.value.converged &&
      step(t.value.centroids) == Ok(Outcome(s.centroids, s.converged))
    decreases n
  {
    var prev := Iterate(step, c0, n - 1);
    if prev.value.converged {
      IterateLastPass(step, c0, n - 1);
    }
  }

  /** A step from K centroids of dimension d yields K centroids of dimension d. */
  lemma LloydStepShape(points: seq<Vector>, d: nat, eps: real, c: seq<Vector>)
    requires |c| > 0 && HasDim(c, d) && HasDim(points, d)
    ensures var r := LloydStep(points, d, eps)(c);
      r.Ok? ==> |r.value.centroids| == |c| && HasDim(r.value.centroids, d)
  {
  }

  /** The loop stops with the state after `iter` passes: it has either converged or made all `iter` passes. */
  lemma {:induction false} IterateStops(step: seq<Vector> -> Result<Outcome, Failure>, c0: seq<Vector>, n: nat, iter: nat, s: State)
    requires n <= iter && Iterate(step, c0, n) == Ok(s)
    requires s.converged || n == iter
    ensures Iterate(step, c0, iter) == Ok(s)
  {
    if n < iter {
      IterateConvergedStable(step, c0, n, iter);
    }
  }

  /** From an unconverged state, one more pass applies the step once. */
  lemma IterateNext(step: seq<Vector> -> Result<Outcome, Failure>, c0: seq<Vector>, n: nat, s: State)
    requires Iterate(step, c0, n) == Ok(s) && !s.converged
    ensures step(s.centroids).Err? ==> Iterate(step, c0, n + 1) == Err(step(s.centroids).error)
    ensures step(s.centroids).Ok? ==>
      Iterate(step, c0, n + 1) == Ok(State(step(s.centroids).value.centroids, n + 1, step(s.centroids).value.converged))
  {
  }

  /** A property of the centroids that every successful step keeps holds all along the run. */
  lemma {:induction false} IterateKeeps(step: seq<Vector> -> Result<Outcome, Failure>, inv: seq<Vector> -> bool, c0: seq<Vector>, n: nat)
    requires inv(c0)
    requires forall c :: inv(c) && step(c).Ok? ==> inv(step(c).value.centroids)
    ensures Iterate(step, c0, n).Ok? ==> inv(Iterate(step, c0, n).value.centroids)
    decreases n
  {
    if n > 0 {
      IterateKeeps(step, inv, c0, n - 1);
    }
  }

  /** A step from centroids with an empty cluster fails. */
  lemma LloydStepFails(points: seq<Vector>, d: nat, eps: real, c: seq<Vector>, j: nat)
    requires |c| > 0 && HasDim(c, d) && HasDim(points, d)
    requires j < |c| && Clusters(points, c, d)[j] == []
    ensures LloydStep(points, d, eps)(c) == Err(EmptyCluster)
  {
    ClustersShape(points, c, d);
  }

  /** An empty cluster makes the step fail, and the run then stays failed. */
  lemma LloydFails(points: seq<Vector>, d: nat, eps: real, c0: seq<Vector>, n: nat, c: seq<Vector>, j: nat, m: nat)
    requires |c| > 0 && HasDim(c, d) && HasDim(points, d)
    requires Iterate(LloydStep(points, d, eps), c0, n) == Ok(State(c, n, false))
    requires j < |c| && Clusters(points, c, d)[j] == []
    requires n < m
    ensures Iterate(LloydStep(points, d, eps), c0, m) == Err(EmptyCluster)
  {
    LloydStepFails(points, d, eps, c, j);
    IterateNext(LloydStep(points, d, eps), c0, n, State(c, n, false));
    IterateFailedStable(LloydStep(points, d, eps), c0, n + 1, m);
  }

  /**
   * With no empty cluster, one more pass moves to the means of the clusters,
   * and it has converged exactly when no centroid moved by eps or more.
   */
  lemma LloydAdvances(points: seq<Vector>, d: nat, eps: real, c0: seq<Vector>, n: nat, c: seq<Vector>, ms: seq<Vector>)
    requires |c| > 0 && HasDim(c, d) && HasDim(points, d)
    requires Iterate(LloydStep(points, d, eps), c0, n) == Ok(State(c, n, false))
    requires forall j :: 0 <= j < |c| ==> Clusters(points, c, d)[j] != []
    requires |ms| == |c| && forall j :: 0 <= j < |c| ==> ms[j] == Mean(Clusters(points, c, d)[j], d)
    ensures Paired(c, ms)
    ensures Iterate(LloydStep(points, d, eps), c0, n + 1) == Ok(State(ms, n + 1, AllMovedLess(c, ms, eps)))
  {
    var step := LloydStep(points, d, eps);
    ClustersShape(points, c, d);
    NewCentroidsAreMeans(Clusters(points, c, d), d, ms);
    assert step(c) == Ok(Outcome(ms, AllMovedLess(c, ms, eps)));
    IterateNext(step, c0, n, State(c, n, false));
  }

  /** A run seeded with K centroids of dimension d keeps K centroids of dimension d. */
  lemma {:induction false} LloydShape(points: seq<Vector>, c0: seq<Vector>, d: nat, eps: real, n: nat)
    requires |c0| > 0 && HasDim(c0, d) && HasDim(points, d)
    ensures var r := Iterate(LloydStep(points, d, eps), c0, n);
      r.Ok? ==> |r.value.centroids| == |c0| && HasDim(r.value.centroids, d)
  {
    var step := LloydStep(points, d, eps);
    var inv := (c: seq<Vector>) => |c| == |c0| && HasDim(c, d);
    forall c | inv(c) && step(c).Ok?
      ensures inv(step(c).value.centroids)
    {
      LloydStepShape(points, d, eps, c);
    }
    IterateKeeps(step, inv, c0, n);
  }

  /**
   * `k_means`' last round: a run that has made at least one round holds the
   * means of the clusters of the previous centroids, and it has converged
   * exactly when no centroid moved by eps or more in that round.
   */
  lemma LloydLastRound(points: seq<Vector>, c0: seq<Vector>, d: nat, eps: real, n: nat)
    requires |c0| > 0 && HasDim(c0, d) && HasDim(points, d)
    requires Iterate(LloydStep(points, d, eps), c0, n).Ok?
    requires Iterate(LloydStep(points, d, eps), c0, n).value.rounds > 0
    ensures var s := Iterate(LloydStep(points, d, eps), c0, n).value;
      var t := Iterate(LloydStep(points, d, eps), c0, s.rounds - 1);
      t.Ok? && !t.value.converged &&
      |t.value.centroids| == |c0| && HasDim(t.value.centroids, d) &&
      Round(points, t.value.centroids, d) == Ok(s.centroids) &&
      s.converged == AllMovedLess(t.value.centroids, s.centroids, eps)
  {
    var step := LloydStep(points, d, eps);
    var s := Iterate(step, c0, n).value;
    IterateLastPass(step, c0, n);
    LloydShape(points, c0, d, eps, s.rounds - 1);
  }

  /**
   * One pass of `k_means`' loop body (mykmeanssp.c:263-283): assign the points,
   * compute the new centroids and the convergence flag. `empty` reports a
   * cluster with no members, where the source would divide by a zero count.
   */
  method KMeansPass(dataPoints: seq<Vector>, centroids: array<Vector>, d: nat, eps: real)
    returns (empty: bool, newCentroids: array<Vector>, flagDelta: int)
    requires centroids.Length > 0 && HasDim(centroids[..], d) && HasDim(dataPoints, d)
    ensures LloydStep(dataPoints, d, eps)(centroids[..]) ==
      if empty then Err(EmptyCluster) else Ok(Outcome(newCentroids[..], flagDelta == 1))
    ensures !empty ==> fresh(newCentroids)
    ensures !empty ==> newCentroids.Length == centroids.Length && HasDim(newCentroids[..], d)
    ensures flagDelta == 0 || flagDelta == 1
  {
    ghost var c := centroids[..];
    var clusters := AssignDataPointsToClusters(dataPoints, centroids, d);
    ClustersShape(dataPoints, c, d);
    if exists j :: 0 <= j < clusters.Length && clusters[j] == [] {
      return true, centroids, 0;
    }
    newCentroids := GetNewCentroids(clusters, d);
    flagDelta := ComputeFlagDelta(centroids, newCentroids, eps);
    NewCentroidsAreMeans(clusters[..], d, newCentroids[..]);
    empty := false;
  }

  /**
   * One pass of `k_means`' loop (mykmeanssp.c:262-283) from the state after n
   * passes, which has not converged: the state after n + 1 passes is the
   * failure when `empty`, and otherwise the new centroids with the new flag.
   */
  method KMeansRound(dataPoints: seq<Vector>, centroids: array<Vector>, d: nat, eps: real, ghost c0: seq<Vector>, ghost n: nat)
    returns (empty: bool, newCentroids: array<Vector>, flagDelta: int)
    requires centroids.Length > 0 && HasDim(centroids[..], d) && HasDim(dataPoints, d)
    requires Iterate(LloydStep(dataPoints, d, eps), c0, n) == Ok(State(centroids[..], n, false))
    ensures empty ==> Iterate(LloydStep(dataPoints, d, eps), c0, n + 1) == Err(EmptyCluster)
    ensures !empty ==> fresh(newCentroids)
    ensures !empty ==> newCentroids.Length == centroids.Length && HasDim(newCentroids[..], d)
    ensures !empty ==> Iterate(LloydStep(dataPoints, d, eps), c0, n + 1) == Ok(State(newCentroids[..], n + 1, flagDelta == 1))
    ensures flagDelta == 0 || flagDelta == 1
  {
    IterateNext(LloydStep(dataPoints, d, eps), c0, n, State(centroids[..], n, false));
    empty, newCentroids, flagDelta := KMeansPass(dataPoints, centroids, d, eps);
  }

  /**
   * `k_means` (mykmeanssp.c:248-289) on the points, dimension d, K = `k`, at
   * most `iter` rounds and threshold eps: the loop runs `LloydStep` from the
   * first K points. The source's result is the centroids; the model also
   * returns the loop counters, and stops with `EmptyCluster` where the source
   * would divide by zero.
   */
  method KMeans(dataPoints: seq<Vector>, d: nat, k: nat, iter: nat, eps: real)
    returns (r: Result<State, Failure>)
    requires 0 < k <= |dataPoints| && HasDim(dataPoints, d) && iter >= 1
    ensures r == Iterate(LloydStep(dataPoints, d, eps), dataPoints[..k], iter)
  {
    ghost var c0 := dataPoints[..k];
    var centroids := CopyFirstKVectors(dataPoints, k);
    ghost var cs := centroids[..];
    var iterationNumber := 0;
    var flagDelta := 0;
    while flagDelta == 0 && iterationNumber < iter
      invariant 0 <= iterationNumber <= iter
      invariant flagDelta == 0 || flagDelta == 1
      invariant cs == centroids[..] && |cs| == k && HasDim(cs, d)
      invariant Iterate(LloydStep(dataPoints, d, eps), c0, iterationNumber) == Ok(State(cs, iterationNumber, flagDelta == 1))
      decreases iter - iterationNumber
    {
      var empty, newCentroids, flag := KMeansRound(dataPoints, centroids, d, eps, c0, iterationNumber);
      iterationNumber := iterationNumber + 1;
      if empty {
        IterateFailedStable(LloydStep(dataPoints, d, eps), c0, iterationNumber, iter);
        return Err(EmptyCluster);
      }
      flagDelta := flag;
      centroids := newCentroids;
      cs := centroids[..];
    }
    r := Ok(State(centroids[..], iterationNumber, flagDelta == 1));
    IterateStops(LloydStep(dataPoints, d, eps), c0, iterationNumber, iter, State(cs, iterationNumber, flagDelta == 1));
  }

  /**
   * With K = N distinct points, every point is its own cluster, so the first
   * round reproduces the seed and the run converges after one round for any
   * positive eps.
   */
  lemma EveryPointItsOwnCluster(points: seq<Vector>, d: nat, eps: real, n: nat)
    requires |points| > 0 && HasDim(points, d)
    requires forall i, j :: 0 <= i < j < |points| ==> points[i] != points[j]
    requires eps > 0.0 && n >= 1
    ensures Iterate(LloydStep(points, d, eps), points, n) == Ok(State(points, 1, true))
  {
    forall j | 0 <= j < |points|
      ensures ClusterOf(points, points, d, j) == [points[j]]
    {
      SingletonClusters(points, d, |points|, j);
      assert points[..|points|] == points;
    }
    forall j | 0 <= j < |points|
      ensures Mean(ClusterOf(points, points, d, j), d) == points[j]
    {
      MeanOfSingleton(points[j]);
    }
    assert Round(points, points, d).value == points;
    UnmovedConverged(points, eps);
    IterateConvergedStable(LloydStep(points, d, eps), points, 1, n);
  }

  /** Among distinct points, each point's nearest point is itself. */
  lemma NearestIsSelf(points: seq<Vector>, d: nat, i: nat)
    requires |points| > 0 && HasDim(points, d) && i < |points|
    requires forall a, b :: 0 <= a < b < |points| ==> points[a] != points[b]
    ensures Nearest(points[i], points) == i
  {
    NearestIsNearest(points[i], points);
    forall j | 0 <= j < |points|
      ensures SqDist(points[i], points[i]) <= SqDist(points[i], points[j])
      ensures j != i ==> SqDist(points[i], points[i]) < SqDist(points[i], points[j])
    {
      SqDistZero(points[i], points[i]);
      SqDistZero(points[i], points[j]);
    }
    NearestUnique(points[i], points, i);
  }

  /** Assigning the first m of N distinct points to themselves fills exactly the first m clusters. */
  lemma {:induction false} SingletonClusters(points: seq<Vector>, d: nat, m: nat, j: nat)
    requires |points| > 0 && HasDim(points, d) && m <= |points|
    requires forall a, b :: 0 <= a < b < |points| ==> points[a] != points[b]
    ensures ClusterOf(points[..m], points, d, j) == if j < m then [points[j]] else []
    decreases m
  {
    if m > 0 {
      assert points[..m][..m - 1] == points[..m - 1];
      SingletonClusters(points, d, m - 1, j);
      NearestIsSelf(points, d, m - 1);
    }
  }
}
