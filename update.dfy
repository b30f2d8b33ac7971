/**
 * The update step: every centroid becomes the coordinate-wise mean of its
 * cluster (`get_new_centroids`, `sum_vectors_in_cluster` and
 * `count_vectors_in_cluster`, mykmeanssp.c:403-548).
 */
module Update {

  import opened Vectors
  import RealArith

  /** Coordinate `k` summed over the members of a cluster. */
  function CoordSum(c: seq<Vector>, k: nat): real
    requires forall i :: 0 <= i < |c| ==> k < |c[i]|
  {
    if c == [] then 0.0 else CoordSum(c[..|c| - 1], k) + c[|c| - 1][k]
  }

  /** The coordinate-wise mean of a non-empty cluster of d-dimensional vectors. */
  function Mean(c: seq<Vector>, d: nat): (m: Vector)
    requires |c| > 0 && HasDim(c, d)
    ensures |m| == d
  {
    seq(d, k requires 0 <= k < d => CoordSum(c, k) / (|c| as real))
  }

  /** Summing a concatenation sums the parts. */
  lemma {:induction false} CoordSumAppend(a: seq<Vector>, b: seq<Vector>, k: nat)
    requires forall i :: 0 <= i < |a| ==> k < |a[i]|
    requires forall i :: 0 <= i < |b| ==> k < |b[i]|
    ensures CoordSum(a + b, k) == CoordSum(a, k) + CoordSum(b, k)
    decreases |b|
  {
    if b == [] {
      assert a + b == a;
    } else {
      var n := |b| - 1;
      assert (a + b)[..|a + b| - 1] == a + b[..n];
      assert (a + b)[|a + b| - 1] == b[n];
      CoordSumAppend(a, b[..n], k);
    }
  }

  /** Removing the member at index `i` takes its coordinate out of the sum. */
  lemma CoordSumRemove(c: seq<Vector>, i: nat, k: nat)
    requires i < |c|
    requires forall j :: 0 <= j < |c| ==> k < |c[j]|
    ensures CoordSum(c, k) == CoordSum(c[..i] + c[i + 1..], k) + c[i][k]
  {
    assert c == c[..i] + ([c[i]] + c[i + 1..]);
    CoordSumAppend(c[..i], [c[i]] + c[i + 1..], k);
    CoordSumAppend([c[i]], c[i + 1..], k);
    CoordSumAppend(c[..i], c[i + 1..], k);
    assert CoordSum([c[i]], k) == c[i][k] by {
      assert [c[i]][..0] == [];
    }
  }

  /** Taking out the element at index `i` takes one copy of it out of the multiset. */
  lemma MultisetRemove(b: seq<Vector>, i: nat)
    requires i < |b|
    ensures multiset(b[..i] + b[i + 1..]) == multiset(b) - multiset{b[i]}
  {
    assert b == b[..i] + [b[i]] + b[i + 1..];
  }

  /** The position of some copy of `x` in `b`. */
  function IndexOf(b: seq<Vector>, x: Vector): (i: nat)
    requires x in b
    ensures i < |b| && b[i] == x
  {
    if b[0] == x then 0 else 1 + IndexOf(b[1..], x)
  }

  /**
   * Taking the last member of `a` out of `a`, and one copy of it out of a
   * permutation `b` of `a`, leaves two lists that are still permutations of
   * each other.
   */
  lemma RemoveLast(a: seq<Vector>, b: seq<Vector>)
    requires a != [] && multiset(a) == multiset(b)
    ensures a[|a| - 1] in b
    ensures var i := IndexOf(b, a[|a| - 1]);
      multiset(a[..|a| - 1]) == multiset(b[..i] + b[i + 1..])
  {
    var n := |a| - 1;
    var x := a[n];
    MultisetRemove(a, n);
    assert a[..n] + a[n + 1..] == a[..n];
    assert x in multiset(b);
    MultisetRemove(b, IndexOf(b, x));
  }

  /** A permutation of a list whose members all have coordinate `k` has the same property. */
  lemma PermutationKeepsCoord(a: seq<Vector>, b: seq<Vector>, k: nat)
    requires multiset(a) == multiset(b)
    requires forall i :: 0 <= i < |a| ==> k < |a[i]|
    ensures forall i :: 0 <= i < |b| ==> k < |b[i]|
  {
    forall i | 0 <= i < |b|
      ensures k < |b[i]|
    {
      assert b[i] in multiset(a);
    }
  }

  /** The sum does not depend on the order of the members. */
  lemma {:induction false} CoordSumPermutation(a: seq<Vector>, b: seq<Vector>, k: nat)
    requires multiset(a) == multiset(b)
    requires forall i :: 0 <= i < |a| ==> k < |a[i]|
    requires forall i :: 0 <= i < |b| ==> k < |b[i]|
    ensures CoordSum(a, k) == CoordSum(b, k)
    decreases |a|
  {
    if a == [] {
      assert |b| == |multiset(b)| == 0;
    } else {
      var rest := a[..|a| - 1];
      RemoveLast(a, b);
      var i := IndexOf(b, a[|a| - 1]);
      var others := b[..i] + b[i + 1..];
      PermutationKeepsCoord(rest, others, k);
      CoordSumPermutation(rest, others, k);
      CoordSumRemove(b, i, k);
    }
  }

  /**
   * The mean depends only on which vectors are in the cluster, not on their
   * order: the most-recent-first lists the assignment step builds have the
   * same mean as the points taken in input order.
   */
  lemma MeanPermutation(a: seq<Vector>, b: seq<Vector>, d: nat)
    requires |a| > 0 && HasDim(a, d)
    requires multiset(a) == multiset(b)
    ensures |b| == |a| && HasDim(b, d)
    ensures Mean(a, d) == Mean(b, d)
  {
    assert |b| == |multiset(b)| == |multiset(a)| == |a|;
    forall i | 0 <= i < |b|
      ensures |b[i]| == d
    {
      assert b[i] in multiset(a);
    }
    forall k | 0 <= k < d
      ensures Mean(a, d)[k] == Mean(b, d)[k]
    {
      PermutationKeepsCoord(a, b, k);
      CoordSumPermutation(a, b, k);
    }
  }

  /** A cluster of one vector has that vector as its centroid. */
  lemma MeanOfSingleton(p: Vector)
    ensures Mean([p], |p|) == p
  {
    forall k | 0 <= k < |p|
      ensures Mean([p], |p|)[k] == p[k]
    {
      assert [p][..0] == [];
      assert CoordSum([p], k) == p[k];
      assert (|[p]| as real) == 1.0;
    }
  }

  /** `x` added to itself `n` times. */
  function Times(n: nat, x: real): real
  {
    if n == 0 then 0.0 else Times(n - 1, x) + x
  }

  /** Adding `x` to itself `n` times makes `n * x`. */
  lemma {:induction false} TimesIsProduct(n: nat, x: real)
    ensures Times(n, x) == (n as real) * x
  {
    if n > 0 {
      TimesIsProduct(n - 1, x);
      RealArith.ScaleStep(n as real, (n - 1) as real, x, (n as real) * x, ((n - 1) as real) * x);
    }
  }

  /** Every coordinate sum lies between |c| copies of a lower and |c| copies of an upper bound of that coordinate. */
  lemma {:induction false} CoordSumBounds(c: seq<Vector>, k: nat, lo: real, hi: real)
    requires forall i :: 0 <= i < |c| ==> k < |c[i]| && lo <= c[i][k] <= hi
    ensures Times(|c|, lo) <= CoordSum(c, k) <= Times(|c|, hi)
    decreases |c|
  {
    if c != [] {
      CoordSumBounds(c[..|c| - 1], k, lo, hi);
    }
  }

  /**
   * A centroid lies inside the bounding box of its cluster: every coordinate
   * of the mean is between the smallest and the largest value that
   * coordinate takes in the cluster.
   */
  lemma MeanBounded(c: seq<Vector>, d: nat, k: nat, lo: real, hi: real)
    requires |c| > 0 && HasDim(c, d) && k < d
    requires forall i :: 0 <= i < |c| ==> lo <= c[i][k] <= hi
    ensures lo <= Mean(c, d)[k] <= hi
  {
    var n := |c| as real;
    CoordSumBounds(c, k, lo, hi);
    TimesIsProduct(|c|, lo);
    TimesIsProduct(|c|, hi);
    RealArith.DivideBounds(CoordSum(c, k), n, lo, hi, n * lo, n * hi);
  }

  /** `count_vectors_in_cluster` (mykmeanssp.c:538-548): the length of the member list. */
  method CountVectorsInCluster(cluster: seq<Vector>) returns (count: nat)
    ensures count == |cluster|
  {
    count := 0;
    var i := 0;
    while i < |cluster|
      invariant 0 <= i <= |cluster|
      invariant count == i
    {
      count := count + 1;
      i := i + 1;
    }
  }

  /**
   * `sum_vectors_in_cluster` (mykmeanssp.c:494-506): starts from the zero
   * vector and adds the members, head to tail.
   */
  method SumVectorsInCluster(cluster: seq<Vector>, d: nat) returns (sum: Vector)
    requires HasDim(cluster, d)
    ensures |sum| == d
    ensures forall k :: 0 <= k < d ==> sum[k] == CoordSum(cluster, k)
  {
    sum := ZeroVector(d);
    var i := 0;
    while i < |cluster|
      invariant 0 <= i <= |cluster|
      invariant |sum| == d
      invariant forall k :: 0 <= k < d ==> sum[k] == CoordSum(cluster[..i], k)
    {
      assert cluster[..i + 1][..i] == cluster[..i];
      sum := SumEntries(cluster[i], sum);
      i := i + 1;
    }
    assert cluster[..i] == cluster;
  }

  /**
   * `get_new_centroids` (mykmeanssp.c:403-431): centroid i becomes the mean of
   * cluster i. The source divides by the member count with no check, so the
   * model asks for non-empty clusters.
   */
  method GetNewCentroids(clusters: array<seq<Vector>>, d: nat) returns (newCentroids: array<Vector>)
    requires forall i :: 0 <= i < clusters.Length ==> |clusters[i]| > 0 && HasDim(clusters[i], d)
    ensures fresh(newCentroids)
    ensures newCentroids.Length == clusters.Length
    ensures forall i :: 0 <= i < clusters.Length ==> newCentroids[i] == Mean(clusters[i], d)
  {
    newCentroids := new Vector[clusters.Length];
    for i := 0 to clusters.Length
      invariant forall j :: 0 <= j < i ==> newCentroids[j] == Mean(clusters[j], d)
    {
      var k := CountVectorsInCluster(clusters[i]);
      var sum := SumVectorsInCluster(clusters[i], d);
      var centroid := DivideByScalar(sum, k as real);
      assert centroid == Mean(clusters[i], d);
      newCentroids[i] := centroid;
    }
  }
}
