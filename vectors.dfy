/**
 * Points and centroids. The source stores each vector as a linked list of
 * entries (mykmeanssp.c:24-32); here a vector is the sequence of its d
 * coordinates, in list order, and the list walks become index loops.
 *
 * The source's `dist` returns `sqrt` of the sum of squared differences. The
 * model keeps the sum itself (`SqDist`) and never takes the root: the two
 * lemmas at the end show that every comparison the source makes on `dist`
 * (`<` between two distances, `>= eps` against the threshold) has the same
 * outcome when made on the squared distances instead.
 */
module Vectors {

  import RealArith

  /** A point or a centroid: its coordinates, in the order of the entry list. */
  type Vector = seq<real>

  /** Every vector of `vs` has exactly `d` coordinates. */
  predicate HasDim(vs: seq<Vector>, d: nat)
  {
    forall i :: 0 <= i < |vs| ==> |vs[i]| == d
  }

  function Min(a: nat, b: nat): nat
  {
    if a <= b then a else b
  }

  /** `pow(x, 2)`. */
  function Square(x: real): real
  {
    x * x
  }

  /** A square is never negative, and it is positive away from zero. */
  lemma SquareSign(x: real)
    ensures Square(x) >= 0.0
    ensures x != 0.0 ==> Square(x) > 0.0
  {
    RealArith.SquareOf(x, Square(x));
  }

  /** The squared Euclidean distance between two vectors of the same length. */
  function SqDist(u: Vector, v: Vector): real
    requires |u| == |v|
    decreases |u|
  {
    if |u| == 0 then 0.0
    else
      var n := |u| - 1;
      SqDist(u[..n], v[..n]) + Square(u[n] - v[n])
  }

  /** A squared distance is never negative, and it is zero exactly between equal vectors. */
  lemma {:induction false} SqDistZero(u: Vector, v: Vector)
    requires |u| == |v|
    ensures SqDist(u, v) >= 0.0
    ensures u == v ==> SqDist(u, v) == 0.0
    ensures u != v ==> SqDist(u, v) > 0.0
    decreases |u|
  {
    if |u| > 0 {
      var n := |u| - 1;
      SqDistZero(u[..n], v[..n]);
      SquareSign(u[n] - v[n]);
      assert u == u[..n] + [u[n]] && v == v[..n] + [v[n]];
    }
  }

  /**
   * `dist` (mykmeanssp.c:572-586) without the final square root: the sum, over
   * every coordinate, of the squared difference.
   */
  method Dist(u: Vector, v: Vector) returns (sum: real)
    requires |u| == |v|
    ensures sum == SqDist(u, v)
  {
    sum := 0.0;
    for i := 0 to |u|
      invariant sum == SqDist(u[..i], v[..i])
    {
      assert u[..i + 1][..i] == u[..i] && v[..i + 1][..i] == v[..i];
      sum := sum + Square(u[i] - v[i]);
    }
    assert u[..|u|] == u && v[..|v|] == v;
  }

  /** `copy_entries` (mykmeanssp.c:313-338): a fresh list with the same values in the same order. */
  method CopyEntries(entries: Vector) returns (copy: Vector)
    ensures copy == entries
  {
    copy := [];
    var i := 0;
    while i < |entries|
      invariant 0 <= i <= |entries|
      invariant copy == entries[..i]
    {
      copy := copy + [entries[i]];
      i := i + 1;
    }
    assert entries[..|entries|] == entries;
  }

  /** `zero_vector` (mykmeanssp.c:465-492): d entries, all zero. */
  method ZeroVector(d: nat) returns (z: Vector)
    ensures |z| == d
    ensures forall k :: 0 <= k < d ==> z[k] == 0.0
  {
    z := [];
    for i := 0 to d
      invariant |z| == i
      invariant forall k :: 0 <= k < i ==> z[k] == 0.0
    {
      z := z + [0.0];
    }
  }

  /**
   * `sum_entries` (mykmeanssp.c:433-463): walks both lists together and stops
   * at the end of the shorter one, so the sum has min(|u|, |v|) entries.
   */
  method SumEntries(u: Vector, v: Vector) returns (s: Vector)
    ensures |s| == Min(|u|, |v|)
    ensures forall k :: 0 <= k < |s| ==> s[k] == u[k] + v[k]
  {
    s := [];
    var i := 0;
    while i < |u| && i < |v|
      invariant 0 <= i <= Min(|u|, |v|)
      invariant |s| == i
      invariant forall k :: 0 <= k < i ==> s[k] == u[k] + v[k]
    {
      s := s + [u[i] + v[i]];
      i := i + 1;
    }
  }

  /** `divide_by_scalar` (mykmeanssp.c:508-536): every entry divided by `scalar`, length kept. */
  method DivideByScalar(v: Vector, scalar: real) returns (r: Vector)
    requires scalar != 0.0
    ensures |r| == |v|
    ensures forall k :: 0 <= k < |v| ==> r[k] == v[k] / scalar
  {
    r := [];
    var i := 0;
    while i < |v|
      invariant 0 <= i <= |v|
      invariant |r| == i
      invariant forall k :: 0 <= k < i ==> r[k] == v[k] / scalar
    {
      r := r + [v[i] / scalar];
      i := i + 1;
    }
  }

  /**
   * The source's convergence test `dist(u, v) >= eps`, stated on the squared
   * distance `sq`. A distance is never negative, so the test always holds
   * when eps <= 0.
   */
  predicate NotBelow(sq: real, eps: real)
  {
    eps <= 0.0 || sq >= Square(eps)
  }

  /** `NotBelow(sq, eps)` holds exactly when the square root of `sq` is at least eps. */
  lemma NotBelowMatchesRoot(sq: real, eps: real, root: real)
    requires root >= 0.0 && Square(root) == sq
    ensures NotBelow(sq, eps) <==> root >= eps
  {
    if eps > 0.0 {
      if root >= eps {
        RealArith.SquareMonotone(eps, root, Square(eps), sq);
      } else {
        RealArith.SquareStrict(root, eps, sq, Square(eps));
      }
    }
  }

  /**
   * Comparing two squared distances orders them as the distances themselves:
   * the nearest-centroid scan may compare `SqDist` instead of `dist`.
   */
  lemma RootsOrdered(a: real, b: real, ra: real, rb: real)
    requires ra >= 0.0 && Square(ra) == a
    requires rb >= 0.0 && Square(rb) == b
    ensures a < b <==> ra < rb
  {
    if ra < rb {
      RealArith.SquareStrict(ra, rb, a, b);
    } else {
      RealArith.SquareMonotone(rb, ra, b, a);
    }
  }
}
