/**
 * `main` without its input and output (mykmeanssp.c:67-109): validate K and
 * iter against the number of points read, and run `k_means` with the
 * threshold eps = 0.001 when both pass.
 */
module Driver {

  import opened Wrappers
  import opened Vectors
  import opened Arguments
  import opened KMeans

  /** The convergence threshold `eps` (mykmeanssp.c:17). */
  const Eps: real := 0.001

  /**
   * The points come from `read_data_points` in the source; here they are a
   * parameter. `Err` stands for rejected arguments: `main` then prints
   * `ErrorMessages` of the error, one line per failed check, and returns 1.
   */
  method Run(points: seq<Vector>, d: nat, args: seq<string>) returns (r: Result<Result<State, Failure>, ArgError>)
    requires HasDim(points, d)
    requires forall i :: 0 <= i < |args| ==> NulFree(args[i])
    ensures r.Ok? <==> Accepted(1, Arg(args, 0), |points|) && (|args| == 2 ==> Accepted(1, Arg(args, 1), IterBound))
    ensures r.Err? ==> r.error.badK == !Accepted(1, Arg(args, 0), |points|)
    ensures r.Err? ==> r.error.badIter == (|args| == 2 && !Accepted(1, Arg(args, 1), IterBound))
    ensures r.Ok? ==>
      var k := Atoi(args[0]);
      var iter := if |args| == 2 then Atoi(args[1]) else DefaultIter;
      1 < k < |points| && 1 < iter < IterBound &&
      r.value == Iterate(LloydStep(points, d, Eps), points[..k], iter)
  {
    var config := ParseArguments(args, |points|);
    if config.Err? {
      return Err(config.error);
    }
    var outcome := KMeans.KMeans(points, d, config.value.k, config.value.iter, Eps);
    return Ok(outcome);
  }
}
